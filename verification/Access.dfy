/** Reading and positioning: how file positions, (command, offset) pairs and (slot, offset) pairs
    denote bytes of the device.  None of these calls changes the device. */
module Access {
  import opened Bytes
  import opened FlatView
  import opened RingBuffer
  import opened Driver

  const TWO_TO_32: int := 0x1_0000_0000
  const TWO_TO_63: int := 0x8000_0000_0000_0000
  const TWO_TO_64: int := 0x1_0000_0000_0000_0000

  type u32 = x: int | 0 <= x < TWO_TO_32
  type loff = x: int | -TWO_TO_63 <= x < TWO_TO_63

  const SEEK_SET: int := 0
  const SEEK_CUR: int := 1
  const SEEK_END: int := 2

  /** _IOWR(0x16, 1, struct aesd_seekto): direction 3, size 8, magic 0x16, number 1. */
  const IOCSEEKTO: nat := 0xC008_1601

  // ----- the flat view of the device -----

  lemma SizesAreLengths(d: Dev)
    requires Inv(d)
    ensures Sizes(d.ring) == Lengths(Commands(d))
    ensures Sum(Sizes(d.ring)) == |Content(d)|
  {
    forall k | 0 <= k < Count(d.ring) ensures Sizes(d.ring)[k] == |Commands(d)[k]| {
      SlotsDistinct(d.ring, k, k);
      assert EntryOk(d.heap, d.ring.entry[Slot(d.ring, k)]);
    }
    assert Sizes(d.ring) == Lengths(Commands(d));
    ConcatLength(Commands(d));
  }

  /** Find fails exactly at and past the end; otherwise it names the slot of a stored command k and
      an offset inside it. */
  lemma FindNamesCommand(d: Dev, pos: nat) returns (k: nat)
    requires Inv(d) && pos < |Content(d)|
    ensures k < Count(d.ring) && Sum(Sizes(d.ring)[..k]) <= pos < Sum(Sizes(d.ring)[..k]) + Sizes(d.ring)[k]
    ensures Find(d.ring, pos) == Some((Slot(d.ring, k), pos - Sum(Sizes(d.ring)[..k])))
  {
    SizesAreLengths(d);
    LocateIffPosition(Sizes(d.ring), pos, 0, 0);
    var ko := Locate(Sizes(d.ring), pos).value;
    k := ko.0;
    LocateIffPosition(Sizes(d.ring), pos, ko.0, ko.1);
  }

  /** Command k in memory: its slot, its block and its bytes. */
  lemma CommandInMemory(d: Dev, k: nat)
    requires Inv(d) && k < Count(d.ring)
    ensures var e := d.ring.entry[Slot(d.ring, k)];
            && Slot(d.ring, k) < MAX_WRITES
            && e.size == Sizes(d.ring)[k] == |Commands(d)[k]|
            && Commands(d)[k] == EntryBytes(d.heap, e)
            && (e.size > 0 ==> e.buffptr in d.heap && Commands(d)[k] == d.heap[e.buffptr][..e.size])
  {
    SlotsDistinct(d.ring, k, k);
    assert EntryOk(d.heap, d.ring.entry[Slot(d.ring, k)]);
  }

  /** Find fails exactly at and past the end; otherwise it names the entry and the offset inside
      it at which the byte of the flat view sits, and everything up to that entry's end agrees. */
  lemma FindAgreesWithContent(d: Dev, pos: nat)
    requires Inv(d)
    ensures Find(d.ring, pos) == None <==> |Content(d)| <= pos
    ensures Find(d.ring, pos).Some? ==>
              var (slot, o) := Find(d.ring, pos).value;
              && slot < MAX_WRITES && d.ring.entry[slot].buffptr in d.heap
              && o < d.ring.entry[slot].size == |EntryBytes(d.heap, d.ring.entry[slot])|
              && pos + d.ring.entry[slot].size - o <= |Content(d)|
              && EntryBytes(d.heap, d.ring.entry[slot])[o..]
                 == Content(d)[pos..pos + d.ring.entry[slot].size - o]
              && Content(d)[pos] == d.heap[d.ring.entry[slot].buffptr][o]
  {
    SizesAreLengths(d);
    LocateIffPosition(Sizes(d.ring), pos, 0, 0);
    if pos < |Content(d)| {
      var k := FindNamesCommand(d, pos);
      CommandInMemory(d, k);
      TailOfPart(Commands(d), k, pos);
    }
  }

  /** Inside part k of a concatenation the flat bytes are that part's bytes. */
  lemma TailOfPart(parts: seq<bytes>, k: nat, pos: nat)
    requires k < |parts| && Sum(Lengths(parts)[..k]) <= pos < Sum(Lengths(parts)[..k]) + |parts[k]|
    ensures var o := pos - Sum(Lengths(parts)[..k]);
            && pos + |parts[k]| - o <= |Concat(parts)|
            && parts[k][o..] == Concat(parts)[pos..pos + |parts[k]| - o]
            && Concat(parts)[pos] == parts[k][o]
  {
    var o, c := pos - Sum(Lengths(parts)[..k]), Concat(parts);
    ConcatFrom(parts, k, o);
    assert c[pos..][..|parts[k]| - o] == parts[k][o..];
    assert c[pos] == c[pos..][0];
  }

  /** The first n bytes found at `pos` are the next n bytes of the content. */
  lemma FindSlice(d: Dev, pos: nat, n: nat)
    requires Inv(d) && Find(d.ring, pos).Some?
    requires var (slot, o) := Find(d.ring, pos).value;
             slot < MAX_WRITES && o + n <= d.ring.entry[slot].size
    ensures var (slot, o) := Find(d.ring, pos).value;
            && d.ring.entry[slot].buffptr in d.heap
            && o + n <= |d.heap[d.ring.entry[slot].buffptr]|
            && pos + n <= |Content(d)|
            && d.heap[d.ring.entry[slot].buffptr][o..o + n] == Content(d)[pos..pos + n]
  {
    FindAgreesWithContent(d, pos);
    var (slot, o) := Find(d.ring, pos).value;
    var e := d.ring.entry[slot];
    EqualTails(d.heap[e.buffptr], e.size, o, Content(d), pos, n);
  }

  lemma EqualTails(block: bytes, size: nat, o: nat, c: bytes, pos: nat, n: nat)
    requires o + n <= size <= |block| && pos + size - o <= |c|
    requires block[..size][o..] == c[pos..pos + size - o]
    ensures block[o..o + n] == c[pos..pos + n]
  {
    TakeOfDrop(block, size, o, n);
    TakeOfSlice(c, pos, pos + size - o, n);
  }

  lemma TakeOfDrop(s: bytes, size: nat, o: nat, n: nat)
    requires o + n <= size <= |s|
    ensures s[..size][o..][..n] == s[o..o + n]
  {
  }

  lemma TakeOfSlice(s: bytes, i: nat, j: nat, n: nat)
    requires i + n <= j <= |s|
    ensures s[i..j][..n] == s[i..i + n]
  {
  }

  // ----- read -----

  datatype ReadEnv = ReadEnv(interrupted: bool, copyFails: bool)

  function Min(a: nat, b: nat): nat {
    if a <= b then a else b
  }

  /** One read call at `pos`: the new position, the return value and the bytes handed out. */
  ghost function Read(d: Dev, hasBuf: bool, pos: nat, count: nat, env: ReadEnv): (nat, int, bytes)
    requires Inv(d)
  {
    FindAgreesWithContent(d, pos);
    if !hasBuf then (pos, -EINVAL, [])
    else if env.interrupted then (pos, -ERESTARTSYS, [])
    else
      match Find(d.ring, pos)
      case None => (pos, 0, [])
      case Some((slot, o)) =>
        var e := d.ring.entry[slot];
        var n := Min(count, e.size - o);
        if env.copyFails then (pos, -EFAULT, [])
        else (pos + n, n, d.heap[e.buffptr][o..o + n])
  }

  /** Read in terms of what find returns. */
  lemma ReadByFind(d: Dev, pos: nat, count: nat, env: ReadEnv)
    requires Inv(d) && !env.interrupted
    ensures match Find(d.ring, pos)
            case None => Read(d, true, pos, count, env) == (pos, 0, [])
            case Some((slot, o)) =>
              && slot < MAX_WRITES
              && d.ring.entry[slot].buffptr in d.heap
              && o < d.ring.entry[slot].size <= |d.heap[d.ring.entry[slot].buffptr]|
              && var n := Min(count, d.ring.entry[slot].size - o);
                 Read(d, true, pos, count, env)
                 == (if env.copyFails then (pos, -EFAULT, [])
                     else (pos + n, n, d.heap[d.ring.entry[slot].buffptr][o..o + n]))
  {
    FindAgreesWithContent(d, pos);
  }

  /** A read hands out the next bytes of the content and advances over them, never past the end
      and never nothing before it; at or past the end it returns 0, and an error moves nothing. */
  lemma ReadDelivers(d: Dev, hasBuf: bool, pos: nat, count: nat, env: ReadEnv)
    requires Inv(d)
    ensures var (pos', ret, out) := Read(d, hasBuf, pos, count, env);
            && (ret <= 0 ==> pos' == pos && out == [])
            && (ret > 0 ==> ret <= count && pos' == pos + ret <= |Content(d)| && out == Content(d)[pos..pos'])
            && (ret == 0 <==> hasBuf && !env.interrupted
                              && (|Content(d)| <= pos || (count == 0 && !env.copyFails)))
            && (ret < 0 <==> !hasBuf || env.interrupted || (pos < |Content(d)| && env.copyFails))
            && (ret < 0 ==> ret == if !hasBuf then -22 else if env.interrupted then -512 else -14)
  {
    if hasBuf && !env.interrupted {
      FindAgreesWithContent(d, pos);
      ReadByFind(d, pos, count, env);
      if Find(d.ring, pos).Some? {
        var (slot, o) := Find(d.ring, pos).value;
        var n := Min(count, d.ring.entry[slot].size - o);
        FindSlice(d, pos, n);
        assert Read(d, hasBuf, pos, count, env)
            == if env.copyFails then (pos, -EFAULT, []) else (pos + n, n, Content(d)[pos..pos + n]);
      }
    }
  }

  /** Where find leads inside command k. */
  lemma FindInCommand(d: Dev, pos: nat, k: nat)
    requires Inv(d) && k < |Commands(d)|
    requires Sum(Lengths(Commands(d))[..k]) <= pos < Sum(Lengths(Commands(d))[..k + 1])
    ensures Find(d.ring, pos).Some?
    ensures var ((slot, o), end) := (Find(d.ring, pos).value, Sum(Lengths(Commands(d))[..k + 1]));
            slot < MAX_WRITES && o < d.ring.entry[slot].size && d.ring.entry[slot].size - o == end - pos
  {
    SizesAreLengths(d);
    SumSnoc(Sizes(d.ring), k);
    SlotsDistinct(d.ring, k, k);
    LocateIffPosition(Sizes(d.ring), pos, k, pos - Sum(Sizes(d.ring)[..k]));
  }

  /** How much a successful read hands out inside command k: what was asked for if the command holds
      as much from there on, and the rest of that command if not; never less and never more. */
  lemma ReadTakesWhatFits(d: Dev, pos: nat, count: nat, env: ReadEnv, k: nat)
    requires Inv(d) && !env.interrupted && !env.copyFails && k < |Commands(d)|
    requires Sum(Lengths(Commands(d))[..k]) <= pos < Sum(Lengths(Commands(d))[..k + 1])
    ensures var (pos', ret, out) := Read(d, true, pos, count, env);
            var end := Sum(Lengths(Commands(d))[..k + 1]);
            && (if pos + count <= end then ret == count else ret == end - pos)
            && pos' == pos + ret <= end && pos' <= |Content(d)|
            && out == Content(d)[pos..pos']
  {
    FindInCommand(d, pos, k);
    var n := if pos + count <= Sum(Lengths(Commands(d))[..k + 1]) then count
             else Sum(Lengths(Commands(d))[..k + 1]) - pos;
    FindSlice(d, pos, n);
    ReadByFind(d, pos, count, env);
  }

  /** Where the part that holds position pos of a concatenation ends. */
  function PartEnd(parts: seq<bytes>, pos: nat): nat {
    if parts == [] then pos
    else if pos < |parts[0]| then |parts[0]|
    else |parts[0]| + PartEnd(parts[1..], pos - |parts[0]|)
  }

  lemma {:induction false} PartOf(parts: seq<bytes>, pos: nat) returns (k: nat)
    requires pos < |Concat(parts)|
    ensures k < |parts|
    ensures Sum(Lengths(parts)[..k]) <= pos < Sum(Lengths(parts)[..k + 1]) == PartEnd(parts, pos)
  {
    var lens := Lengths(parts);
    if pos < |parts[0]| {
      k := 0;
      assert lens[..1] == [lens[0]] && lens[..0] == [];
      assert Sum([lens[0]]) == lens[0];
    } else {
      var j := PartOf(parts[1..], pos - |parts[0]|);
      k := j + 1;
      assert lens[..k] == [lens[0]] + Lengths(parts[1..])[..j];
      assert lens[..k + 1] == [lens[0]] + Lengths(parts[1..])[..j + 1];
    }
  }

  /** The same for any position before the end. */
  lemma ReadStopsAt(d: Dev, pos: nat, count: nat, env: ReadEnv)
    requires Inv(d) && !env.interrupted && !env.copyFails && pos < |Content(d)|
    ensures var (pos', end) := (Read(d, true, pos, count, env).0, PartEnd(Commands(d), pos));
            pos < end && pos' == if pos + count <= end then pos + count else end
  {
    var k := PartOf(Commands(d), pos);
    ReadTakesWhatFits(d, pos, count, env, k);
  }

  lemma SliceJoin(c: bytes, i: nat, j: nat, k: nat)
    requires i <= j <= k <= |c|
    ensures c[i..j] + c[j..k] == c[i..k]
    ensures c[i..|c|] == c[i..]
  {
  }

  const CALM := ReadEnv(false, false)

  /** Repeated reads with the given counts: the final position and all bytes handed out. */
  ghost function Drain(d: Dev, pos: nat, counts: seq<nat>): (nat, bytes)
    requires Inv(d)
    decreases |counts|
  {
    if counts == [] then (pos, [])
    else
      var (pos1, ret, out) := Read(d, true, pos, counts[0], CALM);
      var (pos2, rest) := Drain(d, pos1, counts[1..]);
      (pos2, out + rest)
  }

  /** Reads with any positive counts deliver the content from the start position on, each call
      making progress until the end is reached; enough calls deliver all of it, and nothing is
      delivered from a position at or past the end. */
  lemma {:induction false} DrainDelivers(d: Dev, pos: nat, counts: seq<nat>)
    requires Inv(d)
    requires forall i :: 0 <= i < |counts| ==> counts[i] > 0
    ensures var (pos', out) := Drain(d, pos, counts);
            && (|Content(d)| <= pos ==> pos' == pos && out == [])
            && (pos <= |Content(d)| ==>
                  && pos <= pos' <= |Content(d)|
                  && out == Content(d)[pos..pos']
                  && (pos' == |Content(d)| || |counts| <= pos' - pos)
                  && (|Content(d)| - pos <= |counts| ==> out == Content(d)[pos..]))
    decreases |counts|
  {
    var c := Content(d);
    if counts != [] {
      var (pos1, ret, out) := Read(d, true, pos, counts[0], CALM);
      ReadDelivers(d, true, pos, counts[0], CALM);
      DrainDelivers(d, pos1, counts[1..]);
      if pos < |c| {
        SliceJoin(c, pos, pos1, Drain(d, pos1, counts[1..]).0);
      }
    }
  }

  // ----- llseek -----

  /** The value of x in a signed 64-bit variable. */
  function ToInt64(x: int): loff {
    var m := x % TWO_TO_64;
    if m < TWO_TO_63 then m else m - TWO_TO_64
  }

  /** The position the driver computes for a seek, or None where it returns EINVAL. */
  function SeekOutcome(total: nat, pos: loff, offset: loff, whence: int): Option<loff> {
    if whence != SEEK_SET && whence != SEEK_CUR && whence != SEEK_END then None
    else
      var newPos := if whence == SEEK_SET then offset
                    else if whence == SEEK_CUR then ToInt64(pos + offset)
                    else ToInt64(total + offset);
      if newPos < 0 || newPos > total then None else Some(newPos)
  }

  function Llseek(d: Dev, pos: loff, offset: loff, whence: int, interrupted: bool): (loff, int)
    requires WellFormed(d.ring)
  {
    if interrupted then (pos, -ERESTARTSYS)
    else
      match SeekOutcome(Sum(Sizes(d.ring)), pos, offset, whence)
      case None => (pos, -EINVAL)
      case Some(p) => (p, p)
  }

  /** Where a seek leads without any wrap-around: from the start for whence 0, from the position for
      1, from the end for 2. */
  function MathTarget(total: nat, pos: int, offset: int, whence: int): Option<int> {
    var base := if whence == 0 then 0 else if whence == 1 then pos else total;
    if 0 <= whence <= 2 && 0 <= base + offset <= total then Some(base + offset) else None
  }

  ghost predicate SeekIsMath(total: nat, pos: loff, offset: loff, whence: int) {
    SeekOutcome(total, pos, offset, whence) == MathTarget(total, pos, offset, whence)
  }

  /** From every non-negative position, in every mode and for every offset, a seek succeeds exactly
      when the mathematical target lies between 0 and the end, provided and only if the total size
      is below 2^63; above that the 64-bit arithmetic gives itself away. */
  lemma SeekExactIffTotalFits(total: nat)
    requires total < 0x1_0000_0000_0000_0000
    ensures (forall pos: loff, offset: loff, whence: int :: pos >= 0 ==> SeekIsMath(total, pos, offset, whence))
            <==> total < 0x8000_0000_0000_0000
  {
    if total >= TWO_TO_63 {
      assert !SeekIsMath(total, 0, 0, SEEK_END);
    }
  }

  /** A seek on the device stores and returns the target, or leaves the position alone. */
  lemma LlseekExact(d: Dev, pos: loff, offset: loff, whence: int, interrupted: bool)
    requires Inv(d) && |Content(d)| < 0x8000_0000_0000_0000 && pos >= 0
    ensures var (pos', ret) := Llseek(d, pos, offset, whence, interrupted);
            match MathTarget(|Content(d)|, pos, offset, whence)
            case Some(target) =>
              if interrupted then pos' == pos && ret == -512 else pos' == ret == target
            case None => pos' == pos && ret == if interrupted then -512 else -22
  {
    SizesAreLengths(d);
    SeekExactIffTotalFits(|Content(d)|);
    assert SeekIsMath(|Content(d)|, pos, offset, whence);
  }

  // ----- ioctl -----

  /** The ioctl; `arg` is None when the argument cannot be copied from user space. */
  function Ioctl(d: Dev, pos: nat, cmd: nat, arg: Option<(u32, u32)>, interrupted: bool): (nat, int)
    requires WellFormed(d.ring)
  {
    if cmd != IOCSEEKTO then (pos, -ENOTTY)
    else if arg == None then (pos, -EFAULT)
    else if interrupted then (pos, -ERESTARTSYS)
    else
      match PositionOf(Sizes(d.ring), arg.value.0, arg.value.1)
      case None => (pos, -EINVAL)
      case Some(p) => (p, 0)
  }

  /** A seek to (command, offset) succeeds exactly for an existing byte of an existing command,
      and find maps the resulting position back to that command's slot and that offset. */
  lemma SeekThenFind(d: Dev, pos: nat, cmd: u32, off: u32)
    requires Inv(d)
    ensures var (pos', ret) := Ioctl(d, pos, IOCSEEKTO, Some((cmd, off)), false);
            && (ret == 0 <==> cmd < |Commands(d)| && off < |Commands(d)[cmd]|)
            && (ret == 0 ==>
                  && Find(d.ring, pos') == Some((Slot(d.ring, cmd), off))
                  && pos' < |Content(d)|
                  && Content(d)[pos'..] == Commands(d)[cmd][off..] + Concat(Commands(d)[cmd + 1..]))
            && (ret != 0 ==> ret == -EINVAL && pos' == pos)
  {
    SizesAreLengths(d);
    var (pos', ret) := Ioctl(d, pos, IOCSEEKTO, Some((cmd, off)), false);
    if ret == 0 {
      LocateIffPosition(Sizes(d.ring), pos', cmd, off);
      ConcatFrom(Commands(d), cmd, off);
    }
  }

  /** All outcomes of the ioctl: which request succeeds, which error each other one gets, and that
      an error leaves the position alone. */
  lemma IoctlOutcome(d: Dev, pos: nat, cmd: nat, arg: Option<(u32, u32)>, interrupted: bool)
    requires Inv(d)
    ensures var (pos', ret) := Ioctl(d, pos, cmd, arg, interrupted);
            && (ret == 0 <==>
                  && cmd == 0xC008_1601 && arg.Some? && !interrupted
                  && arg.value.0 < |Commands(d)| && arg.value.1 < |Commands(d)[arg.value.0]|)
            && (ret == 0 ==> pos' < |Content(d)|)
            && (ret != 0 ==> pos' == pos)
            && (ret == -25 <==> cmd != 0xC008_1601)
            && (ret == -14 <==> cmd == 0xC008_1601 && arg.None?)
            && (ret == -512 <==> cmd == 0xC008_1601 && arg.Some? && interrupted)
            && ret in {0, -25, -14, -512, -22}
  {
    if arg.Some? {
      SeekThenFind(d, pos, arg.value.0, arg.value.1);
    }
  }

  /** Conversely every position below the end comes from exactly one (command, offset) pair; it is
      reachable by the ioctl exactly when that offset fits the 32 bits of the request.  This holds
      for any well-formed ring, zero-size entries included. */
  lemma EveryPositionFromOnePair(d: Dev, from: nat, pos: nat) returns (cmd: nat, off: nat)
    requires WellFormed(d.ring) && pos < Sum(Sizes(d.ring))
    ensures cmd < Count(d.ring) && off < d.ring.entry[Slot(d.ring, cmd)].size
    ensures Find(d.ring, pos) == Some((Slot(d.ring, cmd), off))
    ensures forall c: u32, o: u32 ::
              Ioctl(d, from, IOCSEEKTO, Some((c, o)), false) == (pos, 0) <==> (c == cmd && o == off)
    ensures (exists c: u32, o: u32 :: Ioctl(d, from, IOCSEEKTO, Some((c, o)), false) == (pos, 0))
            <==> off < 0x1_0000_0000
  {
    var sizes := Sizes(d.ring);
    LocateIffPosition(sizes, pos, 0, 0);
    var ko := Locate(sizes, pos).value;
    cmd, off := ko.0, ko.1;
    LocateIffPosition(sizes, pos, cmd, off);
    forall c: u32, o: u32
      ensures Ioctl(d, from, IOCSEEKTO, Some((c, o)), false) == (pos, 0) <==> (c == cmd && o == off)
    {
      LocateIffPosition(sizes, pos, c, o);
    }
    if off < TWO_TO_32 {
      assert Ioctl(d, from, IOCSEEKTO, Some((cmd as u32, off as u32)), false) == (pos, 0);
    }
  }
}
