/** The ten-slot overwriting ring of buffer entries.

    `Ring` is the state as a value, `CircularBuffer` the in-place structure; the methods of the
    class are proved against the functions on `Ring`, and the lemmas relate those to the plain
    list of the stored entries, oldest first (`Window`). */
module RingBuffer {
  import opened Bytes
  import opened FlatView

  /** Addresses; 0 is the null pointer. */
  type Ptr = nat
  const NULL: Ptr := 0

  const MAX_WRITES: nat := 10

  datatype Entry = Entry(buffptr: Ptr, size: nat)
  const EMPTY := Entry(NULL, 0)

  datatype Ring = Ring(entry: seq<Entry>, inOffs: nat, outOffs: nat, full: bool)

  predicate WellFormed(r: Ring) {
    && |r.entry| == MAX_WRITES
    && r.inOffs < MAX_WRITES
    && r.outOffs < MAX_WRITES
    && (r.full ==> r.inOffs == r.outOffs)
  }

  /** How many slots are in use. */
  function Count(r: Ring): nat
    requires WellFormed(r)
  {
    if r.full then MAX_WRITES
    else if r.inOffs >= r.outOffs then r.inOffs - r.outOffs
    else MAX_WRITES - r.outOffs + r.inOffs
  }

  /** The slot of the k-th oldest entry, wrapping round once. */
  function Slot(r: Ring, k: nat): nat {
    if r.outOffs + k < MAX_WRITES then r.outOffs + k else r.outOffs + k - MAX_WRITES
  }

  /** The slot after slot i, as every loop over the ring steps. */
  function Next(i: nat): (j: nat)
    requires i < MAX_WRITES
    ensures j == if i + 1 < MAX_WRITES then i + 1 else 0
  {
    (i + 1) % MAX_WRITES
  }

  lemma SlotIsModulo(r: Ring, k: nat)
    requires WellFormed(r) && k <= MAX_WRITES
    ensures Slot(r, k) == (r.outOffs + k) % 10
  {
  }

  function Window(r: Ring): seq<Entry>
    requires WellFormed(r)
  {
    seq(Count(r), k requires 0 <= k < Count(r) => r.entry[Slot(r, k)])
  }

  function Sizes(r: Ring): seq<nat>
    requires WellFormed(r)
  {
    seq(Count(r), k requires 0 <= k < Count(r) => r.entry[Slot(r, k)].size)
  }

  /** Slots outside the window hold no entry. */
  ghost predicate Tidy(r: Ring)
    requires WellFormed(r)
  {
    forall k :: Count(r) <= k < MAX_WRITES ==> r.entry[Slot(r, k)] == EMPTY
  }

  // ----- operations -----

  function Init(): Ring {
    Ring(seq(MAX_WRITES, _ => EMPTY), 0, 0, false)
  }

  function Add(r: Ring, e: Entry): Ring
    requires WellFormed(r)
  {
    if e.buffptr == NULL then r
    else
      var outOffs := if r.full then Next(r.outOffs) else r.outOffs;
      var inOffs := Next(r.inOffs);
      Ring(r.entry[r.inOffs := e], inOffs, outOffs, inOffs == outOffs)
  }

  function Remove(r: Ring): Ring
    requires WellFormed(r)
  {
    if !r.full && r.inOffs == r.outOffs then r
    else
      Ring(r.entry[r.outOffs := EMPTY], r.inOffs, Next(r.outOffs), false)
  }

  /** The entry containing flat position `charOffset`, as (slot, offset in it). */
  function Find(r: Ring, charOffset: nat): Option<(nat, nat)>
    requires WellFormed(r)
  {
    match Locate(Sizes(r), charOffset)
    case None => None
    case Some((k, o)) => Some((Slot(r, k), o))
  }

  /** The walk from the oldest entry: what one step of a loop over the window sees. */
  lemma WalkStep(r: Ring, k: nat)
    requires WellFormed(r) && k < Count(r)
    ensures Slot(r, k) < MAX_WRITES
    ensures Sizes(r)[k] == r.entry[Slot(r, k)].size
    ensures Sum(Sizes(r)[..k + 1]) == Sum(Sizes(r)[..k]) + r.entry[Slot(r, k)].size
    ensures Slot(r, k + 1) == Next(Slot(r, k))
  {
    SumSnoc(Sizes(r), k);
  }

  /** Find at a position inside the k-th oldest entry, and past the end. */
  lemma FindAt(r: Ring, k: nat, charOffset: nat)
    requires WellFormed(r) && k <= Count(r) && Sum(Sizes(r)[..k]) <= charOffset
    ensures k == Count(r) ==> Find(r, charOffset) == None && Sum(Sizes(r)) <= charOffset
    ensures k < Count(r) && charOffset < Sum(Sizes(r)[..k]) + r.entry[Slot(r, k)].size
            ==> Find(r, charOffset) == Some((Slot(r, k), charOffset - Sum(Sizes(r)[..k])))
                && charOffset < Sum(Sizes(r))
  {
    var sizes := Sizes(r);
    LocateIffPosition(sizes, charOffset, k, charOffset - Sum(sizes[..k]));
    if k == Count(r) {
      assert sizes[..k] == sizes;
    }
  }

  // ----- the window behaves as a bounded first-in-first-out list -----

  /** Different positions of the window are different slots, and every slot has a position. */
  lemma SlotsDistinct(r: Ring, j: nat, k: nat)
    requires WellFormed(r) && j < MAX_WRITES && k < MAX_WRITES
    ensures Slot(r, j) == Slot(r, k) <==> j == k
    ensures Slot(r, j) < MAX_WRITES
  {
  }

  lemma InitIsEmpty()
    ensures WellFormed(Init()) && Tidy(Init()) && Window(Init()) == []
  {
  }

  /** Adding appends, and drops the oldest entry when ten are already stored. */
  lemma AddIsBoundedAppend(r: Ring, e: Entry)
    requires WellFormed(r)
    ensures WellFormed(Add(r, e))
    ensures e.buffptr == NULL ==> Add(r, e) == r
    ensures e.buffptr != NULL ==> Window(Add(r, e)) == LastN(Window(r) + [e], 10)
    ensures Tidy(r) ==> Tidy(Add(r, e))
  {
    if e.buffptr != NULL {
      var r' := Add(r, e);
      var w, w' := Window(r), LastN(Window(r) + [e], MAX_WRITES);
      assert Slot(r, Count(r)) == r.inOffs;
      assert |Window(r')| == |w'|;
      var shift := if r.full then 1 else 0;
      forall k | 0 <= k < |w'| ensures Window(r')[k] == w'[k] {
        assert Slot(r', k) == Slot(r, k + shift);
        assert w'[k] == (w + [e])[k + shift];
      }
      if Tidy(r) {
        forall k | Count(r') <= k < MAX_WRITES ensures r'.entry[Slot(r', k)] == EMPTY {
          assert Slot(r', k) == Slot(r, k);
        }
      }
    }
  }

  /** Removing drops the oldest entry, and does nothing on an empty ring. */
  lemma RemoveDropsOldest(r: Ring)
    requires WellFormed(r)
    ensures WellFormed(Remove(r))
    ensures Window(r) == [] ==> Remove(r) == r
    ensures Window(r) != [] ==> Window(Remove(r)) == Window(r)[1..]
    ensures Tidy(r) ==> Tidy(Remove(r))
  {
    if Count(r) != 0 {
      var r' := Remove(r);
      assert Count(r') == Count(r) - 1;
      forall k | 0 <= k < Count(r') ensures Window(r')[k] == Window(r)[1..][k] {
        assert Slot(r', k) == Slot(r, k + 1);
        SlotsDistinct(r, 0, k + 1);
      }
      assert Window(r') == Window(r)[1..];
      if Tidy(r) {
        forall k | Count(r') <= k < MAX_WRITES ensures r'.entry[Slot(r', k)] == EMPTY {
          if k < MAX_WRITES - 1 {
            assert Slot(r', k) == Slot(r, k + 1);
          } else {
            assert Slot(r', k) == r.outOffs;
          }
        }
      }
    }
  }

  datatype RingOp = InitOp | AddOp(e: Entry) | RemoveOp

  function Apply(r: Ring, op: RingOp): Ring
    requires WellFormed(r)
  {
    match op
    case InitOp => Init()
    case AddOp(e) => Add(r, e)
    case RemoveOp => Remove(r)
  }

  /** The same operations on a plain list. */
  function ApplyToList(w: seq<Entry>, op: RingOp): seq<Entry> {
    match op
    case InitOp => []
    case AddOp(e) => if e.buffptr == NULL then w else LastN(w + [e], MAX_WRITES)
    case RemoveOp => if w == [] then [] else w[1..]
  }

  ghost predicate Keeps(r: Ring) {
    WellFormed(r) && Tidy(r)
  }

  lemma ApplyKeeps(r: Ring, op: RingOp)
    requires Keeps(r)
    ensures Keeps(Apply(r, op)) && Window(Apply(r, op)) == ApplyToList(Window(r), op)
  {
    InitIsEmpty();
    if op.AddOp? {
      AddIsBoundedAppend(r, op.e);
    }
    RemoveDropsOldest(r);
  }

  ghost function RunRing(r: Ring, ops: seq<RingOp>): (r': Ring)
    requires Keeps(r)
    ensures Keeps(r')
    decreases |ops|
  {
    if ops == [] then r
    else
      ApplyKeeps(r, ops[0]);
      RunRing(Apply(r, ops[0]), ops[1..])
  }

  function RunList(w: seq<Entry>, ops: seq<RingOp>): seq<Entry>
    decreases |ops|
  {
    if ops == [] then w else RunList(ApplyToList(w, ops[0]), ops[1..])
  }

  /** Over any sequence of operations the ring is the bounded list: offsets stay below ten, `full`
      implies equal offsets, unused slots stay empty, and the window is the list's contents. */
  lemma {:induction false} RunIsBoundedFifo(r: Ring, ops: seq<RingOp>)
    requires Keeps(r)
    ensures var r' := RunRing(r, ops);
            && |r'.entry| == 10 && r'.inOffs < 10 && r'.outOffs < 10
            && (r'.full ==> r'.inOffs == r'.outOffs)
            && Tidy(r') && Window(r') == RunList(Window(r), ops)
    decreases |ops|
  {
    if ops != [] {
      ApplyKeeps(r, ops[0]);
      RunIsBoundedFifo(Apply(r, ops[0]), ops[1..]);
    }
  }

  function Adds(es: seq<Entry>): seq<RingOp> {
    seq(|es|, i requires 0 <= i < |es| => AddOp(es[i]))
  }

  lemma {:induction false} AddsToList(w: seq<Entry>, es: seq<Entry>)
    requires |w| <= MAX_WRITES && forall i :: 0 <= i < |es| ==> es[i].buffptr != NULL
    ensures RunList(w, Adds(es)) == LastN(w + es, MAX_WRITES)
    decreases |es|
  {
    if es == [] {
      assert w + es == w;
    } else {
      assert Adds(es)[1..] == Adds(es[1..]);
      var w' := LastN(w + [es[0]], MAX_WRITES);
      AddsToList(w', es[1..]);
      assert w + es == w + [es[0]] + es[1..];
      assert LastN(w' + es[1..], MAX_WRITES) == LastN(w + [es[0]] + es[1..], MAX_WRITES);
    }
  }

  /** After any number of additions an initially empty ring shows the last ten entries. */
  lemma AddsShowLastTen(es: seq<Entry>)
    requires forall i :: 0 <= i < |es| ==> es[i].buffptr != NULL
    ensures Keeps(Init())
    ensures Window(RunRing(Init(), Adds(es))) == if |es| <= 10 then es else es[|es| - 10..]
  {
    InitIsEmpty();
    RunIsBoundedFifo(Init(), Adds(es));
    AddsToList([], es);
    assert [] + es == es;
  }

  // ----- the in-place structure -----

  class CircularBuffer {
    const entry: array<Entry>
    var inOffs: nat
    var outOffs: nat
    var full: bool

    ghost predicate Valid()
      reads this, entry
    {
      WellFormed(View())
    }

    function View(): Ring
      reads this, entry
    {
      Ring(entry[..], inOffs, outOffs, full)
    }

    constructor ()
      ensures Valid() && fresh(entry)
      ensures View() == Init()
    {
      entry := new Entry[MAX_WRITES](_ => EMPTY);
      inOffs, outOffs, full := 0, 0, false;
      new;
      assert entry[..] == Init().entry;
    }

    /** Zeroes the whole structure, whatever it held. */
    method Reset()
      requires entry.Length == MAX_WRITES
      modifies this, entry
      ensures Valid() && View() == Init()
    {
      forall i | 0 <= i < entry.Length {
        entry[i] := EMPTY;
      }
      inOffs, outOffs, full := 0, 0, false;
      assert entry[..] == Init().entry;
    }

    method AddEntry(e: Entry)
      requires Valid()
      modifies this, entry
      ensures Valid() && View() == Add(old(View()), e)
      ensures e.buffptr != NULL ==> Window(View()) == LastN(old(Window(View())) + [e], 10)
    {
      AddIsBoundedAppend(View(), e);
      if e.buffptr == NULL {
        return;
      }
      entry[inOffs] := e;
      if full {
        outOffs := Next(outOffs);
      }
      inOffs := Next(inOffs);
      full := inOffs == outOffs;
    }

    method RemoveEntry()
      requires Valid()
      modifies this, entry
      ensures Valid() && View() == Remove(old(View()))
      ensures Window(View()) == if old(Window(View())) == [] then [] else old(Window(View()))[1..]
    {
      RemoveDropsOldest(View());
      if !full && inOffs == outOffs {
        return;
      }
      entry[outOffs] := entry[outOffs].(buffptr := NULL);
      entry[outOffs] := entry[outOffs].(size := 0);
      outOffs := Next(outOffs);
      full := false;
      assert entry[..] == old(entry[..])[old(outOffs) := EMPTY];
    }

    /** Walks the window from the oldest entry until the one covering `charOffset`. */
    method FindEntryOffsetForFpos(charOffset: nat) returns (found: Option<(nat, nat)>)
      requires Valid()
      ensures found == Find(View(), charOffset)
      ensures found == None <==> Sum(Sizes(View())) <= charOffset
      ensures found.Some? ==> found.value.0 < entry.Length && found.value.1 < entry[found.value.0].size
    {
      var currentPos, currentIdx, entriesChecked := 0, outOffs, 0;
      var totalEntries;
      if full {
        totalEntries := MAX_WRITES;
      } else if inOffs >= outOffs {
        totalEntries := inOffs - outOffs;
      } else {
        totalEntries := MAX_WRITES - outOffs + inOffs;
      }
      ghost var r := View();
      ghost var sizes := Sizes(r);
      while entriesChecked < totalEntries
        invariant 0 <= entriesChecked <= totalEntries == |sizes|
        invariant currentIdx == Slot(r, entriesChecked)
        invariant currentPos == Sum(sizes[..entriesChecked]) <= charOffset
      {
        assert entry[currentIdx].size == sizes[entriesChecked];
        var entrySize := entry[currentIdx].size;
        FindAt(r, entriesChecked, charOffset);
        if charOffset < currentPos + entrySize {
          return Some((currentIdx, charOffset - currentPos));
        }
        SumSnoc(sizes, entriesChecked);
        currentPos := currentPos + entrySize;
        currentIdx := Next(currentIdx);
        entriesChecked := entriesChecked + 1;
      }
      FindAt(r, entriesChecked, charOffset);
      return None;
    }
  }
}
