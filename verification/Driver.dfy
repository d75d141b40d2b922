/** The character device as a value: the ring, the heap, and the accumulation buffer.

    Each entry point is a function from the device state and the outcomes the kernel picked
    (interrupted lock, failing copy, allocator) to the new state and the return value. */
module Driver {
  import opened Bytes
  import opened RingBuffer
  import opened Heap

  const ENOMEM: int := 12
  const EFAULT: int := 14
  const EINVAL: int := 22
  const ENOTTY: int := 25
  const ERESTARTSYS: int := 512

  datatype Dev = Dev(ring: Ring, heap: Blocks, writeBuf: Ptr, writeBufSize: nat)

  const FRESH_DEVICE := Dev(Init(), map[], NULL, 0)

  // ----- what the device owns -----

  /** Block p holds `size` bytes and a terminating NUL. */
  ghost predicate Holds(h: Blocks, p: Ptr, size: nat) {
    p in h && |h[p]| == size + 1 && h[p][size] == NUL
  }

  ghost predicate EntryOk(h: Blocks, e: Entry) {
    if e.buffptr == NULL then e.size == 0 else Holds(h, e.buffptr, e.size)
  }

  ghost predicate InSlot(r: Ring, p: Ptr) {
    exists i :: 0 <= i < |r.entry| && r.entry[i].buffptr == p
  }

  ghost predicate Owns(d: Dev, p: Ptr) {
    p != NULL && (p == d.writeBuf || InSlot(d.ring, p))
  }

  /** The device is consistent, and the live blocks are exactly the distinct ones it owns plus
      those in `extra`. */
  ghost predicate InvBut(d: Dev, extra: set<Ptr>) {
    && WellFormed(d.ring)
    && Tidy(d.ring)
    && (forall i :: 0 <= i < MAX_WRITES ==> EntryOk(d.heap, d.ring.entry[i]))
    && (if d.writeBuf == NULL then d.writeBufSize == 0
        else d.writeBufSize > 0 && Holds(d.heap, d.writeBuf, d.writeBufSize))
    && (forall i, j :: 0 <= i < j < MAX_WRITES && d.ring.entry[i].buffptr != NULL
          ==> d.ring.entry[i].buffptr != d.ring.entry[j].buffptr)
    && (d.writeBuf != NULL ==> !InSlot(d.ring, d.writeBuf))
    && (forall p :: p in d.heap <==> Owns(d, p) || p in extra)
    && (forall p :: p in extra ==> p != NULL && !Owns(d, p))
  }

  /** What holds between calls: nothing else is live, and no complete command is pending. */
  ghost predicate Inv(d: Dev) {
    InvBut(d, {}) && NEWLINE !in Pending(d)
  }

  /** Every live block ends in a NUL byte. */
  lemma BlocksAreTerminated(d: Dev, p: Ptr)
    requires Inv(d) && p in d.heap
    ensures |d.heap[p]| > 0 && d.heap[p][|d.heap[p]| - 1] == 0
  {
    assert Owns(d, p);
    if p != d.writeBuf {
      var i :| 0 <= i < MAX_WRITES && d.ring.entry[i].buffptr == p;
      assert EntryOk(d.heap, d.ring.entry[i]);
    }
  }

  // ----- what the device means -----

  function EntryBytes(h: Blocks, e: Entry): bytes {
    if e.buffptr in h && e.size <= |h[e.buffptr]| then h[e.buffptr][..e.size] else []
  }

  function Pending(d: Dev): bytes {
    EntryBytes(d.heap, Entry(d.writeBuf, d.writeBufSize))
  }

  /** The stored commands, oldest first. */
  function Commands(d: Dev): seq<bytes>
    requires WellFormed(d.ring)
  {
    seq(Count(d.ring), k requires 0 <= k < Count(d.ring) => EntryBytes(d.heap, d.ring.entry[Slot(d.ring, k)]))
  }

  function Content(d: Dev): bytes
    requires WellFormed(d.ring)
  {
    Concat(Commands(d))
  }

  // ----- write -----

  /** What the kernel picked during one write call. */
  datatype WriteEnv = WriteEnv(interrupted: bool, tmp: Alloc, copyFails: bool, grow: Alloc)

  ghost predicate GrowMay(d: Dev, h: Blocks, count: nat, a: Alloc) {
    if d.writeBuf == NULL then KmallocMay(h, count + 1, a)
    else KreallocMay(h, d.writeBuf, d.writeBufSize + count + 1, a)
  }

  ghost predicate WriteMay(d: Dev, count: nat, env: WriteEnv) {
    && KmallocMay(d.heap, count, env.tmp)
    && (env.tmp.Got? ==> GrowMay(d, d.heap[env.tmp.p := env.tmp.junk], count, env.grow))
  }

  /** Appends `count` bytes found at `newData` to the accumulation buffer. */
  ghost function HandleWriteBuffer(d: Dev, newData: Ptr, count: nat, a: Alloc): (Dev, int)
    requires newData != NULL ==> newData in d.heap && count <= |d.heap[newData]|
    requires newData != NULL ==> InvBut(d, {newData})
    requires GrowMay(d, d.heap, count, a)
  {
    if newData == NULL then (d, -EINVAL)
    else if a.Failed? then (d, -ENOMEM)
    else
      var data := d.heap[newData][..count];
      var h := if d.writeBuf != NULL then Krealloc(d.heap, d.writeBuf, d.writeBufSize + count + 1, a)
               else Kmalloc(d.heap, count + 1, a);
      var h := Store(h, a.p, d.writeBufSize, data);
      var h := Store(h, a.p, d.writeBufSize + count, [NUL]);
      (d.(heap := h, writeBuf := a.p, writeBufSize := d.writeBufSize + count), 0)
  }

  /** Moves the accumulation buffer into the ring, freeing the entry it displaces. */
  function HandleCompleteCommand(d: Dev): Dev
    requires WellFormed(d.ring)
    requires d.ring.full ==>
               var p := d.ring.entry[d.ring.outOffs].buffptr; p == NULL || p in d.heap
  {
    if d.writeBuf == NULL then d
    else
      var e := Entry(d.writeBuf, d.writeBufSize);
      var oldest := d.ring.entry[d.ring.outOffs];
      if d.ring.full && oldest.buffptr != NULL then
        var cleared := d.ring.(entry := d.ring.entry[d.ring.outOffs := EMPTY]);
        Dev(Add(cleared, e), Kfree(d.heap, oldest.buffptr), NULL, 0)
      else
        Dev(Add(d.ring, e), d.heap, NULL, 0)
  }

  /** What a write does once the temporary buffer is filled and until it is freed. */
  ghost function WriteFilled(d: Dev, tmp: Ptr, count: nat, grow: Alloc): (r: (Dev, int))
    requires tmp in d.heap && 0 < count <= |d.heap[tmp]| && InvBut(d, {tmp})
    requires GrowMay(d, d.heap, count, grow)
    ensures tmp in r.0.heap
  {
    GrowKeeps(d, tmp, count, grow);
    var (d2, result) := HandleWriteBuffer(d, tmp, count, grow);
    if result < 0 then (d2, result)
    else
      CompleteKeeps(d2, {tmp});
      var d3 := if NEWLINE in Pending(d2) then HandleCompleteCommand(d2) else d2;
      assert tmp in d3.heap <==> Owns(d3, tmp) || tmp in {tmp};
      (d3, count)
  }

  /** One write call; a missing buffer is None. */
  ghost function Write(d: Dev, buf: Option<bytes>, env: WriteEnv): (Dev, int)
    requires Inv(d)
    requires buf.Some? ==> WriteMay(d, |buf.value|, env)
  {
    if buf == None || buf.value == [] then (d, -EINVAL)
    else if env.interrupted then (d, -ERESTARTSYS)
    else if env.tmp.Failed? then (d, -ENOMEM)
    else
      var count := |buf.value|;
      var tmp := env.tmp.p;
      var h := Kmalloc(d.heap, count, env.tmp);
      if env.copyFails then (d.(heap := Kfree(h, tmp)), -EFAULT)
      else
        TmpStored(d, buf.value, env);
        var (d', ret) := WriteFilled(d.(heap := Store(h, tmp, 0, buf.value)), tmp, count, env.grow);
        (d'.(heap := Kfree(d'.heap, tmp)), ret)
  }

  // ----- the parts of a write keep the device consistent -----

  /** Filling the temporary buffer changes nothing the device owns. */
  lemma TmpStored(d: Dev, chunk: bytes, env: WriteEnv)
    requires Inv(d) && chunk != [] && WriteMay(d, |chunk|, env) && env.tmp.Got?
    ensures var d1 := d.(heap := Store(Kmalloc(d.heap, |chunk|, env.tmp), env.tmp.p, 0, chunk));
            && InvBut(d1, {env.tmp.p})
            && d1.heap == d.heap[env.tmp.p := chunk]
            && Pending(d1) == Pending(d)
            && Commands(d1) == Commands(d)
            && GrowMay(d1, d1.heap, |chunk|, env.grow)
  {
    var h := Store(Kmalloc(d.heap, |chunk|, env.tmp), env.tmp.p, 0, chunk);
    assert h[env.tmp.p] == chunk;
    assert !Owns(d, env.tmp.p);
  }

  lemma TmpMay(d: Dev, chunk: bytes, env: WriteEnv)
    requires Inv(d) && chunk != [] && WriteMay(d, |chunk|, env)
    ensures env.tmp.Got? ==>
              var d1 := d.(heap := Store(Kmalloc(d.heap, |chunk|, env.tmp), env.tmp.p, 0, chunk));
              InvBut(d1, {env.tmp.p}) && |d1.heap[env.tmp.p]| == |chunk| && GrowMay(d1, d1.heap, |chunk|, env.grow)
  {
    if env.tmp.Got? {
      TmpStored(d, chunk, env);
    }
  }

  /** Of the device's heap, only the accumulation buffer's block has changed: it is now at `p`, where
      no other block was, and holds `content`. */
  ghost predicate BufferMoved(d: Dev, h: Blocks, p: Ptr, content: bytes) {
    && p != NULL
    && h.Keys == d.heap.Keys - {d.writeBuf} + {p}
    && h[p] == content
    && forall q :: q in d.heap && q != d.writeBuf ==> q != p && h[q] == d.heap[q]
  }

  /** krealloc and the copies after it. */
  lemma ReallocMoves(d: Dev, newData: Ptr, count: nat, a: Alloc)
    requires newData != NULL && newData in d.heap && 0 < count <= |d.heap[newData]| && InvBut(d, {newData})
    requires d.writeBuf != NULL && a.Got? && KreallocMay(d.heap, d.writeBuf, d.writeBufSize + count + 1, a)
    ensures BufferMoved(d, HandleWriteBuffer(d, newData, count, a).0.heap, a.p,
                        Pending(d) + d.heap[newData][..count] + [NUL])
  {
    assert Owns(d, d.writeBuf);
    var grown := Krealloc(d.heap, d.writeBuf, d.writeBufSize + count + 1, a);
    KreallocKeeps(d.heap, d.writeBuf, d.writeBufSize + count + 1, a);
    assert grown[a.p][..d.writeBufSize] == Pending(d);
  }

  /** kmalloc and the copies after it. */
  lemma MallocMoves(d: Dev, newData: Ptr, count: nat, a: Alloc)
    requires newData != NULL && newData in d.heap && 0 < count <= |d.heap[newData]| && InvBut(d, {newData})
    requires d.writeBuf == NULL && a.Got? && KmallocMay(d.heap, count + 1, a)
    ensures BufferMoved(d, HandleWriteBuffer(d, newData, count, a).0.heap, a.p,
                        Pending(d) + d.heap[newData][..count] + [NUL])
  {
    assert NULL !in d.heap;
  }

  /** Every used slot keeps its block when the accumulation buffer moves. */
  lemma SlotsKeepBlocks(d: Dev, h: Blocks, p: Ptr, content: bytes, extra: set<Ptr>, i: nat)
    requires InvBut(d, extra) && BufferMoved(d, h, p, content) && i < MAX_WRITES
    ensures var e := d.ring.entry[i];
            && EntryOk(h, e) && EntryBytes(h, e) == EntryBytes(d.heap, e)
            && (e.buffptr != NULL ==> e.buffptr != p)
  {
    var q := d.ring.entry[i].buffptr;
    assert EntryOk(d.heap, d.ring.entry[i]);
    if q != NULL {
      assert InSlot(d.ring, q);
    } else {
      assert NULL !in d.heap && NULL !in h;
    }
  }

  lemma BufferMovedKeeps(d: Dev, h: Blocks, p: Ptr, content: bytes, extra: set<Ptr>)
    requires InvBut(d, extra) && BufferMoved(d, h, p, content)
    requires |content| > 1 && content[|content| - 1] == NUL
    ensures var d' := Dev(d.ring, h, p, |content| - 1);
            InvBut(d', extra) && Pending(d') == content[..|content| - 1] && Commands(d') == Commands(d)
  {
    var d' := Dev(d.ring, h, p, |content| - 1);
    forall i | 0 <= i < MAX_WRITES
      ensures var e := d.ring.entry[i];
              && EntryOk(h, e) && EntryBytes(h, e) == EntryBytes(d.heap, e)
              && (e.buffptr != NULL ==> e.buffptr != p)
    {
      SlotsKeepBlocks(d, h, p, content, extra, i);
    }
    assert !InSlot(d.ring, p);
    forall q ensures q in h <==> Owns(d', q) || q in extra {
      assert q in d.heap <==> Owns(d, q) || q in extra;
    }
    assert Commands(d') == Commands(d);
  }

  /** The accumulation buffer grows by exactly the new bytes, wherever the allocator put it. */
  lemma GrowKeeps(d: Dev, newData: Ptr, count: nat, a: Alloc)
    requires newData != NULL && newData in d.heap && 0 < count <= |d.heap[newData]|
    requires InvBut(d, {newData}) && GrowMay(d, d.heap, count, a)
    ensures var (d', result) := HandleWriteBuffer(d, newData, count, a);
            if a.Failed? then result == -ENOMEM && d' == d
            else
              && result == 0
              && InvBut(d', {newData})
              && d'.ring == d.ring
              && d'.heap[newData] == d.heap[newData]
              && Pending(d') == Pending(d) + d.heap[newData][..count]
              && Commands(d') == Commands(d)
  {
    if a.Got? {
      var content := Pending(d) + d.heap[newData][..count] + [NUL];
      if d.writeBuf != NULL {
        ReallocMoves(d, newData, count, a);
      } else {
        MallocMoves(d, newData, count, a);
      }
      assert |Pending(d)| == d.writeBufSize;
      assert content[..|content| - 1] == Pending(d) + d.heap[newData][..count];
      BufferMovedKeeps(d, HandleWriteBuffer(d, newData, count, a).0.heap, a.p, content, {newData});
    }
  }

  /** The device after the block of slot `o` was freed and the slot cleared. */
  function FreeSlot(d: Dev, o: nat): Dev
    requires WellFormed(d.ring) && o < MAX_WRITES && d.ring.entry[o].buffptr in d.heap
  {
    d.(heap := Kfree(d.heap, d.ring.entry[o].buffptr), ring := d.ring.(entry := d.ring.entry[o := EMPTY]))
  }

  /** Every non-null pointer sits in one slot only. */
  ghost predicate DistinctSlots(r: Ring) {
    |r.entry| == MAX_WRITES
    && forall i, j :: 0 <= i < j < MAX_WRITES && r.entry[i].buffptr != NULL
         ==> r.entry[i].buffptr != r.entry[j].buffptr
  }

  lemma ClearSlot(r: Ring, o: nat, q: Ptr)
    requires DistinctSlots(r) && o < MAX_WRITES && r.entry[o].buffptr != NULL && q != NULL
    ensures InSlot(r.(entry := r.entry[o := EMPTY]), q) <==> InSlot(r, q) && q != r.entry[o].buffptr
  {
    var entry' := r.entry[o := EMPTY];
    if InSlot(r, q) && q != r.entry[o].buffptr {
      var i :| 0 <= i < MAX_WRITES && r.entry[i].buffptr == q;
      assert entry'[i].buffptr == q;
    }
    if InSlot(r.(entry := entry'), q) {
      var i :| 0 <= i < MAX_WRITES && entry'[i].buffptr == q;
      assert r.entry[i].buffptr == q;
    }
  }

  lemma FreeSlotKeeps(d: Dev, o: nat, extra: set<Ptr>)
    requires InvBut(d, extra) && o < MAX_WRITES && d.ring.entry[o].buffptr != NULL
    ensures d.ring.entry[o].buffptr in d.heap
    ensures InvBut(FreeSlot(d, o), extra)
  {
    var r, p := d.ring, d.ring.entry[o].buffptr;
    assert InSlot(r, p) && Owns(d, p);
    var d' := FreeSlot(d, o);
    assert DistinctSlots(r);
    forall k | Count(r) <= k < MAX_WRITES ensures d'.ring.entry[Slot(d'.ring, k)] == EMPTY {
      assert r.entry[Slot(r, k)] == EMPTY;
    }
    forall q | q != NULL ensures InSlot(d'.ring, q) <==> InSlot(r, q) && q != p {
      ClearSlot(r, o, q);
    }
    forall i | 0 <= i < MAX_WRITES ensures EntryOk(d'.heap, d'.ring.entry[i]) {
      assert EntryOk(d.heap, r.entry[i]);
    }
    forall q ensures q in d'.heap <==> Owns(d', q) || q in extra {
      assert q in d.heap <==> Owns(d, q) || q in extra;
    }
  }

  /** Freeing the oldest entry disturbs none of the later commands and nothing pending. */
  lemma FreeOldestSpares(d: Dev)
    requires WellFormed(d.ring) && d.ring.full && DistinctSlots(d.ring)
    requires d.ring.entry[d.ring.outOffs].buffptr in d.heap && d.ring.entry[d.ring.outOffs].buffptr != NULL
    requires d.writeBuf != NULL ==> !InSlot(d.ring, d.writeBuf)
    requires NULL !in d.heap
    ensures Pending(FreeSlot(d, d.ring.outOffs)) == Pending(d)
    ensures Commands(FreeSlot(d, d.ring.outOffs))[1..] == Commands(d)[1..]
  {
    var r, o, d' := d.ring, d.ring.outOffs, FreeSlot(d, d.ring.outOffs);
    var p := r.entry[o].buffptr;
    assert InSlot(r, p);
    var c, c' := Commands(d), Commands(d');
    assert |c| == |c'| == MAX_WRITES;
    forall k | 1 <= k < MAX_WRITES ensures c'[k] == c[k] {
      SlotsDistinct(r, 0, k);
      var e := r.entry[Slot(r, k)];
      assert d'.ring.entry[Slot(d'.ring, k)] == e;
      assert e.buffptr != p;
      assert EntryBytes(d'.heap, e) == EntryBytes(d.heap, e);
    }
  }

  /** Handing the accumulation buffer to the ring, once the slot it goes to is free. */
  lemma MoveInKeeps(d: Dev, extra: set<Ptr>)
    requires InvBut(d, extra) && d.writeBuf != NULL
    requires d.ring.full ==> d.ring.entry[d.ring.outOffs] == EMPTY
    ensures var d' := Dev(Add(d.ring, Entry(d.writeBuf, d.writeBufSize)), d.heap, NULL, 0);
            && InvBut(d', extra)
            && Pending(d') == []
            && Commands(d') == LastN(Commands(d) + [Pending(d)], MAX_WRITES)
  {
    var e := Entry(d.writeBuf, d.writeBufSize);
    var r, r' := d.ring, Add(d.ring, e);
    var d' := Dev(r', d.heap, NULL, 0);
    AddIsBoundedAppend(r, e);
    assert Slot(r, Count(r)) == r.inOffs;
    assert r.entry[r.inOffs] == EMPTY;
    forall q ensures InSlot(r', q) <==> q == d.writeBuf || (InSlot(r, q) && (q == NULL ==> InSlot(r', NULL))) {
      assert r'.entry[r.inOffs].buffptr == d.writeBuf;
      if InSlot(r, q) && q != NULL {
        var i :| 0 <= i < MAX_WRITES && r.entry[i].buffptr == q;
        assert r'.entry[i].buffptr == q;
      }
    }
    forall i | 0 <= i < MAX_WRITES && r.entry[i].buffptr != NULL ensures r.entry[i].buffptr != d.writeBuf {
      assert InSlot(r, r.entry[i].buffptr);
    }
    WindowMovesIn(d);
  }

  lemma WindowMovesIn(d: Dev)
    requires WellFormed(d.ring) && d.writeBuf != NULL
    ensures var d' := Dev(Add(d.ring, Entry(d.writeBuf, d.writeBufSize)), d.heap, NULL, 0);
            WellFormed(d'.ring) && Commands(d') == LastN(Commands(d) + [Pending(d)], MAX_WRITES)
  {
    var e := Entry(d.writeBuf, d.writeBufSize);
    var r, r' := d.ring, Add(d.ring, e);
    AddIsBoundedAppend(r, e);
    var d' := Dev(r', d.heap, NULL, 0);
    var w, c := LastN(Window(r) + [e], MAX_WRITES), LastN(Commands(d) + [Pending(d)], MAX_WRITES);
    assert |w| == |c| == |Commands(d')|;
    forall k | 0 <= k < |c| ensures Commands(d')[k] == c[k] {
      assert Window(r')[k] == w[k];
    }
  }

  lemma CompleteKeeps(d: Dev, extra: set<Ptr>)
    requires InvBut(d, extra)
    ensures d.ring.full && d.ring.entry[d.ring.outOffs].buffptr != NULL
            ==> d.ring.entry[d.ring.outOffs].buffptr in d.heap
    ensures var d' := HandleCompleteCommand(d);
            && InvBut(d', extra)
            && Pending(d') == []
            && (d.writeBuf == NULL ==> d' == d)
            && (d.writeBuf != NULL ==> Commands(d') == LastN(Commands(d) + [Pending(d)], 10))
  {
    if d.writeBuf != NULL {
      var before := Commands(d) + [Pending(d)];
      if d.ring.full && d.ring.entry[d.ring.outOffs].buffptr != NULL {
        FreeSlotKeeps(d, d.ring.outOffs, extra);
        FreeOldestSpares(d);
        MoveInKeeps(FreeSlot(d, d.ring.outOffs), extra);
        var after := Commands(FreeSlot(d, d.ring.outOffs)) + [Pending(d)];
        assert LastN(before, MAX_WRITES) == before[1..] == Commands(d)[1..] + [Pending(d)];
        assert LastN(after, MAX_WRITES) == after[1..] == Commands(d)[1..] + [Pending(d)];
      } else {
        MoveInKeeps(d, extra);
      }
    }
  }

  /** What a commit into a full ring gives up is exactly what it overwrites: the block freed is the
      one of the slot the new entry goes to, every other block and slot is untouched, and the
      accumulation buffer's block changes hands without being copied. */
  lemma CommitFreesWhatItOverwrites(d: Dev, extra: set<Ptr>)
    requires InvBut(d, extra) && d.writeBuf != NULL && d.ring.full
    ensures var d' := HandleCompleteCommand(d);
            var slot, evicted := d.ring.inOffs, d.ring.entry[d.ring.inOffs].buffptr;
            && d'.ring.entry == d.ring.entry[slot := Entry(d.writeBuf, d.writeBufSize)]
            && d'.heap == d.heap - {evicted}
            && evicted != d.writeBuf
            && (forall i :: 0 <= i < MAX_WRITES && i != slot && d.ring.entry[i].buffptr != NULL
                  ==> d.ring.entry[i].buffptr != evicted)
  {
    var slot := d.ring.inOffs;
    var evicted := d.ring.entry[slot].buffptr;
    assert InSlot(d.ring, evicted);
    if evicted == NULL {
      assert NULL !in d.heap;
      assert d.heap - {NULL} == d.heap;
    } else {
      FreeSlotKeeps(d, slot, extra);
    }
    var e := Entry(d.writeBuf, d.writeBufSize);
    assert d.ring.entry[slot := EMPTY][slot := e] == d.ring.entry[slot := e];
  }

  // ----- cleanup -----

  /** Frees the accumulation buffer. */
  function FreeWriteBuf(d: Dev): Dev
    requires d.writeBuf == NULL || d.writeBuf in d.heap
  {
    if d.writeBuf == NULL then d
    else d.(heap := Kfree(d.heap, d.writeBuf), writeBuf := NULL, writeBufSize := 0)
  }

  /** Frees and clears every slot from i on. */
  ghost function FreeSlots(d: Dev, i: nat): (d': Dev)
    requires i <= MAX_WRITES && InvBut(d, {})
    ensures InvBut(d', {})
    decreases MAX_WRITES - i
  {
    if i == MAX_WRITES then d
    else if d.ring.entry[i].buffptr != NULL then
      FreeSlotKeeps(d, i, {});
      FreeSlots(FreeSlot(d, i), i + 1)
    else FreeSlots(d, i + 1)
  }

  /** One turn of the cleanup loop. */
  function FreeIfUsed(d: Dev, i: nat): Dev
    requires WellFormed(d.ring) && i < MAX_WRITES
    requires d.ring.entry[i].buffptr == NULL || d.ring.entry[i].buffptr in d.heap
  {
    if d.ring.entry[i].buffptr == NULL then d else FreeSlot(d, i)
  }

  lemma FreeIfUsedKeeps(d: Dev, i: nat)
    requires i < MAX_WRITES && InvBut(d, {})
    ensures d.ring.entry[i].buffptr == NULL || d.ring.entry[i].buffptr in d.heap
    ensures InvBut(FreeIfUsed(d, i), {})
    ensures FreeSlots(d, i) == FreeSlots(FreeIfUsed(d, i), i + 1)
  {
    if d.ring.entry[i].buffptr != NULL {
      FreeSlotKeeps(d, i, {});
    }
  }

  lemma FreeWriteBufKeeps(d: Dev)
    requires InvBut(d, {})
    ensures d.writeBuf == NULL || d.writeBuf in d.heap
    ensures InvBut(FreeWriteBuf(d), {})
  {
    if d.writeBuf != NULL {
      assert Owns(d, d.writeBuf);
      var d' := FreeWriteBuf(d);
      forall i | 0 <= i < MAX_WRITES ensures EntryOk(d'.heap, d'.ring.entry[i]) {
        assert EntryOk(d.heap, d.ring.entry[i]) && InSlot(d.ring, d.ring.entry[i].buffptr);
      }
      forall q ensures q in d'.heap <==> Owns(d', q) {
        assert q in d.heap <==> Owns(d, q);
      }
    }
  }

  ghost function Cleanup(d: Dev): Dev
    requires Inv(d)
  {
    FreeWriteBufKeeps(d);
    FreeSlots(FreeWriteBuf(d), 0)
  }

  lemma FreeIfUsedClears(d: Dev, i: nat)
    requires i < MAX_WRITES && InvBut(d, {})
    ensures d.ring.entry[i].buffptr == NULL || d.ring.entry[i].buffptr in d.heap
    ensures var d' := FreeIfUsed(d, i);
            && d'.ring == d.ring.(entry := d.ring.entry[i := EMPTY])
            && d'.writeBuf == d.writeBuf && d'.writeBufSize == d.writeBufSize
  {
    FreeIfUsedKeeps(d, i);
    assert EntryOk(d.heap, d.ring.entry[i]);
    if d.ring.entry[i].buffptr == NULL {
      assert d.ring.entry[i] == EMPTY;
      assert d.ring.entry[i := EMPTY] == d.ring.entry;
    }
  }

  /** Only the first i slots are known to be empty. */
  ghost predicate EmptyUpTo(r: Ring, i: nat) {
    i <= |r.entry| == MAX_WRITES && forall j :: 0 <= j < i ==> r.entry[j] == EMPTY
  }

  lemma OneMoreEmpty(r: Ring, r': Ring, i: nat)
    requires |r.entry| == MAX_WRITES && i < MAX_WRITES && EmptyUpTo(r, i)
    requires r'.entry == r.entry[i := EMPTY]
    ensures EmptyUpTo(r', i + 1)
  {
  }

  lemma {:induction false} FreeSlotsEmpties(d: Dev, i: nat)
    requires InvBut(d, {}) && EmptyUpTo(d.ring, i)
    ensures var d' := FreeSlots(d, i);
            && EmptyUpTo(d'.ring, MAX_WRITES)
            && d'.ring.inOffs == d.ring.inOffs && d'.ring.outOffs == d.ring.outOffs && d'.ring.full == d.ring.full
            && d'.writeBuf == d.writeBuf && d'.writeBufSize == d.writeBufSize
    decreases MAX_WRITES - i
  {
    if i < MAX_WRITES {
      FreeIfUsedKeeps(d, i);
      FreeIfUsedClears(d, i);
      var d1 := FreeIfUsed(d, i);
      OneMoreEmpty(d.ring, d1.ring, i);
      FreeSlotsEmpties(d1, i + 1);
    }
  }

  /** A device that points to nothing has no live block and nothing to read. */
  lemma NothingLeft(d: Dev)
    requires InvBut(d, {}) && EmptyUpTo(d.ring, MAX_WRITES) && d.writeBuf == NULL
    ensures d.heap == map[] && Inv(d)
    ensures Pending(d) == [] && Content(d) == []
  {
    forall p ensures p !in d.heap {
      assert p in d.heap <==> Owns(d, p);
    }
    assert d.heap.Keys == {};
    ConcatOfEmpties(Commands(d));
  }

  /** Cleanup leaves no live block and nothing to read, while the ring's offsets and full flag
      stay as they were; the device is still consistent. */
  lemma CleanupFreesEverything(d: Dev)
    requires Inv(d)
    ensures var d' := Cleanup(d);
            && Inv(d')
            && d'.heap == map[]
            && d'.ring == d.ring.(entry := Init().entry)
            && Pending(d') == [] && Content(d') == []
  {
    FreeWriteBufKeeps(d);
    FreeSlotsEmpties(FreeWriteBuf(d), 0);
    NothingLeft(Cleanup(d));
    assert Cleanup(d).ring.entry == Init().entry;
  }
}
