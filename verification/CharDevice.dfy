/** The character device in place: every entry point as the driver runs it, statement by statement,
    over one ring, one heap and one lock.

    Each method is proved to do what the corresponding function on `Dev` says; the functions'
    meaning is in Refinement and Access.  Every call ends with the lock released. */
module CharDevice {
  import opened Bytes
  import opened FlatView
  import opened RingBuffer
  import opened Heap
  import opened Driver
  import opened Access

  /** An open file on the device; opening starts at position 0. */
  class OpenFile {
    var fPos: nat

    constructor ()
      ensures fPos == 0
    {
      fPos := 0;
    }
  }

  class Device {
    const ring: CircularBuffer
    const heap: KernelHeap
    var writeBuf: Ptr
    var writeBufSize: nat
    var locked: bool

    ghost function State(): Dev
      reads this`writeBuf, this`writeBufSize, ring, ring.entry, heap
    {
      Dev(ring.View(), heap.blocks, writeBuf, writeBufSize)
    }

    /** Between calls. */
    ghost predicate Idle()
      reads this, ring, ring.entry, heap
    {
      Inv(State()) && !locked
    }

    constructor ()
      ensures Idle() && State() == FRESH_DEVICE
      ensures fresh(ring) && fresh(ring.entry) && fresh(heap)
    {
      ring := new CircularBuffer();
      heap := new KernelHeap();
      writeBuf, writeBufSize, locked := NULL, 0, false;
      new;
      InitIsEmpty();
    }

    method Lock(interrupted: bool) returns (failed: bool)
      requires !locked
      modifies this`locked
      ensures failed == interrupted && locked == !interrupted
    {
      locked := !interrupted;
      return interrupted;
    }

    method Unlock()
      requires locked
      modifies this`locked
      ensures !locked
    {
      locked := false;
    }

    // ----- write -----

    // The driver calls the next three methods, and those that walk the ring, with its lock held.

    method HandleWriteBufferInPlace(newData: Ptr, count: nat, a: Alloc) returns (result: int)
      requires locked
      requires newData != NULL ==> newData in heap.blocks && count <= |heap.blocks[newData]|
      requires newData != NULL ==> InvBut(State(), {newData})
      requires GrowMay(State(), heap.blocks, count, a)
      modifies this`writeBuf, this`writeBufSize, heap
      ensures (State(), result) == HandleWriteBuffer(old(State()), newData, count, a)
    {
      if newData == NULL {
        return -EINVAL;
      }
      ghost var was := State();
      if writeBuf != NULL {
        assert Holds(heap.blocks, writeBuf, writeBufSize) && Owns(was, writeBuf);
        var newSize := writeBufSize + count;
        var newBuf := heap.Realloc(writeBuf, newSize + 1, a);
        if newBuf == NULL {
          return -ENOMEM;
        }
        heap.Memcpy(newBuf, writeBufSize, heap.blocks[newData][..count]);
        writeBuf := newBuf;
        writeBufSize := newSize;
      } else {
        var newBuf := heap.Malloc(count + 1, a);
        writeBuf := newBuf;
        if writeBuf == NULL {
          return -ENOMEM;
        }
        heap.Memcpy(writeBuf, 0, heap.blocks[newData][..count]);
        writeBufSize := count;
      }
      heap.Memcpy(writeBuf, writeBufSize, [NUL]);
      return 0;
    }

    method HandleCompleteCommandInPlace()
      requires locked
      requires ring.Valid()
      requires ring.full ==>
                 var p := ring.entry[ring.outOffs].buffptr; p == NULL || p in heap.blocks
      modifies this`writeBuf, this`writeBufSize, heap, ring, ring.entry
      ensures State() == HandleCompleteCommand(old(State()))
    {
      if writeBuf == NULL {
        return;
      }
      var e := Entry(writeBuf, writeBufSize);
      if ring.full {
        var oldest := ring.outOffs;
        if ring.entry[oldest].buffptr != NULL {
          heap.Free(ring.entry[oldest].buffptr);
          ring.entry[oldest] := ring.entry[oldest].(buffptr := NULL);
          ring.entry[oldest] := ring.entry[oldest].(size := 0);
          assert ring.entry[..] == old(ring.entry[..])[oldest := EMPTY];
        }
      }
      writeBuf := NULL;
      writeBufSize := 0;
      ring.AddEntry(e);
    }

    method WriteFilledInPlace(tmp: Ptr, count: nat, grow: Alloc) returns (ret: int)
      requires locked
      requires tmp in heap.blocks && 0 < count <= |heap.blocks[tmp]| && InvBut(State(), {tmp})
      requires GrowMay(State(), heap.blocks, count, grow)
      modifies this`writeBuf, this`writeBufSize, heap, ring, ring.entry
      ensures (State(), ret) == WriteFilled(old(State()), tmp, count, grow)
    {
      GrowKeeps(State(), tmp, count, grow);
      ret := HandleWriteBufferInPlace(tmp, count, grow);
      if ret >= 0 {
        CompleteKeeps(State(), {tmp});
        var complete := HasNewline();
        if complete {
          HandleCompleteCommandInPlace();
        }
        ret := count;
      }
    }

    method Write(buf: Option<bytes>, env: WriteEnv) returns (ret: int)
      requires Idle()
      requires buf.Some? ==> WriteMay(State(), |buf.value|, env)
      modifies this, heap, ring, ring.entry
      ensures Inv(old(State())) && !locked
      ensures (State(), ret) == Driver.Write(old(State()), buf, env)
    {
      if buf == None || buf.value == [] {
        return -EINVAL;
      }
      var count := |buf.value|;
      var failed := Lock(env.interrupted);
      if failed {
        return -ERESTARTSYS;
      }
      TmpMay(State(), buf.value, env);
      var tmp := heap.Malloc(count, env.tmp);
      if tmp == NULL {
        Unlock();
        return -ENOMEM;
      }
      if env.copyFails {
        ret := -EFAULT;
      } else {
        heap.Memcpy(tmp, 0, buf.value);
        ret := WriteFilledInPlace(tmp, count, env.grow);
      }
      heap.Free(tmp);
      Unlock();
    }

    /** memchr over the accumulation buffer. */
    method HasNewline() returns (found: bool)
      requires locked
      requires writeBuf != NULL && Holds(heap.blocks, writeBuf, writeBufSize)
      ensures found == (NEWLINE in Pending(State()))
    {
      found := NEWLINE in heap.blocks[writeBuf][..writeBufSize];
    }

    // ----- read and seek -----

    method Read(f: OpenFile, hasBuf: bool, count: nat, env: ReadEnv) returns (ret: int, out: bytes)
      requires Idle()
      modifies this`locked, f
      ensures Inv(old(State())) && State() == old(State()) && !locked
      ensures (f.fPos, ret, out) == Access.Read(old(State()), hasBuf, old(f.fPos), count, env)
    {
      ghost var d := State();
      out := [];
      if !hasBuf {
        return -EINVAL, [];
      }
      var failed := Lock(env.interrupted);
      if failed {
        return -ERESTARTSYS, [];
      }
      var found := FindEntry(f.fPos);
      ReadByFind(d, f.fPos, count, env);
      if found == None {
        Unlock();
        return 0, [];
      }
      var (slot, entryOffset) := found.value;
      var e := ring.entry[slot];
      var bytesToRead := Min(count, e.size - entryOffset);
      if env.copyFails {
        ret := -EFAULT;
      } else {
        out := heap.blocks[e.buffptr][entryOffset..entryOffset + bytesToRead];
        f.fPos := f.fPos + bytesToRead;
        ret := bytesToRead;
      }
      Unlock();
    }

    /** The search of the ring, under the lock. */
    method FindEntry(pos: nat) returns (found: Option<(nat, nat)>)
      requires ring.Valid() && locked
      ensures found == Find(ring.View(), pos)
    {
      found := ring.FindEntryOffsetForFpos(pos);
    }

    method GetTotalBufferSize() returns (totalSize: nat)
      requires ring.Valid() && locked
      ensures totalSize == Sum(Sizes(ring.View()))
    {
      totalSize := 0;
      var currentIdx, entriesChecked := ring.outOffs, 0;
      var totalEntries;
      if ring.full {
        totalEntries := MAX_WRITES;
      } else if ring.inOffs >= ring.outOffs {
        totalEntries := ring.inOffs - ring.outOffs;
      } else {
        totalEntries := MAX_WRITES - ring.outOffs + ring.inOffs;
      }
      ghost var r := ring.View();
      ghost var sizes := Sizes(r);
      while entriesChecked < totalEntries
        invariant 0 <= entriesChecked <= totalEntries == |sizes|
        invariant currentIdx == Slot(r, entriesChecked)
        invariant totalSize == Sum(sizes[..entriesChecked])
      {
        WalkStep(r, entriesChecked);
        totalSize := totalSize + ring.entry[currentIdx].size;
        currentIdx := Next(currentIdx);
        entriesChecked := entriesChecked + 1;
      }
      assert sizes[..entriesChecked] == sizes;
    }

    method Llseek(f: OpenFile, offset: loff, whence: int, interrupted: bool) returns (ret: int)
      requires ring.Valid() && !locked && f.fPos < TWO_TO_63
      modifies this`locked, f
      ensures State() == old(State()) && !locked
      ensures (f.fPos as int, ret) == Access.Llseek(old(State()), old(f.fPos), offset, whence, interrupted)
    {
      var failed := Lock(interrupted);
      if failed {
        return -ERESTARTSYS;
      }
      var totalSize := GetTotalBufferSize();
      var newPos: loff;
      if whence == SEEK_SET {
        newPos := offset;
      } else if whence == SEEK_CUR {
        newPos := ToInt64(f.fPos + offset);
      } else if whence == SEEK_END {
        newPos := ToInt64(totalSize + offset);
      } else {
        Unlock();
        return -EINVAL;
      }
      if newPos < 0 || newPos > totalSize {
        Unlock();
        return -EINVAL;
      }
      f.fPos := newPos;
      Unlock();
      return newPos;
    }

    method Ioctl(f: OpenFile, cmd: nat, arg: Option<(u32, u32)>, interrupted: bool) returns (ret: int)
      requires ring.Valid() && !locked
      modifies this`locked, f
      ensures State() == old(State()) && !locked
      ensures (f.fPos, ret) == Access.Ioctl(old(State()), old(f.fPos), cmd, arg, interrupted)
    {
      if cmd != IOCSEEKTO {
        return -ENOTTY;
      }
      if arg == None {
        return -EFAULT;
      }
      var failed := Lock(interrupted);
      if failed {
        return -ERESTARTSYS;
      }
      var target := SeekTarget(arg.value.0, arg.value.1);
      if target == None {
        Unlock();
        return -EINVAL;
      }
      f.fPos := target.value;
      Unlock();
      return 0;
    }

    /** The part of the ioctl done under the lock: validates the request and adds up the sizes of
        the commands before the one asked for. */
    method SeekTarget(writeCmd: u32, writeCmdOffset: u32) returns (target: Option<nat>)
      requires ring.Valid() && locked
      ensures target == PositionOf(Sizes(ring.View()), writeCmd, writeCmdOffset)
    {
      var totalEntries;
      if ring.full {
        totalEntries := MAX_WRITES;
      } else if ring.inOffs >= ring.outOffs {
        totalEntries := ring.inOffs - ring.outOffs;
      } else {
        totalEntries := MAX_WRITES - ring.outOffs + ring.inOffs;
      }
      if writeCmd >= totalEntries {
        return None;
      }
      var newPos, currentIdx, entriesChecked := 0, ring.outOffs, 0;
      ghost var r := ring.View();
      ghost var sizes := Sizes(r);
      while entriesChecked < writeCmd
        invariant 0 <= entriesChecked <= writeCmd < |sizes|
        invariant currentIdx == Slot(r, entriesChecked)
        invariant newPos == Sum(sizes[..entriesChecked])
      {
        WalkStep(r, entriesChecked);
        newPos := newPos + ring.entry[currentIdx].size;
        currentIdx := Next(currentIdx);
        entriesChecked := entriesChecked + 1;
      }
      WalkStep(r, entriesChecked);
      if writeCmdOffset >= ring.entry[currentIdx].size {
        return None;
      }
      return Some(newPos + writeCmdOffset);
    }

    // ----- cleanup -----

    method FreeIfUsedInPlace(index: nat)
      requires ring.Valid() && index < MAX_WRITES
      requires ring.entry[index].buffptr == NULL || ring.entry[index].buffptr in heap.blocks
      modifies heap, ring.entry
      ensures State() == FreeIfUsed(old(State()), index)
    {
      if ring.entry[index].buffptr != NULL {
        heap.Free(ring.entry[index].buffptr);
        ring.entry[index] := ring.entry[index].(buffptr := NULL);
        ring.entry[index] := ring.entry[index].(size := 0);
        assert ring.entry[..] == old(ring.entry[..])[index := EMPTY];
      }
    }

    /** Walks all ten slots, used or not. */
    method FreeAllSlots()
      requires InvBut(State(), {})
      modifies heap, ring.entry
      ensures InvBut(old(State()), {})
      ensures State() == FreeSlots(old(State()), 0)
    {
      ghost var d, was := State(), State();
      var index := 0;
      while index < MAX_WRITES
        invariant 0 <= index <= MAX_WRITES
        invariant State() == d && InvBut(d, {})
        invariant FreeSlots(d, index) == FreeSlots(was, 0)
      {
        FreeIfUsedKeeps(d, index);
        FreeIfUsedInPlace(index);
        d := FreeIfUsed(d, index);
        index := index + 1;
      }
    }

    /** Frees the accumulation buffer, then every entry. */
    method CleanupInPlace()
      requires Idle()
      modifies this, heap, ring, ring.entry
      ensures Inv(old(State()))
      ensures State() == Cleanup(old(State())) && !locked
    {
      ghost var was := State();
      FreeWriteBufKeeps(was);
      if writeBuf != NULL {
        heap.Free(writeBuf);
        writeBuf := NULL;
        writeBufSize := 0;
      }
      assert State() == FreeWriteBuf(was);
      FreeAllSlots();
    }
  }
}
