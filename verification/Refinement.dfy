/** The driver does what the command log says, over every run and every kernel behaviour. */
module Refinement {
  import opened Bytes
  import opened RingBuffer
  import opened Heap
  import opened Driver
  import opened CommandLog
  import Lines

  /** The device stores the log's last ten commands and its pending bytes, and is consistent. */
  ghost predicate Refines(d: Dev, l: Log) {
    Inv(d) && Commands(d) == Stored(l) && Pending(d) == l.pending
  }

  lemma FreshRefines()
    ensures Refines(FRESH_DEVICE, EMPTY_LOG)
  {
    InitIsEmpty();
    assert Commands(FRESH_DEVICE) == [];
  }

  /** Nothing the kernel picked makes a write call fail. */
  predicate Favourable(env: WriteEnv) {
    !env.interrupted && env.tmp.Got? && !env.copyFails && env.grow.Got?
  }

  /** When a write call returns the byte count rather than an error. */
  predicate Succeeds(buf: Option<bytes>, env: WriteEnv) {
    buf.Some? && buf.value != [] && Favourable(env)
  }

  /** The error a failing write call reports, in the order the driver checks. */
  function FailureCode(buf: Option<bytes>, env: WriteEnv): int {
    if buf == None || buf.value == [] then EINVAL
    else if env.interrupted then ERESTARTSYS
    else if env.tmp.Failed? then ENOMEM
    else if env.copyFails then EFAULT
    else ENOMEM
  }

  lemma LastNSnoc<T>(s: seq<T>, x: T, n: nat)
    requires n > 0
    ensures LastN(s + [x], n) == LastN(LastN(s, n) + [x], n)
  {
  }

  /** A write is all or nothing.  A failing call leaves the whole device, heap included, exactly
      as it was; a successful one consumes the entire chunk as the log does. */
  lemma WriteRefines(d: Dev, l: Log, buf: Option<bytes>, env: WriteEnv)
    requires Refines(d, l) && (buf.Some? ==> WriteMay(d, |buf.value|, env))
    ensures var (d', ret) := Write(d, buf, env);
            if Succeeds(buf, env) then ret == |buf.value| && Refines(d', Append(l, buf.value))
            else ret == -FailureCode(buf, env) && d' == d
  {
    if Succeeds(buf, env) {
      WriteSucceeds(d, l, buf.value, env);
    } else if buf.Some? && buf.value != [] && !env.interrupted && env.tmp.Got? {
      var chunk, tmp := buf.value, env.tmp.p;
      var h := Kmalloc(d.heap, |chunk|, env.tmp);
      assert Kfree(h, tmp) == d.heap;
      assert Kfree(Store(h, tmp, 0, chunk), tmp) == d.heap;
    }
  }

  /** What a write call returns, in the driver's order of checks: EINVAL, ERESTARTSYS, ENOMEM, EFAULT,
      ENOMEM again, or the byte count. */
  lemma WriteReturnValues(d: Dev, buf: Option<bytes>, env: WriteEnv)
    requires Inv(d) && (buf.Some? ==> WriteMay(d, |buf.value|, env))
    ensures Write(d, buf, env).1 ==
            if buf == None || buf.value == [] then -22
            else if env.interrupted then -512
            else if env.tmp.Failed? then -12
            else if env.copyFails then -14
            else if env.grow.Failed? then -12
            else |buf.value|
  {
    if buf.Some? && buf.value != [] && !env.interrupted && env.tmp.Got? && !env.copyFails {
      var d1 := d.(heap := Store(Kmalloc(d.heap, |buf.value|, env.tmp), env.tmp.p, 0, buf.value));
      TmpStored(d, buf.value, env);
      GrowKeeps(d1, env.tmp.p, |buf.value|, env.grow);
    }
  }

  /** The device shows the last ten commands of the log it refines. */
  lemma ShowsLastTen(d: Dev, l: Log)
    requires Refines(d, l)
    ensures Commands(d) == if |l.history| <= 10 then l.history else l.history[|l.history| - 10..]
  {
  }

  /** The device once the chunk is in the accumulation buffer, before any commit. */
  ghost function Grown(d: Dev, chunk: bytes, env: WriteEnv): Dev
    requires Inv(d) && WriteMay(d, |chunk|, env) && Succeeds(Some(chunk), env)
  {
    TmpStored(d, chunk, env);
    var d1 := d.(heap := Store(Kmalloc(d.heap, |chunk|, env.tmp), env.tmp.p, 0, chunk));
    HandleWriteBuffer(d1, env.tmp.p, |chunk|, env.grow).0
  }

  lemma GrownKeeps(d: Dev, chunk: bytes, env: WriteEnv)
    requires Inv(d) && WriteMay(d, |chunk|, env) && Succeeds(Some(chunk), env)
    ensures var d2 := Grown(d, chunk, env);
            InvBut(d2, {env.tmp.p}) && Pending(d2) == Pending(d) + chunk && Commands(d2) == Commands(d)
  {
    TmpStored(d, chunk, env);
    var d1 := d.(heap := Store(Kmalloc(d.heap, |chunk|, env.tmp), env.tmp.p, 0, chunk));
    GrowKeeps(d1, env.tmp.p, |chunk|, env.grow);
    assert d1.heap[env.tmp.p][..|chunk|] == chunk;
  }

  /** The commit and the release of the temporary buffer that end a successful call. */
  ghost function Finished(d: Dev, tmp: Ptr): Dev
    requires InvBut(d, {tmp})
  {
    CompleteKeeps(d, {tmp});
    var d3 := if NEWLINE in Pending(d) then HandleCompleteCommand(d) else d;
    d3.(heap := Kfree(d3.heap, tmp))
  }

  lemma WriteIsGrowThenFinish(d: Dev, chunk: bytes, env: WriteEnv)
    requires Inv(d) && WriteMay(d, |chunk|, env) && Succeeds(Some(chunk), env)
    ensures InvBut(Grown(d, chunk, env), {env.tmp.p})
    ensures Write(d, Some(chunk), env) == (Finished(Grown(d, chunk, env), env.tmp.p), |chunk|)
  {
    GrownKeeps(d, chunk, env);
  }

  lemma WriteSucceeds(d: Dev, l: Log, chunk: bytes, env: WriteEnv)
    requires Refines(d, l) && WriteMay(d, |chunk|, env) && Succeeds(Some(chunk), env)
    ensures var (d', ret) := Write(d, Some(chunk), env);
            ret == |chunk| && Refines(d', Append(l, chunk))
  {
    WriteIsGrowThenFinish(d, chunk, env);
    GrownKeeps(d, chunk, env);
    FinishedRefines(Grown(d, chunk, env), l, chunk, env.tmp.p);
  }

  lemma FinishedRefines(d: Dev, l: Log, chunk: bytes, tmp: Ptr)
    requires InvBut(d, {tmp}) && Commands(d) == Stored(l) && Pending(d) == l.pending + chunk
    ensures Refines(Finished(d, tmp), Append(l, chunk))
  {
    Committed(d, l, chunk, {tmp});
    DropTmp(if NEWLINE in Pending(d) then HandleCompleteCommand(d) else d, tmp);
  }

  /** Committing the accumulation buffer when it holds a newline is what the log does. */
  lemma Committed(d: Dev, l: Log, chunk: bytes, extra: set<Ptr>)
    requires InvBut(d, extra)
    requires Commands(d) == Stored(l) && Pending(d) == l.pending + chunk
    ensures d.ring.full && d.ring.entry[d.ring.outOffs].buffptr != NULL
            ==> d.ring.entry[d.ring.outOffs].buffptr in d.heap
    ensures var d' := if NEWLINE in Pending(d) then HandleCompleteCommand(d) else d;
            && InvBut(d', extra)
            && Commands(d') == Stored(Append(l, chunk))
            && Pending(d') == Append(l, chunk).pending
            && NEWLINE !in Pending(d')
  {
    CompleteKeeps(d, extra);
    LastNSnoc(l.history, Pending(d), MAX_WRITES);
    if NEWLINE in Pending(d) {
      assert d.writeBuf != NULL;
    }
  }

  /** Freeing the temporary buffer leaves exactly the owned blocks. */
  lemma DropTmp(d: Dev, tmp: Ptr)
    requires InvBut(d, {tmp}) && NEWLINE !in Pending(d)
    ensures tmp in d.heap
    ensures var d' := d.(heap := Kfree(d.heap, tmp));
            Inv(d') && Commands(d') == Commands(d) && Pending(d') == Pending(d)
  {
    var d' := d.(heap := Kfree(d.heap, tmp));
    assert tmp in d.heap <==> Owns(d, tmp) || tmp in {tmp};
    forall i | 0 <= i < MAX_WRITES
      ensures EntryOk(d'.heap, d.ring.entry[i])
      ensures EntryBytes(d'.heap, d.ring.entry[i]) == EntryBytes(d.heap, d.ring.entry[i])
    {
      assert EntryOk(d.heap, d.ring.entry[i]) && InSlot(d.ring, d.ring.entry[i].buffptr);
    }
    forall q ensures q in d'.heap <==> Owns(d', q) {
      assert q in d.heap <==> Owns(d, q) || q in {tmp};
    }
    assert Commands(d') == Commands(d);
  }

  /** A commit, as the flat view of the stored commands shows it. */
  lemma CommitShown(c: seq<bytes>, command: bytes)
    requires |c| <= MAX_WRITES
    ensures var shown := Concat(LastN(c + [command], MAX_WRITES));
            if |c| < MAX_WRITES then shown == Concat(c) + command
            else |c[0]| <= |Concat(c)| && shown == Concat(c)[|c[0]|..] + command
  {
    if |c| < MAX_WRITES {
      ConcatSnoc(c, command);
    } else {
      assert (c + [command])[1..] == c[1..] + [command];
      ConcatSnoc(c[1..], command);
      assert Concat(c)[|c[0]|..] == Concat(c[1..]);
    }
  }

  lemma ExposedAfter(l: Log, chunk: bytes)
    requires NEWLINE !in l.pending
    ensures var shown, c := Exposed(Append(l, chunk)), Stored(l);
            if NEWLINE !in chunk then shown == Exposed(l)
            else if |c| < MAX_WRITES then shown == Exposed(l) + (l.pending + chunk)
            else |c[0]| <= |Exposed(l)| && shown == Exposed(l)[|c[0]|..] + (l.pending + chunk)
  {
    if NEWLINE in chunk {
      LastNSnoc(l.history, l.pending + chunk, MAX_WRITES);
      CommitShown(Stored(l), l.pending + chunk);
    }
  }

  /** What a successful write does to the flat view.  A chunk without newline leaves it alone; a
      commit appends the new command, and on a full device the oldest command disappears in front,
      so an open file's unchanged position then denotes a byte that many places further on. */
  lemma ContentAfterWrite(d: Dev, l: Log, chunk: bytes, env: WriteEnv)
    requires Refines(d, l) && WriteMay(d, |chunk|, env) && Succeeds(Some(chunk), env)
    ensures Inv(Write(d, Some(chunk), env).0)
    ensures var content' := Content(Write(d, Some(chunk), env).0);
            if NEWLINE !in chunk then content' == Content(d)
            else if |Commands(d)| < MAX_WRITES then content' == Content(d) + (Pending(d) + chunk)
            else |Commands(d)[0]| <= |Content(d)|
                 && content' == Content(d)[|Commands(d)[0]|..] + (Pending(d) + chunk)
  {
    WriteSucceeds(d, l, chunk, env);
    ExposedAfter(l, chunk);
  }

  // ----- whole runs -----

  datatype WriteCall = WriteCall(buf: Option<bytes>, env: WriteEnv)

  ghost predicate CallMay(d: Dev, c: WriteCall) {
    c.buf.Some? ==> WriteMay(d, |c.buf.value|, c.env)
  }

  /** Each call of the run gets outcomes the allocator could give in the state it meets. */
  ghost predicate RunMay(d: Dev, calls: seq<WriteCall>)
    decreases |calls|
  {
    calls == [] || (Inv(d) && CallMay(d, calls[0]) && RunMay(Write(d, calls[0].buf, calls[0].env).0, calls[1..]))
  }

  ghost function RunWrites(d: Dev, calls: seq<WriteCall>): Dev
    requires RunMay(d, calls)
    decreases |calls|
  {
    if calls == [] then d else RunWrites(Write(d, calls[0].buf, calls[0].env).0, calls[1..])
  }

  /** The chunks of the calls that returned their byte count. */
  ghost function Accepted(d: Dev, calls: seq<WriteCall>): seq<bytes>
    requires RunMay(d, calls)
    decreases |calls|
  {
    if calls == [] then []
    else
      var (d', ret) := Write(d, calls[0].buf, calls[0].env);
      (if ret >= 0 && calls[0].buf.Some? then [calls[0].buf.value] else []) + Accepted(d', calls[1..])
  }

  /** After any sequence of writes, with any chunks and any failures, the device shows exactly
      what the command log says about the accepted chunks, and its live heap blocks are exactly
      the distinct ones it points to (Inv). */
  lemma {:induction false} RunRefines(d: Dev, l: Log, calls: seq<WriteCall>)
    requires Refines(d, l) && RunMay(d, calls)
    ensures Refines(RunWrites(d, calls), AppendAll(l, Accepted(d, calls)))
    decreases |calls|
  {
    if calls != [] {
      var buf, env := calls[0].buf, calls[0].env;
      var (d', ret) := Write(d, buf, env);
      WriteRefines(d, l, buf, env);
      var rest := Accepted(d', calls[1..]);
      if Succeeds(buf, env) {
        assert Accepted(d, calls) == [buf.value] + rest;
        RunRefines(d', Append(l, buf.value), calls[1..]);
      } else {
        assert Accepted(d, calls) == rest;
        RunRefines(d', l, calls[1..]);
      }
    }
  }

  /** The same for a device from module load to unload: contents, byte conservation, the newline
      rule, and an empty heap after cleanup. */
  lemma DeviceLifetime(d: Dev, calls: seq<WriteCall>)
    requires Refines(d, EMPTY_LOG) && RunMay(d, calls)
    ensures var d', chunks := RunWrites(d, calls), Accepted(d, calls);
            var l := AppendAll(EMPTY_LOG, chunks);
            && Refines(d', l)
            && Commands(d') == (if |l.history| <= 10 then l.history else l.history[|l.history| - 10..])
            && Content(d') == Exposed(l)
            && Concat(Evicted(l)) + Content(d') + Pending(d') == Concat(chunks)
            && NewlineRule(l, chunks)
            && Cleanup(d').heap == map[]
  {
    var d', chunks := RunWrites(d, calls), Accepted(d, calls);
    RunRefines(d, EMPTY_LOG, calls);
    ShowsLastTen(d', AppendAll(EMPTY_LOG, chunks));
    ConservationFromStart(chunks);
    NewlineInvariant(AppendAll(EMPTY_LOG, chunks), chunks);
    CleanupFreesEverything(d');
  }

  /** When no accepted chunk has a newline before its last byte, the device shows the last ten
      lines of the byte stream and holds its unterminated rest, however the stream was cut. */
  lemma DeviceShowsLines(d: Dev, calls: seq<WriteCall>)
    requires Refines(d, EMPTY_LOG) && RunMay(d, calls)
    requires forall i :: 0 <= i < |Accepted(d, calls)| ==> Lines.LineAligned(Accepted(d, calls)[i])
    ensures var d', cut := RunWrites(d, calls), Lines.Split(Concat(Accepted(d, calls)));
            && Refines(d', cut)
            && Commands(d') == LastN(cut.history, 10)
            && Pending(d') == cut.pending
  {
    RunRefines(d, EMPTY_LOG, calls);
    Lines.ChunkingIndependence(Accepted(d, calls));
  }
}
