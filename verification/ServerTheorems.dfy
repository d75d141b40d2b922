/** What the server's protocol guarantees in every interleaving of any number of clients. */
module ServerTheorems {
  import opened Bytes
  import opened Driver
  import opened CommandLog
  import opened Refinement
  import opened Access
  import opened SocketOps
  import opened Server
  import opened Threads
  import opened Requests
  import opened Turns

  /** s can be reached from the start by some schedule. */
  ghost predicate Reachable(s: Server): (r: bool)
    ensures r ==> Good(s)
  {
    StartIsGood();
    if exists steps: Schedule :: Run(START, steps) == Some(s) then
      var steps: Schedule :| Run(START, steps) == Some(s);
      EveryRunIsGood(START, steps);
      true
    else false
  }

  /** No two threads are ever inside the section that file_mutex guards. */
  lemma MutualExclusion(s: Server, t: Tid, u: Tid)
    requires Reachable(s) && Inside(s, t) && Inside(s, u)
    ensures t == u && s.holder == Some(t)
  {
  }

  /** Every device descriptor is opened once and closed once, under the mutex: descriptors are
      numbered as they are opened, a thread about to close holds the mutex and closes its own open
      descriptor, a closed one is never open again, and nothing is open when the mutex is free or
      about to be released. */
  lemma DescriptorDiscipline(s: Server, t: Tid)
    requires Reachable(s)
    ensures forall fd: nat :: fd in s.fds || fd in s.closed <==> fd < s.nextFd
    ensures s.fds.Keys !! s.closed
    ensures Opened(s, t) ==> s.holder == Some(t) && s.fds.Keys == {s.threads[t].fd}
    ensures s.holder == None || (Inside(s, t) && !Opened(s, t)) ==> s.fds == map[]
  {
    if Opened(s, t) {
      assert s.threads[t].fd in s.fds;
    }
  }

  /** What entry i of the log, a finished reply, says about the entry before it. */
  ghost predicate ReplyIsExact(log: seq<Event>, i: nat)
    requires 0 < i < |log| && log[i].Replied?
  {
    var (stored, cause, reply) := (Stored(Replay(log[..i])), log[i - 1], log[i].reply);
    && cause.tid == log[i].tid
    && match cause
       case Wrote(_, chunk) =>
         && NEWLINE in chunk
         && reply <= Concat(stored)
         && (log[i].complete ==> reply == Concat(stored))
       case Sought(_, cmd, off) =>
         && cmd < |stored| && off < |stored[cmd]|
         && reply <= stored[cmd][off..] + Concat(stored[cmd + 1..])
         && (log[i].complete ==> reply == stored[cmd][off..] + Concat(stored[cmd + 1..]))
       case Replied(_, _, _) => false
  }

  lemma Prefixes(log: seq<Event>, i: nat)
    requires 0 < i <= |log|
    ensures log[..i] == log[..i - 1] + [log[i - 1]]
    ensures log[..i] != [] && log[..i][|log[..i]| - 1] == log[i - 1]
  {
  }

  lemma ReplyFollowsCause(log: seq<Event>, i: nat)
    requires LogOk(log) && i < |log| && log[i].Replied?
    ensures i > 0 && ReplyIsExact(log, i)
  {
    var before := log[..i];
    assert MayFollow(before, log[i]);
    assert before != [];
    Prefixes(log, i);
    var cause := log[i - 1];
    assert Due(before) == DueAfter(Replay(before), cause);
    if cause.Sought? {
      assert MayFollow(log[..i - 1], cause);
      ReplaySnoc(log[..i - 1], cause, 0);
    }
  }

  /** If a reply is among the turn's events it is the second and last of them, and it is all that is
      due unless a read or a send of the turn failed. */
  ghost predicate RepliesLast(turn: Turn) {
    forall j :: 0 <= j < |turn.events| && turn.events[j].Replied? ==>
      j == 1 && |turn.events| == 2 && (turn.events[1].complete || WasStopped(turn.calls))
  }

  lemma SettledRepliesLast(turn: Turn, l: Log)
    requires Settled(turn, l)
    ensures RepliesLast(turn)
  {
  }

  lemma {:induction false} AllReplyLast(turns: seq<Turn>)
    requires AllSettled(turns)
    ensures forall k :: 0 <= k < |turns| ==> RepliesLast(turns[k])
  {
    if turns != [] {
      var (init, turn) := (turns[..|turns| - 1], turns[|turns| - 1]);
      AllReplyLast(init);
      SettledRepliesLast(turn, Replay(LogOf(init)));
      forall k | 0 <= k < |turns| ensures RepliesLast(turns[k]) {
        assert k < |init| ==> turns[k] == init[k];
      }
    }
  }

  lemma ProgressRepliesLast(th: Thread, turn: Turn, before: Log, l: Log, due: bytes)
    requires Progress(th, turn, before, l, due)
    ensures RepliesLast(turn)
  {
    if th.pc.Close? || th.pc.Unlock? {
      SettledRepliesLast(turn, before);
    }
  }

  lemma HolderReplyLast(s: Server, t: Tid, turns: seq<Turn>, k: nat)
    requires HolderTurn(s, t, turns) && k < |turns|
    ensures RepliesLast(turns[k])
  {
    var init := turns[..|turns| - 1];
    if k < |init| {
      AllReplyLast(init);
      assert turns[k] == init[k];
    } else {
      ProgressRepliesLast(s.threads[t], turns[k], Replay(LogOf(init)), Replay(s.log), Due(s.log));
    }
  }

  lemma TurnsReplyLast(s: Server, turns: seq<Turn>, k: nat)
    requires TurnsOk(s, turns) && k < |turns|
    ensures RepliesLast(turns[k])
  {
    if s.holder == None {
      AllReplyLast(turns);
    } else {
      HolderReplyLast(s, s.holder.value, turns, k);
    }
  }

  /** The turn that event i of the log belongs to. */
  lemma {:induction false} TurnOfEvent(turns: seq<Turn>, i: nat) returns (k: nat)
    requires i < |LogOf(turns)|
    ensures k < |turns| && |LogOf(turns[..k])| <= i < |LogOf(turns[..k])| + |turns[k].events|
    ensures LogOf(turns[..k]) + turns[k].events <= LogOf(turns)
  {
    var init := turns[..|turns| - 1];
    if i < |LogOf(init)| {
      k := TurnOfEvent(init, i);
      assert turns[..k] == init[..k];
    } else {
      k := |turns| - 1;
    }
  }

  /** Entry i of the log is the reply of the k-th turn. */
  ghost predicate IsReplyOf(turns: seq<Turn>, k: nat, log: seq<Event>, i: nat)
    requires 0 < i < |log| && log[i].Replied?
  {
    && k < |turns| && |LogOf(turns[..k])| == i - 1
    && turns[k].events == [log[i - 1], log[i]]
    && (log[i].complete || WasStopped(turns[k].calls))
  }

  lemma ReplyInTurn(log: seq<Event>, turns: seq<Turn>, i: nat, k: nat)
    requires i < |log| && log[i].Replied? && k < |turns| && RepliesLast(turns[k])
    requires |LogOf(turns[..k])| <= i < |LogOf(turns[..k])| + |turns[k].events|
    requires LogOf(turns[..k]) + turns[k].events <= log
    ensures i > 0 && IsReplyOf(turns, k, log, i)
  {
    var (n, events) := (|LogOf(turns[..k])|, turns[k].events);
    var flat := LogOf(turns[..k]) + events;
    assert forall j :: 0 <= j < |events| ==> flat[n + j] == events[j] && log[n + j] == flat[n + j];
    assert events[i - n].Replied?;
  }

  /** A reply comes right after its own thread's entitling event, with no write of any thread in
      between, and in the same turn.  What was sent is a prefix of what was due: after a write with a
      newline the whole device as that write left it, after a seek to (cmd, off) command cmd from
      byte off followed by all later commands.  It is exactly that unless a read or a send of the
      turn failed. */
  lemma RepliesAreExact(run: Schedule, s: Server, i: nat) returns (k: nat)
    requires StateAfter(run) == Some(s) && i < |s.log| && s.log[i].Replied?
    ensures i > 0 && ReplyIsExact(s.log, i) && IsReplyOf(TurnsOf(run), k, s.log, i)
  {
    var turns := TurnsOf(run);
    ReplyFollowsCause(s.log, i);
    TurnsAreSettled(run, s);
    k := TurnOfEvent(turns, i);
    TurnsReplyLast(s, turns, k);
    ReplyInTurn(s.log, turns, i, k);
  }

  lemma {:induction false} ReplayIsAppendAll(log: seq<Event>)
    ensures Replay(log) == AppendAll(EMPTY_LOG, Chunks(log))
  {
    if log != [] {
      ReplayIsAppendAll(log[..|log| - 1]);
      var e := log[|log| - 1];
      if e.Wrote? {
        AppendAllSnoc(EMPTY_LOG, Chunks(log[..|log| - 1]), e.chunk);
      } else {
        assert Chunks(log) == Chunks(log[..|log| - 1]);
      }
    }
  }

  lemma {:induction false} ChunksAreNoSeeks(log: seq<Event>, i: nat)
    requires LogOk(log) && i < |Chunks(log)|
    ensures Chunks(log)[i] != [] && !IsSeekRequest(Chunks(log)[i])
  {
    var init := log[..|log| - 1];
    assert MayFollow(log[..|log| - 1], log[|log| - 1]);
    assert LogOk(init) by {
      forall k | 0 <= k < |init| ensures MayFollow(init[..k], init[k]) {
        assert init[..k] == log[..k];
        assert MayFollow(log[..k], log[k]);
      }
    }
    if i < |Chunks(init)| {
      ChunksAreNoSeeks(init, i);
    }
  }

  /** The device holds exactly what the turns whose write succeeded put there, each the chunk its
      thread had received, in the order the mutex was taken and no seek request among them; no byte
      of them is lost: dropped, stored and pending bytes together are the chunks laid end to end. */
  lemma DeviceIsItsWriteLog(run: Schedule, s: Server)
    requires StateAfter(run) == Some(s)
    ensures var chunks := ChunksWritten(TurnsOf(run));
            var l := AppendAll(EMPTY_LOG, chunks);
            && Commands(s.dev) == Stored(l) && Pending(s.dev) == l.pending
            && Concat(Evicted(l)) + Content(s.dev) + Pending(s.dev) == Concat(chunks)
            && forall i :: 0 <= i < |chunks| ==> chunks[i] != [] && !StartsWith(chunks[i], "AESDCHAR_IOCSEEKTO:")
  {
    TurnsAreSettled(run, s);
    ChunksOfTurns(s, TurnsOf(run));
    ReplayIsAppendAll(s.log);
    ConservationFromStart(Chunks(s.log));
    var chunks := Chunks(s.log);
    forall i | 0 <= i < |chunks| ensures chunks[i] != [] && !StartsWith(chunks[i], "AESDCHAR_IOCSEEKTO:") {
      ChunksAreNoSeeks(s.log, i);
      SeekRequestText(chunks[i]);
    }
  }

  lemma {:induction false} SettledUpTo(turns: seq<Turn>, k: nat)
    requires AllSettled(turns) && k <= |turns|
    ensures AllSettled(turns[..k])
  {
    if k == |turns| {
      assert turns[..k] == turns;
    } else {
      var init := turns[..|turns| - 1];
      SettledUpTo(init, k);
      assert init[..k] == turns[..k];
    }
  }

  lemma PastTurn(turns: seq<Turn>, k: nat)
    requires AllSettled(turns) && k < |turns|
    ensures !IsOpen(turns[k]) && Settled(turns[k], AppendAll(EMPTY_LOG, ChunksWritten(turns[..k])))
  {
    SettledAt(turns, k);
    SettledUpTo(turns, k);
    ChunksOfSettled(turns[..k]);
    ReplayIsAppendAll(LogOf(turns[..k]));
  }

  /** The turns of a run that are over: all but the mutex holder's. */
  ghost function PastTurns(run: Schedule, s: Server): seq<Turn> {
    var turns := TurnsOf(run);
    if s.holder == None || turns == [] then turns else turns[..|turns| - 1]
  }

  /** Every turn that is over has recorded exactly what it must, given the request its thread had
      received and the device as the chunks written in the turns before it left it. */
  lemma EveryTurnIsSettled(run: Schedule, s: Server, k: nat)
    requires StateAfter(run) == Some(s) && k < |PastTurns(run, s)|
    ensures var past := PastTurns(run, s);
            !IsOpen(past[k]) && Settled(past[k], AppendAll(EMPTY_LOG, ChunksWritten(past[..k])))
  {
    TurnsAreSettled(run, s);
    PastTurn(PastTurns(run, s), k);
  }

  /** What a thread does with up to 1023 bytes it receives: it goes on to write them, unless they begin
      with the text of a seek request; then it goes on to seek to the pair parsed, or is gone when
      there is none. */
  lemma ReceivedIsSorted(s: Server, t: Tid, data: bytes, parsed: Option<(u32, u32)>)
    requires Reachable(s) && t in s.threads && s.threads[t].pc.Recv? && 0 < |data| < 1024
    ensures Step(s, t, Receive(data, parsed)).Some?
    ensures var s' := Step(s, t, Receive(data, parsed)).value;
            && t in s'.threads
            && var th := s'.threads[t];
               if !StartsWith(data, "AESDCHAR_IOCSEEKTO:") then th.pc.LockWrite? && th.buffer == data
               else if parsed.Some? then th.pc.LockSeek? && th.seek == parsed.value
               else th.pc.Exit?
  {
    SeekRequestText(data);
  }

  /** Where a read of at most 1023 bytes from pos stops: after them, or at the end of the command. */
  function ReadStop(commands: seq<bytes>, pos: nat): nat {
    var end := PartEnd(commands, pos);
    if pos + 1023 <= end then pos + 1023 else end
  }

  lemma ReadIsFull(d: Dev, l: Log, pos: nat, env: ReadEnv)
    requires Refines(d, l) && !env.interrupted && !env.copyFails && pos < |Exposed(l)|
    ensures var ((pos', ret, out), stop) := (Read(d, true, pos, BUFFER_SIZE - 1, env), ReadStop(Stored(l), pos));
            pos' == stop && pos < stop <= |Exposed(l)| && ret > 0 && out == Exposed(l)[pos..stop]
  {
    ReadDelivers(d, true, pos, BUFFER_SIZE - 1, env);
    ReadStopsAt(d, pos, BUFFER_SIZE - 1, env);
  }

  /** Thread t is about to offer the socket the bytes of the device from pos up to stop. */
  ghost predicate Offers(s: Server, t: Tid, content: bytes, pos: nat, stop: nat) {
    && t in s.threads && s.threads[t].pc.Send? && s.threads[t].written == 0
    && pos < stop <= |content| && s.threads[t].buffer == content[pos..stop]
  }

  lemma ReadOffers(s: Server, t: Tid, env: ReadEnv)
    requires Refines(s.dev, Replay(s.log)) && t in s.threads && s.threads[t].fd in s.fds
    requires !env.interrupted && !env.copyFails && s.fds[s.threads[t].fd] < |Exposed(Replay(s.log))|
    ensures var (pos, l) := (s.fds[s.threads[t].fd], Replay(s.log));
            && StepRead(s, t, s.threads[t], Reads(env)).Some?
            && Offers(StepRead(s, t, s.threads[t], Reads(env)).value, t, Exposed(l), pos, ReadStop(Stored(l), pos))
  {
    ReadIsFull(s.dev, Replay(s.log), s.fds[s.threads[t].fd], env);
  }

  /** One read of a readback takes the next 1023 bytes, or what is left of the command they begin in;
      the socket is then offered all of them. */
  lemma ReadbackTakesWhatFits(s: Server, t: Tid, env: ReadEnv)
    requires Reachable(s) && t in s.threads && s.threads[t].pc.ReadDev? && !env.interrupted && !env.copyFails
    ensures s.threads[t].fd in s.fds && Step(s, t, Reads(env)).Some?
    ensures var (pos, l) := (s.fds[s.threads[t].fd], Replay(s.log));
            pos < |Exposed(l)| ==>
              Offers(Step(s, t, Reads(env)).value, t, Exposed(l), pos, ReadStop(Stored(l), pos))
  {
    assert OwnOk(s, t);
    assert Step(s, t, Reads(env)) == StepRead(s, t, s.threads[t], Reads(env));
    if s.fds[s.threads[t].fd] < |Exposed(Replay(s.log))| {
      ReadOffers(s, t, env);
    }
  }

  lemma NoWriteNoChange(s: Server, t: Tid, a: Action)
    requires Inv(s.dev) && Step(s, t, a).Some?
    requires t !in s.threads || !s.threads[t].pc.WriteDev?
    ensures Step(s, t, a).value.dev == s.dev
  {
  }

  lemma WriteChange(s: Server, t: Tid, a: Action)
    requires Refines(s.dev, Replay(s.log)) && OwnOk(s, t) && s.threads[t].pc.WriteDev?
    requires StepWrite(s, t, s.threads[t], a).Some?
    ensures var s' := StepWrite(s, t, s.threads[t], a).value;
            s'.dev == s.dev || s'.log == s.log + [Wrote(t, s.threads[t].buffer)]
  {
    if a.Writes? {
      assert s.threads[t].buffer[0..] == s.threads[t].buffer;
      WriteFacts(s, t, a.wenv);
    }
  }

  /** Only a device write that is recorded changes the device; opening, seeking, reading, sending,
      closing and failing writes leave ring, heap and pending bytes as they are. */
  lemma OnlyRecordedWritesChangeTheDevice(s: Server, t: Tid, a: Action)
    requires Reachable(s) && Step(s, t, a).Some?
    ensures var s' := Step(s, t, a).value;
            || s'.dev == s.dev
            || (t in s.threads && s'.log == s.log + [Wrote(t, s.threads[t].buffer)])
  {
    if t in s.threads && s.threads[t].pc.WriteDev? {
      assert OwnOk(s, t);
      WriteChange(s, t, a);
    } else {
      NoWriteNoChange(s, t, a);
    }
  }

  /** All a client ever receives is its replies: those recorded, then the one under way. */
  lemma ClientsReceiveTheirRepliesOnly(s: Server, t: Tid)
    requires Reachable(s) && t in s.threads
    ensures var th := s.threads[t];
            th.sent == Replies(s.log, t) + if th.pc.ReadDev? || th.pc.Send? then th.reply else []
  {
    assert SentOk(s, t, s.threads[t]);
  }

  // ----- how long a turn can take -----

  /** Calls that were interrupted are made again and change nothing. */
  predicate IsInterrupted(a: Action) {
    a.SocketInterrupted? || (a.Writes? && a.wenv.interrupted)
  }

  /** How many uninterrupted calls thread t makes in a schedule. */
  function CallsOf(steps: Schedule, t: Tid): nat
    decreases |steps|
  {
    if steps == [] then 0
    else (if steps[0].0 == t && !IsInterrupted(steps[0].1) then 1 else 0) + CallsOf(steps[1..], t)
  }

  /** Thread t is inside the critical section all through the schedule. */
  ghost predicate StaysInside(s: Server, steps: Schedule, t: Tid)
    requires Good(s)
    decreases |steps|
  {
    Inside(s, t) &&
    (steps == [] ||
     match Step(s, steps[0].0, steps[0].1)
     case None => false
     case Some(s') =>
       StepKeepsGood(s, steps[0].0, steps[0].1);
       StaysInside(s', steps[1..], t))
  }

  /** An upper bound for the bytes a readback may have to send. */
  function Room(l: Log): nat {
    |Exposed(l)| + |l.pending|
  }

  /** What lies ahead of the thread's file position. */
  ghost function Ahead(s: Server, th: Thread): int {
    if th.fd in s.fds then |Exposed(Replay(s.log))| - s.fds[th.fd] else 0
  }

  /** A bound on the uninterrupted calls thread t can still make before it unlocks: three for every
      byte it may have to read back (a read, a send and the next read), and a few besides. */
  ghost function Budget(s: Server, t: Tid): int
    requires t in s.threads
  {
    var (th, room) := (s.threads[t], Room(Replay(s.log)));
    match th.pc
    case OpenWrite => 3 * (room + |th.buffer|) + 8
    case WriteDev => if th.written == 0 then 3 * (room + |th.buffer|) + 7 else 3 * room + 6
    case CloseWrite => 3 * room + 5
    case OpenRead => 3 * room + 4
    case OpenSeek => 3 * room + 5
    case SeekTo => 3 * room + 4
    case ReadDev => 3 * Ahead(s, th) + 3
    case Send => 3 * Ahead(s, th) + |th.buffer| - th.written + 4
    case Close => 2
    case Unlock => 1
    case _ => 0
  }

  /** A write makes no more room than its own length. */
  lemma RoomAfterWrite(l: Log, chunk: bytes)
    requires NEWLINE !in l.pending
    ensures Room(Append(l, chunk)) <= Room(l) + |chunk|
  {
    ExposedAfter(l, chunk);
  }

  /** An interrupted call changes nothing; any other call uses up some of the budget. */
  ghost predicate Spends(s: Server, s': Server, t: Tid, a: Action)
    requires t in s.threads
  {
    t in s'.threads && if IsInterrupted(a) then s' == s else Budget(s', t) < Budget(s, t)
  }

  lemma OpenSpends(s: Server, t: Tid, a: Action, next: Pc)
    requires t in s.threads && StepOpen(s, t, s.threads[t], a, next).Some?
    requires || (s.threads[t].pc.OpenSeek? && next.SeekTo?)
             || (s.threads[t].pc.OpenWrite? && next.WriteDev?)
             || (s.threads[t].pc.OpenRead? && next.ReadDev?)
    ensures Spends(s, StepOpen(s, t, s.threads[t], a, next).value, t, a)
  {
  }

  lemma AfterSeekSpends(s: Server, t: Tid, a: Action, pos: nat, ret: int)
    requires t in s.threads && s.threads[t].pc.SeekTo? && a.Seeks?
    ensures Spends(s, AfterSeek(s, t, s.threads[t], pos, ret), t, a)
  {
    if ret >= 0 {
      var s' := AfterSeek(s, t, s.threads[t], pos, ret);
      var e := Sought(t, s.threads[t].seek.0, s.threads[t].seek.1);
      ReplaySnoc(s.log, e, t);
      assert s'.log == s.log + [e] && s'.threads[t].pc.ReadDev?;
      assert Ahead(s', s'.threads[t]) <= |Exposed(Replay(s.log))|;
    }
  }

  lemma SeekSpends(s: Server, t: Tid, a: Action)
    requires Inv(s.dev) && OwnOk(s, t) && s.threads[t].pc.SeekTo? && StepSeek(s, t, s.threads[t], a).Some?
    ensures Spends(s, StepSeek(s, t, s.threads[t], a).value, t, a)
  {
    var th := s.threads[t];
    var (pos, ret) := Ioctl(s.dev, s.fds[th.fd], IOCSEEKTO, if a.copyFails then None else Some(th.seek), a.interrupted);
    AfterSeekSpends(s, t, a, pos, ret);
  }

  lemma WrittenSpends(s: Server, t: Tid, a: Action, dev: Dev)
    requires NEWLINE !in Replay(s.log).pending
    requires t in s.threads && s.threads[t].pc.WriteDev? && s.threads[t].written == 0 && s.threads[t].buffer != []
    requires a.Writes? && !a.wenv.interrupted
    ensures Spends(s, AfterWrite(s, t, s.threads[t], s.threads[t].buffer, dev, |s.threads[t].buffer|), t, a)
  {
    var th := s.threads[t];
    ReplaySnoc(s.log, Wrote(t, th.buffer), t);
    RoomAfterWrite(Replay(s.log), th.buffer);
  }

  lemma AfterWriteSpends(s: Server, t: Tid, a: Action, dev: Dev, ret: int)
    requires NEWLINE !in Replay(s.log).pending
    requires t in s.threads && s.threads[t].pc.WriteDev? && s.threads[t].written == 0 && s.threads[t].buffer != []
    requires a.Writes? && (a.wenv.interrupted ==> dev == s.dev)
    requires if Favourable(a.wenv) then ret == |s.threads[t].buffer|
             else ret < 0 && (ret == -ERESTARTSYS <==> a.wenv.interrupted)
    ensures Spends(s, AfterWrite(s, t, s.threads[t], s.threads[t].buffer, dev, ret), t, a)
  {
    if Favourable(a.wenv) {
      WrittenSpends(s, t, a, dev);
    }
  }

  lemma WriteSpends(s: Server, t: Tid, a: Action)
    requires Refines(s.dev, Replay(s.log)) && OwnOk(s, t) && s.threads[t].pc.WriteDev?
    requires StepWrite(s, t, s.threads[t], a).Some?
    ensures Spends(s, StepWrite(s, t, s.threads[t], a).value, t, a)
  {
    var th := s.threads[t];
    if a.Writes? {
      assert th.written == 0 && th.buffer[0..] == th.buffer;
      WriteReturns(s, t, a.wenv);
      WriteFacts(s, t, a.wenv);
      var (dev, ret) := Write(s.dev, Some(th.buffer), a.wenv);
      AfterWriteSpends(s, t, a, dev, ret);
    }
  }

  lemma AfterReadSpends(s: Server, t: Tid, a: Action, pos: nat, ret: int, out: bytes)
    requires OwnOk(s, t) && s.threads[t].pc.ReadDev? && a.Reads?
    requires ret > 0 ==> pos == s.fds[s.threads[t].fd] + |out| && out != []
    ensures Spends(s, AfterRead(s, t, s.threads[t], pos, ret, out), t, a)
  {
  }

  lemma ReadSpends(s: Server, t: Tid, a: Action)
    requires Refines(s.dev, Replay(s.log)) && OwnOk(s, t) && s.threads[t].pc.ReadDev?
    requires StepRead(s, t, s.threads[t], a).Some?
    ensures Spends(s, StepRead(s, t, s.threads[t], a).value, t, a)
  {
    var th := s.threads[t];
    ReadDelivers(s.dev, true, s.fds[th.fd], BUFFER_SIZE - 1, a.renv);
    var (pos, ret, out) := Read(s.dev, true, s.fds[th.fd], BUFFER_SIZE - 1, a.renv);
    AfterReadSpends(s, t, a, pos, ret, out);
  }

  lemma SendSpends(s: Server, t: Tid, a: Action)
    requires t in s.threads && s.threads[t].pc.Send? && StepSend(s, t, s.threads[t], a).Some?
    requires Ahead(s, s.threads[t]) >= 0 && s.threads[t].written <= |s.threads[t].buffer|
    ensures Spends(s, StepSend(s, t, s.threads[t], a).value, t, a)
  {
    if a.SocketTakes? {
      TakesSpends(s, t, a.n);
    }
  }

  lemma TakesSpends(s: Server, t: Tid, n: nat)
    requires t in s.threads && s.threads[t].pc.Send? && 0 < n && s.threads[t].written + n <= |s.threads[t].buffer|
    ensures var s' := Set(s, t, Passed(s.threads[t], n));
            t in s'.threads && Budget(s', t) < Budget(s, t)
  {
  }

  lemma EndSpends(s: Server, t: Tid, a: Action)
    requires Inv(s.dev) && t in s.threads && Step(s, t, a).Some?
    requires s.threads[t].pc.CloseWrite? || s.threads[t].pc.Close? || s.threads[t].pc.Unlock?
    ensures Spends(s, Step(s, t, a).value, t, a)
  {
  }

  lemma StepSpends(s: Server, t: Tid, a: Action)
    requires Refines(s.dev, Replay(s.log)) && OwnOk(s, t) && Inside(s, t) && Step(s, t, a).Some?
    ensures Spends(s, Step(s, t, a).value, t, a)
  {
    match s.threads[t].pc
    case WriteDev => WriteSpends(s, t, a);
    case ReadDev => ReadSpends(s, t, a);
    case Send => SendSpends(s, t, a);
    case OpenSeek => OpenSpends(s, t, a, SeekTo);
    case OpenWrite => OpenSpends(s, t, a, WriteDev);
    case OpenRead => OpenSpends(s, t, a, ReadDev);
    case SeekTo => SeekSpends(s, t, a);
    case _ => EndSpends(s, t, a);
  }

  /** The steps of other threads cost the holder nothing. */
  lemma OthersSpendNothing(s: Server, t: Tid, u: Tid, a: Action)
    requires Good(s) && Inside(s, t) && u != t && Step(s, u, a).Some?
    ensures t in Step(s, u, a).value.threads && Budget(Step(s, u, a).value, t) == Budget(s, t)
  {
    assert !Inside(s, u);
    StepMoves(s, u, a);
    OutsiderChangesNothing(s, Step(s, u, a).value, t, u);
  }

  lemma OutsiderChangesNothing(s: Server, s': Server, t: Tid, u: Tid)
    requires Moves(s, s', u) && !Inside(s, u) && u != t && t in s.threads
    ensures t in s'.threads && Budget(s', t) == Budget(s, t)
  {
  }

  lemma BudgetIsPositive(s: Server, t: Tid)
    requires OwnOk(s, t) && Inside(s, t)
    ensures Budget(s, t) > 0
  {
  }

  /** In every schedule in which thread t stays inside the critical section, whatever the other
      threads do, t makes fewer uninterrupted calls than a number that is known at its beginning. */
  lemma {:induction false} TurnsAreBounded(s: Server, steps: Schedule, t: Tid)
    requires Good(s) && StaysInside(s, steps, t)
    ensures CallsOf(steps, t) < Budget(s, t)
    decreases |steps|
  {
    assert OwnOk(s, t);
    BudgetIsPositive(s, t);
    if steps != [] {
      var (u, a) := steps[0];
      StepKeepsGood(s, u, a);
      TurnsAreBounded(Step(s, u, a).value, steps[1..], t);
      if u == t {
        StepSpends(s, t, a);
      } else {
        OthersSpendNothing(s, t, u, a);
      }
    }
  }
}
