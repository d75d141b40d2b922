/** Requests can be served: schedules in which no call fails lead from every reachable state to the
    answer due.

    ServerTheorems says what every run keeps; here is what some run reaches, by calls of the one
    thread that is served. */
module Service {
  import opened Bytes
  import opened RingBuffer
  import opened Heap
  import opened Driver
  import opened CommandLog
  import opened Refinement
  import opened Access
  import opened SocketOps
  import opened Server
  import opened Threads
  import opened Requests
  import opened Turns
  import opened ServerTheorems

  /** A call after the request was received that neither fails nor is interrupted. */
  predicate IsCalm(a: Action) {
    match a
    case Locks => true
    case Opens => true
    case Seeks(copyFails, interrupted) => !copyFails && !interrupted
    case Writes(env) => Favourable(env)
    case WriteEnds => true
    case Reads(env) => !env.interrupted && !env.copyFails
    case SocketTakes(_) => true
    case SendEnds => true
    case Closes => true
    case Unlocks => true
    case _ => false
  }

  /** All steps are calm calls of t. */
  ghost predicate OnlyCalm(steps: Schedule, t: Tid) {
    forall i :: 0 <= i < |steps| ==> steps[i].0 == t && IsCalm(steps[i].1)
  }

  predicate AllCalm(calls: seq<Action>) {
    calls == [] || (AllCalm(calls[..|calls| - 1]) && IsCalm(calls[|calls| - 1]))
  }

  // ----- runs put together -----

  lemma {:induction false} RunThenRun(s: Server, a: Schedule, b: Schedule)
    requires Good(s) && Run(s, a).Some?
    ensures Good(Run(s, a).value) && Run(s, a + b) == Run(Run(s, a).value, b)
    decreases |a|
  {
    if a == [] {
      EmptyEnds(b);
    } else {
      assert (a + b)[0] == a[0] && (a + b)[1..] == a[1..] + b;
      StepKeepsGood(s, a[0].0, a[0].1);
      RunThenRun(Step(s, a[0].0, a[0].1).value, a[1..], b);
    }
  }

  lemma RunOne(s: Server, t: Tid, a: Action)
    requires Good(s) && Step(s, t, a).Some?
    ensures Good(Step(s, t, a).value) && Run(s, [(t, a)]) == Step(s, t, a)
  {
    StepKeepsGood(s, t, a);
    assert [(t, a)][1..] == [];
  }

  lemma StepThenRun(run: Schedule, s: Server, t: Tid, a: Action, rest: Schedule)
    requires Good(s) && Step(s, t, a).Some?
    ensures Good(Step(s, t, a).value) && Run(s, [(t, a)] + rest) == Run(Step(s, t, a).value, rest)
    ensures run + ([(t, a)] + rest) == run + [(t, a)] + rest
  {
    Regroup(run, [(t, a)], rest);
    StepKeepsGood(s, t, a);
    assert ([(t, a)] + rest)[0] == (t, a) && ([(t, a)] + rest)[1..] == rest;
  }

  lemma StateThenRun(run: Schedule, s: Server, steps: Schedule, s': Server)
    requires StateAfter(run) == Some(s) && Run(s, steps) == Some(s')
    ensures StateAfter(run + steps) == Some(s')
  {
    StartIsGood();
    RunThenRun(START, run, steps);
  }

  // ----- a calm call is always possible -----

  /** The kernel can let a write call succeed. */
  lemma WriteCanSucceed(d: Dev, count: nat) returns (env: WriteEnv)
    requires Inv(d)
    ensures WriteMay(d, count, env) && Favourable(env)
  {
    var p := FreshNat(d.heap.Keys);
    var q := FreshNat(d.heap.Keys + {p});
    var junk := seq(count, _ => NUL);
    var tmp := Got(p, junk);
    var grow := Got(q, seq(d.writeBufSize + count + 1, _ => NUL));
    if d.writeBuf == NULL {
      grow := Got(q, seq(count + 1, _ => NUL));
    }
    env := WriteEnv(false, tmp, false, grow);
  }

  lemma CalmCall(s: Server, t: Tid) returns (a: Action)
    requires Inv(s.dev) && OwnOk(s, t) && Inside(s, t) && (Opened(s, t) ==> s.threads[t].fd in s.fds)
    ensures IsCalm(a) && !a.Locks? && Step(s, t, a).Some?
  {
    var th := s.threads[t];
    match th.pc
    case WriteDev =>
      if th.written < |th.buffer| {
        var env := WriteCanSucceed(s.dev, |th.buffer[th.written..]|);
        a := Writes(env);
      } else {
        a := WriteEnds;
      }
    case SeekTo => a := Seeks(false, false);
    case ReadDev => a := Reads(CALM);
    case Send => a := if th.written < |th.buffer| then SocketTakes(|th.buffer| - th.written) else SendEnds;
    case CloseWrite => a := Closes;
    case Close => a := Closes;
    case Unlock => a := Unlocks;
    case _ => a := Opens;
  }

  // ----- the mutex holder can get out -----

  lemma CalmSnoc(calls: seq<Action>, a: Action)
    ensures AllCalm(calls + [a]) == (AllCalm(calls) && IsCalm(a))
  {
    LastOf(calls, a);
  }

  /** Thread t holds the mutex, and its turn is the last. */
  ghost predicate InTurn(run: Schedule, s: Server, t: Tid, init: seq<Turn>, turn: Turn) {
    Good(s) && AllTrack(run, s) && s.holder == Some(t) && t in s.threads && TurnsOk(s, init + [turn])
  }

  /** The turn of thread t is over. */
  ghost predicate TurnOver(run: Schedule, s: Server, t: Tid, init: seq<Turn>, turn: Turn) {
    && Good(s) && AllTrack(run, s) && s.holder == None && TurnsOk(s, init + [turn])
    && t in s.threads && (s.threads[t].pc.Recv? || s.threads[t].pc.Exit?)
  }

  /** The later stage of a turn: the same request, and calm calls if they were so before. */
  ghost predicate LaterStage(turn: Turn, turn': Turn) {
    turn'.tid == turn.tid && turn'.request == turn.request && (AllCalm(turn.calls) ==> AllCalm(turn'.calls))
  }

  lemma HolderCall(run: Schedule, s: Server, t: Tid, init: seq<Turn>, turn: Turn, a: Action)
    returns (s': Server, turn': Turn)
    requires InTurn(run, s, t, init, turn) && IsCalm(a) && !a.Locks? && Step(s, t, a).Some?
    ensures Step(s, t, a) == Some(s') && LaterStage(turn, turn')
    ensures if a.Unlocks? then TurnOver(run + [(t, a)], s', t, init, turn')
            else InTurn(run + [(t, a)], s', t, init, turn')
  {
    LastOf(init, turn);
    assert OwnOk(s, t) && Inside(s, t);
    s' := Step(s, t, a).value;
    var e := StepEffect(s, t, a);
    turn' := Later(turn, a, e);
    InsideStep(s, t, a);
    LastTurnOn(s, s', t, a, e, init, turn);
    CalmSnoc(turn.calls, a);
    StepAllTrack(run, s, t, a);
    StepKeepsGood(s, t, a);
    UnlocksLast(t, s.threads[t], s'.threads[t], a, Replay(s.log), Due(s.log), e);
  }

  lemma HolderSpends(s: Server, t: Tid, a: Action)
    requires Good(s) && s.holder == Some(t) && t in s.threads && IsCalm(a) && Step(s, t, a).Some?
    ensures t in Step(s, t, a).value.threads && Budget(Step(s, t, a).value, t) < Budget(s, t) && Budget(s, t) > 0
  {
    assert OwnOk(s, t) && Inside(s, t);
    StepSpends(s, t, a);
    BudgetIsPositive(s, t);
  }

  /** The holder can always make a calm call, which brings its turn closer to the end. */
  lemma HolderCalls(run: Schedule, s: Server, t: Tid, init: seq<Turn>, turn: Turn)
    returns (a: Action, s': Server, turn': Turn)
    requires InTurn(run, s, t, init, turn)
    ensures IsCalm(a) && Step(s, t, a) == Some(s') && LaterStage(turn, turn')
    ensures if a.Unlocks? then TurnOver(run + [(t, a)], s', t, init, turn')
            else InTurn(run + [(t, a)], s', t, init, turn')
    ensures t in s'.threads && Budget(s', t) < Budget(s, t) && Budget(s, t) > 0
  {
    assert OwnOk(s, t) && Inside(s, t);
    a := CalmCall(s, t);
    HolderSpends(s, t, a);
    s', turn' := HolderCall(run, s, t, init, turn, a);
  }

  /** One calm call and then the others. */
  lemma OneBefore(run: Schedule, s: Server, t: Tid, a: Action, next: Server, rest: Schedule, s': Server)
    returns (steps: Schedule)
    requires Good(s) && Step(s, t, a) == Some(next) && IsCalm(a)
    requires Good(next) && Run(next, rest) == Some(s') && OnlyCalm(rest, t)
    ensures OnlyCalm(steps, t) && Run(s, steps) == Some(s') && run + steps == run + [(t, a)] + rest
    ensures steps == [(t, a)] + rest
  {
    steps := [(t, a)] + rest;
    StepThenRun(run, s, t, a, rest);
  }

  /** By calm calls of its own the holder finishes its turn and frees the mutex. */
  lemma {:induction false} FinishesTurn(run: Schedule, s: Server, t: Tid, init: seq<Turn>, turn: Turn)
    returns (steps: Schedule, s': Server, turn': Turn)
    requires InTurn(run, s, t, init, turn)
    ensures OnlyCalm(steps, t) && Run(s, steps) == Some(s') && TurnOver(run + steps, s', t, init, turn')
    ensures LaterStage(turn, turn')
    decreases Budget(s, t)
  {
    var a, next, later := HolderCalls(run, s, t, init, turn);
    if a.Unlocks? {
      s', turn' := next, later;
      steps := OneBefore(run, s, t, a, next, [], s');
      EmptyEnds(run + [(t, a)]);
    } else {
      var rest;
      rest, s', turn' := FinishesTurn(run + [(t, a)], next, t, init, later);
      steps := OneBefore(run, s, t, a, next, rest, s');
    }
  }

  /** From every reachable state in which a thread holds the mutex, calls of that thread alone, none
      of them failing, free the mutex. */
  lemma HolderCanUnlock(run: Schedule, s: Server, t: Tid) returns (steps: Schedule, s': Server)
    requires StateAfter(run) == Some(s) && s.holder == Some(t)
    ensures OnlyCalm(steps, t) && StateAfter(run + steps) == Some(s') && s'.holder == None
  {
    var turns := TurnsOf(run);
    TurnsAreSettled(run, s);
    StateAfterTracks(run);
    SplitLast(turns);
    var turn';
    steps, s', turn' := FinishesTurn(run, s, t, turns[..|turns| - 1], turns[|turns| - 1]);
    StateThenRun(run, s, steps, s');
  }

  // ----- what a calm turn comes to -----

  lemma {:induction false} CalmFate(calls: seq<Action>)
    requires AllCalm(calls)
    ensures FateOf(calls) != Refused && OpenFails !in calls && !WasStopped(calls)
  {
    if calls != [] {
      CalmFate(calls[..|calls| - 1]);
      SplitLast(calls);
    }
  }

  /** What the log of a device with commands l grows by when request r of thread t is served. */
  function Answer(r: Request, t: Tid, l: Log): seq<Event> {
    match r
    case Chunk(data) =>
      if NEWLINE in data then [Wrote(t, data), Replied(t, Exposed(Append(l, data)), true)] else [Wrote(t, data)]
    case Seek(cmd, off) =>
      if cmd < |Stored(l)| && off < |Stored(l)[cmd]|
      then [Sought(t, cmd, off), Replied(t, Stored(l)[cmd][off..] + Concat(Stored(l)[cmd + 1..]), true)]
      else []
    case Malformed => []
  }

  lemma CalmTurnAnswers(turn: Turn, l: Log)
    requires Settled(turn, l) && AllCalm(turn.calls)
    ensures turn.events == Answer(turn.request, turn.tid, l)
  {
    CalmFate(turn.calls);
  }

  // ----- from receiving to the answer -----

  /** Thread t stands where it asks for the mutex. */
  ghost predicate Asks(s: Server, t: Tid) {
    t in s.threads && (s.threads[t].pc.LockSeek? || s.threads[t].pc.LockWrite?)
  }

  lemma ReceiveStep(s: Server, t: Tid, data: bytes, parsed: Option<(u32, u32)>)
    requires t in s.threads && s.threads[t].pc.Recv? && 0 < |data| < BUFFER_SIZE
    requires Inv(s.dev) && !RequestOf(data, parsed).Malformed?
    ensures Step(s, t, Receive(data, parsed)).Some?
    ensures var s' := Step(s, t, Receive(data, parsed)).value;
            Asks(s', t) && s'.log == s.log && s'.holder == s.holder
  {
  }

  lemma LockStep(s: Server, t: Tid)
    requires Inv(s.dev) && Asks(s, t) && s.holder == None
    ensures Step(s, t, Locks).Some?
    ensures var s' := Step(s, t, Locks).value;
            t in s'.threads && s'.log == s.log && s'.holder == Some(t)
  {
  }

  /** Thread t has received a request and waits for the mutex. */
  lemma Receives(run: Schedule, s: Server, t: Tid, data: bytes, parsed: Option<(u32, u32)>) returns (s': Server)
    requires Good(s) && AllTrack(run, s)
    requires t in s.threads && s.threads[t].pc.Recv? && 0 < |data| < BUFFER_SIZE
    requires !RequestOf(data, parsed).Malformed?
    ensures Step(s, t, Receive(data, parsed)) == Some(s') && Good(s')
    ensures Asks(s', t) && s'.log == s.log && s'.holder == s.holder
    ensures var run' := run + [(t, Receive(data, parsed))];
            && AllTrack(run', s') && Heard(run', t) == Heard(run, t) + [RequestOf(data, parsed)]
            && !HasEnded(run', t)
  {
    var a := Receive(data, parsed);
    ReceiveStep(s, t, data, parsed);
    s' := Step(s, t, a).value;
    StepKeepsGood(s, t, a);
    StepAllTrack(run, s, t, a);
    OneMoreStep(run, t, a, t);
  }

  /** It takes the free mutex, and a turn begins for what it heard last. */
  lemma TakesTurn(run: Schedule, s: Server, t: Tid, turns: seq<Turn>) returns (s': Server, turn: Turn)
    requires Good(s) && AllTrack(run, s) && TurnsOk(s, turns)
    requires Asks(s, t) && s.holder == None
    ensures Step(s, t, Locks) == Some(s') && Good(s') && AllTrack(run + [(t, Locks)], s')
    ensures t in s'.threads && s'.log == s.log && s'.holder == Some(t)
    ensures turn == Turn(t, LastHeard(run, t), [], []) && TurnsOk(s', turns + [turn])
  {
    LockStep(s, t);
    s' := Step(s, t, Locks).value;
    turn := Turn(t, LastHeard(run, t), [], []);
    StepKeepsGood(s, t, Locks);
    StepAllTrack(run, s, t, Locks);
    assert Tracks(run, s, t);
    StepTurns(s, t, Locks, turns, run);
    assert Noted(turns, run, t, Locks, News(s, s')) == turns + [turn];
  }

  /** Calm calls add nothing to what a thread heard. */
  lemma {:induction false} CalmHearsNothing(run: Schedule, steps: Schedule, t: Tid)
    requires OnlyCalm(steps, t)
    ensures Heard(run + steps, t) == Heard(run, t) && (HasEnded(run + steps, t) <==> HasEnded(run, t))
  {
    if steps == [] {
      EmptyEnds(run);
    } else {
      var (init, last) := (steps[..|steps| - 1], steps[|steps| - 1]);
      CalmHearsNothing(run, init, t);
      SplitLast(steps);
      Regroup(run, init, [last]);
      NewCalmCall(run + init, t, last.1);
    }
  }

  lemma NewCalmCall(run: Schedule, t: Tid, a: Action)
    requires IsCalm(a)
    ensures Heard(run + [(t, a)], t) == Heard(run, t)
    ensures HasEnded(run + [(t, a)], t) <==> HasEnded(run, t)
  {
    OneMoreStep(run, t, a, t);
    EmptyEnds(Heard(run, t));
  }

  /** The turn of thread t is over, and it made calm calls only. */
  ghost predicate IsServed(run: Schedule, s: Server, t: Tid, turns: seq<Turn>, turn: Turn) {
    TurnOver(run, s, t, turns, turn) && AllCalm(turn.calls)
  }

  /** A thread that asks for the free mutex takes its turn and finishes it. */
  lemma AsksToEnd(run: Schedule, s: Server, t: Tid, turns: seq<Turn>)
    returns (rest: Schedule, s': Server, turn: Turn)
    requires Good(s) && AllTrack(run, s) && TurnsOk(s, turns) && Asks(s, t) && s.holder == None
    ensures OnlyCalm(rest, t) && Run(s, rest) == Some(s') && IsServed(run + rest, s', t, turns, turn)
    ensures turn.tid == t && turn.request == LastHeard(run, t)
  {
    var locked, began := TakesTurn(run, s, t, turns);
    var more;
    more, s', turn := FinishesTurn(run + [(t, Locks)], locked, t, turns, began);
    rest := OneBefore(run, s, t, Locks, locked, more, s');
  }

  /** From a state with the mutex free: receives, takes its turn and finishes it. */
  lemma ReceivesToEnd(run: Schedule, s: Server, t: Tid, data: bytes, parsed: Option<(u32, u32)>, turns: seq<Turn>)
    returns (rest: Schedule, s': Server, turn: Turn)
    requires Good(s) && AllTrack(run, s) && TurnsOk(s, turns) && s.holder == None
    requires t in s.threads && s.threads[t].pc.Recv? && 0 < |data| < BUFFER_SIZE
    requires !RequestOf(data, parsed).Malformed?
    ensures OnlyCalm(rest, t) && Run(s, [(t, Receive(data, parsed))] + rest) == Some(s')
    ensures IsServed(run + ([(t, Receive(data, parsed))] + rest), s', t, turns, turn)
    ensures turn.tid == t && turn.request == RequestOf(data, parsed)
    ensures var run' := run + ([(t, Receive(data, parsed))] + rest);
            Heard(run', t) == Heard(run, t) + [RequestOf(data, parsed)] && !HasEnded(run', t)
  {
    var a := Receive(data, parsed);
    var received := Receives(run, s, t, data, parsed);
    var run1 := run + [(t, a)];
    rest, s', turn := AsksToEnd(run1, received, t, turns);
    StepThenRun(run, s, t, a, rest);
    CalmHearsNothing(run1, rest, t);
  }

  /** The log has grown by the answer. */
  lemma LogIsAnswered(s: Server, s': Server, turns: seq<Turn>, turn: Turn)
    requires LogOf(turns) == s.log && s'.holder == None && TurnsOk(s', turns + [turn]) && AllCalm(turn.calls)
    ensures s'.log == s.log + Answer(turn.request, turn.tid, Replay(s.log))
  {
    LastOf(turns, turn);
    CalmTurnAnswers(turn, Replay(s.log));
  }

  lemma TwoEventsServe(log: seq<Event>, e: Event, f: Event, t: Tid)
    ensures Served(log + [e], t) == Served(log, t) + ServedBy(e, t)
    ensures Served(log + [e, f], t) == Served(log, t) + ServedBy(e, t) + ServedBy(f, t)
  {
    OneMoreEvent(log, e, t);
    OneMoreEvent(log + [e], f, t);
    assert log + [e, f] == log + [e] + [f];
  }

  lemma ServedByAnswer(log: seq<Event>, r: Request, t: Tid, l: Log)
    requires !r.Malformed? && Answer(r, t, l) != []
    ensures Served(log + Answer(r, t, l), t) == Served(log, t) + [r]
  {
    var events := Answer(r, t, l);
    assert ServedBy(events[0], t) == [r];
    TwoEventsServe(log, events[0], events[|events| - 1], t);
    EmptyEnds(Served(log, t) + [r]);
    assert events == if |events| == 1 then [events[0]] else [events[0], events[1]];
  }

  /** Whether the thread receives again, once its request was served. */
  lemma PlaceAfterAnswer(run: Schedule, s: Server, t: Tid, r: Request)
    requires Tracks(run, s, t) && t in s.threads && (s.threads[t].pc.Recv? || s.threads[t].pc.Exit?)
    requires Heard(run, t) == Served(s.log, t) && Heard(run, t) != [] && !HasEnded(run, t)
    requires Heard(run, t)[|Heard(run, t)| - 1] == r
    ensures s.threads[t].pc == if ReceivesAfter(r) then Recv else Exit
  {
    StandsMeans(s.threads[t], Heard(run, t), Served(s.log, t), FateOf(Since(run, t)), HasEnded(run, t));
  }

  /** The request can be answered: there is always something to do for a chunk, and for a seek when
      the byte exists. */
  ghost predicate IsAnswerable(r: Request, l: Log) {
    match r
    case Chunk(_) => true
    case Seek(cmd, off) => cmd < |Stored(l)| && off < |Stored(l)[cmd]|
    case Malformed => false
  }

  lemma AnswersAndReturns(run: Schedule, s: Server, t: Tid, run': Schedule, s': Server,
                          turns: seq<Turn>, turn: Turn)
    requires Tracks(run, s, t) && t in s.threads && s.threads[t].pc.Recv? && LogOf(turns) == s.log
    requires IsServed(run', s', t, turns, turn) && turn.tid == t
    requires IsAnswerable(turn.request, Replay(s.log))
    requires Heard(run', t) == Heard(run, t) + [turn.request] && !HasEnded(run', t)
    ensures s'.log == s.log + Answer(turn.request, t, Replay(s.log))
    ensures s'.threads[t].pc == if ReceivesAfter(turn.request) then Recv else Exit
  {
    LogIsAnswered(s, s', turns, turn);
    ServedByAnswer(s.log, turn.request, t, Replay(s.log));
    assert Tracks(run', s', t);
    PlaceAfterAnswer(run', s', t, turn.request);
  }

  /** From every reachable state with the mutex free, a thread that receives can be served: it gets
      the request, and then calls of its own, none of them failing, lead to a state in which the log
      has grown by exactly the answer, the mutex is free again, and the thread is gone after a chunk
      with a newline and receives again after anything else. */
  lemma ServesRequest(run: Schedule, s: Server, t: Tid, data: bytes, parsed: Option<(u32, u32)>)
    returns (rest: Schedule, s': Server)
    requires StateAfter(run) == Some(s) && s.holder == None
    requires t in s.threads && s.threads[t].pc.Recv? && 0 < |data| < 1024
    requires IsAnswerable(RequestOf(data, parsed), Replay(s.log))
    ensures OnlyCalm(rest, t) && StateAfter(run + ([(t, Receive(data, parsed))] + rest)) == Some(s')
    ensures s'.log == s.log + Answer(RequestOf(data, parsed), t, Replay(s.log))
    ensures s'.holder == None && t in s'.threads
    ensures s'.threads[t].pc == if ReceivesAfter(RequestOf(data, parsed)) then Recv else Exit
  {
    TurnsAreSettled(run, s);
    StateAfterTracks(run);
    var turn;
    rest, s', turn := ReceivesToEnd(run, s, t, data, parsed, TurnsOf(run));
    StateThenRun(run, s, [(t, Receive(data, parsed))] + rest, s');
    AnswersAndReturns(run, s, t, run + ([(t, Receive(data, parsed))] + rest), s', TurnsOf(run), turn);
  }

  /** What the client was sent grows by the reply. */
  lemma SentTheReply(s: Server, s': Server, t: Tid, e: Event, reply: bytes)
    requires Good(s) && Good(s') && t in s.threads && t in s'.threads && !e.Replied?
    requires !s.threads[t].pc.ReadDev? && !s.threads[t].pc.Send?
    requires !s'.threads[t].pc.ReadDev? && !s'.threads[t].pc.Send?
    requires s'.log == s.log + [e, Replied(t, reply, true)]
    ensures s'.threads[t].sent == s.threads[t].sent + reply
  {
    assert SentOk(s, t, s.threads[t]) && SentOk(s', t, s'.threads[t]);
    ReplaySnoc(s.log, e, t);
    ReplaySnoc(s.log + [e], Replied(t, reply, true), t);
    assert s'.log == s.log + [e] + [Replied(t, reply, true)];
    EmptyEnds(Replies(s.log, t));
    EmptyEnds(Replies(s'.log, t));
  }

  // ----- in so many words -----

  /** A chunk with a newline is written and answered with the whole device. */
  lemma ServesLine(run: Schedule, s: Server, t: Tid, chunk: bytes) returns (steps: Schedule, s': Server)
    requires StateAfter(run) == Some(s) && s.holder == None && t in s.threads && s.threads[t].pc.Recv?
    requires 0 < |chunk| < 1024 && 10 in chunk && !StartsWith(chunk, "AESDCHAR_IOCSEEKTO:")
    ensures StateAfter(run + steps) == Some(s') && s'.holder == None
    ensures s'.log == s.log + [Wrote(t, chunk), Replied(t, Exposed(Append(Replay(s.log), chunk)), true)]
    ensures t in s'.threads && s'.threads[t].pc.Exit?
    ensures s'.threads[t].sent == s.threads[t].sent + Exposed(Append(Replay(s.log), chunk))
  {
    SeekRequestText(chunk);
    var rest;
    rest, s' := ServesRequest(run, s, t, chunk, None);
    steps := [(t, Receive(chunk, None))] + rest;
    SentTheReply(s, s', t, Wrote(t, chunk), Exposed(Append(Replay(s.log), chunk)));
  }

  /** A chunk without newline is written, and the thread receives again. */
  lemma ServesPart(run: Schedule, s: Server, t: Tid, chunk: bytes) returns (steps: Schedule, s': Server)
    requires StateAfter(run) == Some(s) && s.holder == None && t in s.threads && s.threads[t].pc.Recv?
    requires 0 < |chunk| < 1024 && 10 !in chunk && !StartsWith(chunk, "AESDCHAR_IOCSEEKTO:")
    ensures StateAfter(run + steps) == Some(s') && s'.holder == None
    ensures s'.log == s.log + [Wrote(t, chunk)]
    ensures t in s'.threads && s'.threads[t].pc.Recv?
  {
    SeekRequestText(chunk);
    var rest;
    rest, s' := ServesRequest(run, s, t, chunk, None);
    steps := [(t, Receive(chunk, None))] + rest;
  }

  /** A seek to an existing byte is answered with the rest of its command and all later ones, and the
      thread receives again. */
  lemma ServesSeek(run: Schedule, s: Server, t: Tid, data: bytes, cmd: u32, off: u32)
    returns (steps: Schedule, s': Server, reply: bytes)
    requires StateAfter(run) == Some(s) && s.holder == None && t in s.threads && s.threads[t].pc.Recv?
    requires |data| < 1024 && StartsWith(data, "AESDCHAR_IOCSEEKTO:")
    requires cmd < |Stored(Replay(s.log))| && off < |Stored(Replay(s.log))[cmd]|
    ensures reply == Stored(Replay(s.log))[cmd][off..] + Concat(Stored(Replay(s.log))[cmd + 1..])
    ensures StateAfter(run + steps) == Some(s') && s'.holder == None
    ensures s'.log == s.log + [Sought(t, cmd, off), Replied(t, reply, true)]
    ensures t in s'.threads && s'.threads[t].pc.Recv? && s'.threads[t].sent == s.threads[t].sent + reply
  {
    reply := Stored(Replay(s.log))[cmd][off..] + Concat(Stored(Replay(s.log))[cmd + 1..]);
    steps, s' := ServesParsedSeek(run, s, t, data, cmd, off);
    SentTheReply(s, s', t, Sought(t, cmd, off), reply);
  }

  lemma ServesParsedSeek(run: Schedule, s: Server, t: Tid, data: bytes, cmd: u32, off: u32)
    returns (steps: Schedule, s': Server)
    requires StateAfter(run) == Some(s) && s.holder == None && t in s.threads && s.threads[t].pc.Recv?
    requires |data| < 1024 && StartsWith(data, "AESDCHAR_IOCSEEKTO:")
    requires cmd < |Stored(Replay(s.log))| && off < |Stored(Replay(s.log))[cmd]|
    ensures StateAfter(run + steps) == Some(s') && s'.holder == None
    ensures s'.log == s.log + Answer(Seek(cmd, off), t, Replay(s.log))
    ensures t in s'.threads && s'.threads[t].pc.Recv?
  {
    SeekRequestText(data);
    var rest;
    rest, s' := ServesRequest(run, s, t, data, Some((cmd, off)));
    steps := [(t, Receive(data, Some((cmd, off))))] + rest;
  }

  // ----- every call can fail -----

  /** The step is possible, leaves the device alone, and takes t to pc; the log grows by `news`. */
  ghost predicate TakesTo(o: Option<Server>, s: Server, t: Tid, pc: Pc, news: seq<Event>) {
    && o.Some? && o.value.dev == s.dev && o.value.log == s.log + news
    && t in o.value.threads && o.value.threads[t].pc == pc
  }

  /** The failing outcomes of the next call of thread t, and where they lead. */
  ghost predicate CanFail(s: Server, t: Tid)
    requires Inv(s.dev) && t in s.threads
  {
    var th := s.threads[t];
    match th.pc
    case Recv => TakesTo(Step(s, t, ReceiveEnds), s, t, Exit, [])
    case LockSeek => TakesTo(Step(s, t, LockFails), s, t, Exit, [])
    case LockWrite => TakesTo(Step(s, t, LockFails), s, t, Exit, [])
    case OpenSeek => TakesTo(Step(s, t, OpenFails), s, t, Unlock, [])
    case OpenWrite => TakesTo(Step(s, t, OpenFails), s, t, Unlock, [])
    case OpenRead => TakesTo(Step(s, t, OpenFails), s, t, Unlock, [])
    case SeekTo =>
      && TakesTo(Step(s, t, Seeks(true, false)), s, t, Close, [])
      && TakesTo(Step(s, t, Seeks(false, true)), s, t, Close, [])
    case WriteDev =>
      th.written == 0 ==>
        && TakesTo(Step(s, t, Writes(WriteEnv(false, Failed, false, Failed))), s, t, Close, [])
        && Step(s, t, Writes(WriteEnv(true, Failed, false, Failed))) == Some(s)
    case ReadDev => TakesTo(Step(s, t, Reads(ReadEnv(true, false))), s, t, Close, [Replied(t, th.reply, false)])
    case Send =>
      th.written < |th.buffer| ==>
        && TakesTo(Step(s, t, SocketStops), s, t, Close, [Replied(t, th.reply, false)])
        && Step(s, t, SocketInterrupted) == Some(s)
        && forall n: nat :: 0 < n <= |th.buffer| - th.written ==> Step(s, t, SocketTakes(n)).Some?
    case _ => true
  }

  /** Each call may fail where the C code checks for it, and what then happens: a failing lock ends the
      thread; after a failing open it unlocks; after a failing ioctl, write, read or send it closes,
      and a readback that stops early is recorded as incomplete.  Interrupted writes and sends change
      nothing, and the socket may take any part of what it is offered. */
  lemma EveryCallCanFail(s: Server, t: Tid)
    requires Reachable(s) && t in s.threads
    ensures CanFail(s, t)
  {
    assert OwnOk(s, t) && (Opened(s, t) ==> s.threads[t].fd in s.fds);
    match s.threads[t].pc
    case WriteDev =>
      if s.threads[t].written == 0 {
        WriteCanFail(s, t);
      }
    case SeekTo => SeekCanFail(s, t);
    case ReadDev => ReadCanFail(s, t);
    case Send => SendCanFail(s, t);
    case _ => WaitCanFail(s, t);
  }

  lemma WaitCanFail(s: Server, t: Tid)
    requires Inv(s.dev) && t in s.threads
    requires var pc := s.threads[t].pc; !pc.WriteDev? && !pc.SeekTo? && !pc.ReadDev? && !pc.Send?
    ensures CanFail(s, t)
  {
    EmptyEnds(s.log);
  }

  lemma SendCanFail(s: Server, t: Tid)
    requires Inv(s.dev) && t in s.threads && s.threads[t].pc.Send?
    ensures CanFail(s, t)
  {
  }

  lemma WriteCanFail(s: Server, t: Tid)
    requires Refines(s.dev, Replay(s.log)) && OwnOk(s, t) && s.threads[t].pc.WriteDev? && s.threads[t].written == 0
    ensures TakesTo(Step(s, t, Writes(WriteEnv(false, Failed, false, Failed))), s, t, Close, [])
    ensures Step(s, t, Writes(WriteEnv(true, Failed, false, Failed))) == Some(s)
  {
    assert s.threads[t].buffer[0..] == s.threads[t].buffer;
    WriteReturns(s, t, WriteEnv(false, Failed, false, Failed));
    WriteReturns(s, t, WriteEnv(true, Failed, false, Failed));
    WriteFacts(s, t, WriteEnv(false, Failed, false, Failed));
    WriteFacts(s, t, WriteEnv(true, Failed, false, Failed));
    EmptyEnds(s.log);
  }

  lemma SeekCanFail(s: Server, t: Tid)
    requires Refines(s.dev, Replay(s.log)) && OwnOk(s, t) && s.threads[t].pc.SeekTo? && s.threads[t].fd in s.fds
    ensures TakesTo(Step(s, t, Seeks(true, false)), s, t, Close, [])
    ensures TakesTo(Step(s, t, Seeks(false, true)), s, t, Close, [])
  {
    EmptyEnds(s.log);
  }

  lemma ReadCanFail(s: Server, t: Tid)
    requires Refines(s.dev, Replay(s.log)) && OwnOk(s, t) && s.threads[t].pc.ReadDev?
    ensures TakesTo(Step(s, t, Reads(ReadEnv(true, false))), s, t, Close, [Replied(t, s.threads[t].reply, false)])
  {
    ReadDelivers(s.dev, true, s.fds[s.threads[t].fd], BUFFER_SIZE - 1, ReadEnv(true, false));
  }

  /** Any thread not seen so far can connect, and receives. */
  lemma AnyoneCanConnect(run: Schedule, s: Server, t: Tid) returns (s': Server)
    requires StateAfter(run) == Some(s) && t !in s.threads
    ensures StateAfter(run + [(t, Connect)]) == Some(s') && s'.log == s.log && s'.holder == s.holder
    ensures t in s'.threads && s'.threads[t].pc.Recv?
  {
    s' := Step(s, t, Connect).value;
    RunOne(s, t, Connect);
    StateThenRun(run, s, [(t, Connect)], s');
  }
}
