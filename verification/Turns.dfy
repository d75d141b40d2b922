/** The turns threads get inside file_mutex, in the order of their lock calls, and what each does.

    Like Requests, this watches a run from outside: a turn is the request its thread heard last, the
    calls the thread made until it unlocked, and the events the log grew by meanwhile. */
module Turns {
  import opened Bytes
  import opened Driver
  import opened CommandLog
  import opened Threads
  import opened Server
  import opened Requests

  datatype Turn = Turn(tid: Tid, request: Request, calls: seq<Action>, events: seq<Event>)

  predicate IsOpen(turn: Turn) {
    turn.calls == [] || !turn.calls[|turn.calls| - 1].Unlocks?
  }

  function LastHeard(run: Schedule, t: Tid): Request {
    var heard := Heard(run, t);
    if heard == [] then Malformed else heard[|heard| - 1]
  }

  /** A successful lock call begins a turn; whatever its thread does up to unlocking belongs to it. */
  function Noted(turns: seq<Turn>, run: Schedule, t: Tid, a: Action, news: seq<Event>): seq<Turn> {
    if a.Locks? then turns + [Turn(t, LastHeard(run, t), [], [])]
    else if turns == [] then turns
    else
      var turn := turns[|turns| - 1];
      if turn.tid == t && IsOpen(turn)
      then turns[..|turns| - 1] + [turn.(calls := turn.calls + [a], events := turn.events + news)]
      else turns
  }

  /** What the log grew by. */
  function News(s: Server, s': Server): seq<Event> {
    if |s.log| <= |s'.log| then s'.log[|s.log|..] else []
  }

  ghost function Observe(turns: seq<Turn>, seen: Schedule, s: Server, steps: Schedule): seq<Turn>
    requires Good(s)
    decreases |steps|
  {
    if steps == [] then turns
    else
      var (t, a) := steps[0];
      match Step(s, t, a)
      case None => turns
      case Some(s') =>
        StepKeepsGood(s, t, a);
        Observe(Noted(turns, seen, t, a, News(s, s')), seen + [(t, a)], s', steps[1..])
  }

  /** All turns of a run. */
  ghost function TurnsOf(run: Schedule): seq<Turn> {
    StartIsGood();
    Observe([], [], START, run)
  }

  /** The events of all turns laid end to end. */
  function LogOf(turns: seq<Turn>): seq<Event> {
    if turns == [] then [] else LogOf(turns[..|turns| - 1]) + turns[|turns| - 1].events
  }

  // ----- what a turn must come to -----

  /** The bytes a client is to be sent when its request is served and the device, before the turn,
      holds the commands of log l: for a chunk, the whole device after the chunk went in; for a seek,
      the rest of the command sought and all later commands. */
  function DueTo(request: Request, l: Log): bytes {
    match request
    case Chunk(data) => Exposed(Append(l, data))
    case Seek(cmd, off) =>
      if cmd < |Stored(l)| && off < |Stored(l)[cmd]| then Stored(l)[cmd][off..] + Concat(Stored(l)[cmd + 1..]) else []
    case Malformed => []
  }

  /** Some call of the turn could end a readback early. */
  predicate WasStopped(calls: seq<Action>) {
    calls != [] && (WasStopped(calls[..|calls| - 1]) || StopsReadback(calls[|calls| - 1]))
  }

  /** The turn ended with the reply due: all of it, unless a read or a send of the turn failed, and
      a prefix of it in any case. */
  ghost predicate HasReplied(turn: Turn, due: bytes) {
    && |turn.events| == 2 && IsReply(turn.events[1], turn.tid, due)
    && (turn.events[1].complete || WasStopped(turn.calls))
  }

  /** The turn's ioctl reached the driver, and the byte it asked for existed. */
  ghost predicate SeekWorks(turn: Turn, l: Log)
    requires turn.request.Seek?
  {
    var (cmd, off) := (turn.request.cmd, turn.request.off);
    FateOf(turn.calls) == Asked && cmd < |Stored(l)| && off < |Stored(l)[cmd]|
  }

  ghost predicate ChunkSettled(turn: Turn, l: Log)
    requires turn.request.Chunk?
  {
    var data := turn.request.data;
    match FateOf(turn.calls)
    case Refused => turn.events == []
    case Written =>
      if NEWLINE in data && OpenFails !in turn.calls
      then HasReplied(turn, DueTo(turn.request, l)) && turn.events[0] == Wrote(turn.tid, data)
      else turn.events == [Wrote(turn.tid, data)]
    case _ => false
  }

  ghost predicate SeekSettled(turn: Turn, l: Log)
    requires turn.request.Seek?
  {
    && (FateOf(turn.calls) == Asked || FateOf(turn.calls) == Refused)
    && if SeekWorks(turn, l)
       then HasReplied(turn, DueTo(turn.request, l))
            && turn.events[0] == Sought(turn.tid, turn.request.cmd, turn.request.off)
       else turn.events == []
  }

  /** What a whole turn has recorded, when the device held log l before it.  A chunk is recorded as
      written, once and as it was received, exactly when a write call succeeded; then, if it has a
      newline and the reopen did not fail, a reply follows.  A seek is recorded, with the pair that
      was received, exactly when the ioctl reached the driver and the byte exists, and a reply
      follows.  The reply is all that is due unless a read or a send of the turn failed.  Nothing else
      is recorded, and no turn ends without having tried. */
  ghost predicate Settled(turn: Turn, l: Log) {
    match turn.request
    case Chunk(_) => ChunkSettled(turn, l)
    case Seek(_, _) => SeekSettled(turn, l)
    case Malformed => false
  }

  ghost predicate AllSettled(turns: seq<Turn>) {
    turns == [] ||
    (var (init, turn) := (turns[..|turns| - 1], turns[|turns| - 1]);
     AllSettled(init) && !IsOpen(turn) && Settled(turn, Replay(LogOf(init))))
  }

  // ----- a turn under way -----

  /** The turn's chunk has gone in, and the reopen has not failed. */
  ghost predicate HasWritten(turn: Turn) {
    && turn.request.Chunk? && turn.events == [Wrote(turn.tid, turn.request.data)]
    && FateOf(turn.calls) == Written && OpenFails !in turn.calls
  }

  ghost predicate HasSought(turn: Turn, before: Log) {
    && turn.request.Seek? && turn.events == [Sought(turn.tid, turn.request.cmd, turn.request.off)]
    && SeekWorks(turn, before)
  }

  ghost predicate ChunkWaits(turn: Turn, data: bytes) {
    && turn.request == Chunk(data) && turn.events == []
    && FateOf(turn.calls) == Waiting && OpenFails !in turn.calls
  }

  ghost predicate SeekWaits(turn: Turn, cmd: nat, off: nat) {
    turn.request == Seek(cmd, off) && turn.events == [] && FateOf(turn.calls) == Waiting
  }

  /** How the turn stands while thread th holds the mutex: `before` is the log it began with, l the
      log now, and `due` what a readback must send now. */
  ghost predicate Progress(th: Thread, turn: Turn, before: Log, l: Log, due: bytes) {
    match th.pc
    case OpenSeek => SeekWaits(turn, th.seek.0, th.seek.1) && l == before
    case SeekTo => SeekWaits(turn, th.seek.0, th.seek.1) && l == before
    case OpenWrite => ChunkWaits(turn, th.buffer) && l == before
    case WriteDev =>
      if th.written == 0 then ChunkWaits(turn, th.buffer) && l == before
      else HasWritten(turn) && turn.request.data == th.buffer && due == DueTo(turn.request, before)
    case CloseWrite => HasWritten(turn) && NEWLINE in turn.request.data && due == DueTo(turn.request, before)
    case OpenRead => HasWritten(turn) && NEWLINE in turn.request.data && due == DueTo(turn.request, before)
    case ReadDev => ReadingBack(th, turn, before) && due == DueTo(turn.request, before)
    case Send => ReadingBack(th, turn, before) && due == DueTo(turn.request, before)
    case Close => Settled(turn, before)
    case Unlock => Settled(turn, before)
    case _ => false
  }

  ghost predicate ReadingBack(th: Thread, turn: Turn, before: Log) {
    if th.bySeek then HasSought(turn, before) else HasWritten(turn) && NEWLINE in turn.request.data
  }

  function ToSeq(e: Option<Event>): seq<Event> {
    if e.None? then [] else [e.value]
  }

  function Later(turn: Turn, a: Action, e: Option<Event>): Turn {
    turn.(calls := turn.calls + [a], events := turn.events + ToSeq(e))
  }

  function LogAfter(l: Log, e: Option<Event>): Log {
    if e.Some? && e.value.Wrote? then Append(l, e.value.chunk) else l
  }

  function DueNow(l: Log, due: bytes, e: Option<Event>): bytes {
    if e.Some? then DueAfter(LogAfter(l, e), e.value) else due
  }

  lemma CallsGrow(turn: Turn, a: Action, e: Option<Event>)
    ensures var turn' := Later(turn, a, e);
            && FateOf(turn'.calls) == NextFate(FateOf(turn.calls), a)
            && (OpenFails in turn'.calls <==> OpenFails in turn.calls || a == OpenFails)
            && (e == None ==> turn'.events == turn.events)
            && WasStopped(turn'.calls) == (WasStopped(turn.calls) || StopsReadback(a))
            && IsOpen(turn') == !a.Unlocks?
  {
    OneMoreCall(turn.calls, a);
    assert Later(turn, a, e).calls[..|turn.calls|] == turn.calls;
  }

  lemma OpenSeekTurnOn(t: Tid, th: Thread, th': Thread, a: Action, turn: Turn,
                       before: Log, l: Log, due: bytes, e: Option<Event>)
    requires Effect(t, th, th', a, l, due, e) && Progress(th, turn, before, l, due) && th.pc.OpenSeek?
    ensures Progress(th', Later(turn, a, e), before, LogAfter(l, e), DueNow(l, due, e))
  {
    CallsGrow(turn, a, e);
  }

  lemma SeekTurnOn(t: Tid, th: Thread, th': Thread, a: Action, turn: Turn,
                   before: Log, l: Log, due: bytes, e: Option<Event>)
    requires Effect(t, th, th', a, l, due, e) && Progress(th, turn, before, l, due) && turn.tid == t
    requires th.pc.SeekTo?
    ensures Progress(th', Later(turn, a, e), before, LogAfter(l, e), DueNow(l, due, e))
  {
    CallsGrow(turn, a, e);
    if e.Some? {
      assert Later(turn, a, e).events == [e.value];
      assert DueNow(l, due, e) == DueTo(turn.request, before);
    }
  }

  lemma OpenTurnOn(t: Tid, th: Thread, th': Thread, a: Action, turn: Turn,
                   before: Log, l: Log, due: bytes, e: Option<Event>)
    requires Effect(t, th, th', a, l, due, e) && Progress(th, turn, before, l, due) && turn.tid == t
    requires th.pc.OpenWrite?
    ensures Progress(th', Later(turn, a, e), before, LogAfter(l, e), DueNow(l, due, e))
  {
    CallsGrow(turn, a, e);
  }

  lemma WaitingTurnOn(t: Tid, th: Thread, th': Thread, a: Action, turn: Turn,
                      before: Log, l: Log, due: bytes, e: Option<Event>)
    requires Effect(t, th, th', a, l, due, e) && Progress(th, turn, before, l, due) && turn.tid == t
    requires th.pc.WriteDev? && th.written == 0
    ensures Progress(th', Later(turn, a, e), before, LogAfter(l, e), DueNow(l, due, e))
  {
    CallsGrow(turn, a, e);
    if e.Some? {
      assert e.value == Wrote(t, th.buffer);
      assert Later(turn, a, e).events == [e.value];
      assert DueNow(l, due, e) == DueTo(turn.request, before);
    }
  }

  lemma WrittenTurnOn(t: Tid, th: Thread, th': Thread, a: Action, turn: Turn,
                      before: Log, l: Log, due: bytes, e: Option<Event>)
    requires Effect(t, th, th', a, l, due, e) && Progress(th, turn, before, l, due) && turn.tid == t
    requires (th.pc.WriteDev? && th.written > 0) || th.pc.CloseWrite? || th.pc.OpenRead?
    ensures Progress(th', Later(turn, a, e), before, LogAfter(l, e), DueNow(l, due, e))
  {
    CallsGrow(turn, a, e);
  }

  lemma ReadbackTurnOn(t: Tid, th: Thread, th': Thread, a: Action, turn: Turn,
                       before: Log, l: Log, due: bytes, e: Option<Event>)
    requires Effect(t, th, th', a, l, due, e) && Progress(th, turn, before, l, due) && turn.tid == t
    requires th.pc.ReadDev? || th.pc.Send?
    ensures Progress(th', Later(turn, a, e), before, LogAfter(l, e), DueNow(l, due, e))
  {
    CallsGrow(turn, a, e);
    if e.Some? {
      assert Later(turn, a, e).events == [turn.events[0], e.value];
    }
  }

  lemma SettledTurnOn(turn: Turn, a: Action, before: Log)
    requires Settled(turn, before) && (a.Closes? || a.Unlocks?)
    ensures Settled(Later(turn, a, None), before)
  {
    CallsGrow(turn, a, None);
  }

  lemma WriteTurnOn(t: Tid, th: Thread, th': Thread, a: Action, turn: Turn,
                    before: Log, l: Log, due: bytes, e: Option<Event>)
    requires Effect(t, th, th', a, l, due, e) && Progress(th, turn, before, l, due) && turn.tid == t
    requires th.pc.OpenWrite? || th.pc.WriteDev? || th.pc.CloseWrite? || th.pc.OpenRead?
    ensures Progress(th', Later(turn, a, e), before, LogAfter(l, e), DueNow(l, due, e))
  {
    if th.pc.OpenWrite? {
      OpenTurnOn(t, th, th', a, turn, before, l, due, e);
    } else if th.pc.WriteDev? && th.written == 0 {
      WaitingTurnOn(t, th, th', a, turn, before, l, due, e);
    } else {
      WrittenTurnOn(t, th, th', a, turn, before, l, due, e);
    }
  }

  lemma CloseTurnOn(t: Tid, th: Thread, th': Thread, a: Action, turn: Turn,
                    before: Log, l: Log, due: bytes, e: Option<Event>)
    requires Effect(t, th, th', a, l, due, e) && Progress(th, turn, before, l, due) && th.pc.Close?
    ensures Progress(th', Later(turn, a, e), before, LogAfter(l, e), DueNow(l, due, e))
  {
    SettledTurnOn(turn, a, before);
  }

  lemma TurnOn(t: Tid, th: Thread, th': Thread, a: Action, turn: Turn,
               before: Log, l: Log, due: bytes, e: Option<Event>)
    requires Effect(t, th, th', a, l, due, e) && Progress(th, turn, before, l, due) && turn.tid == t
    requires !th.pc.Unlock?
    ensures Progress(th', Later(turn, a, e), before, LogAfter(l, e), DueNow(l, due, e))
  {
    if th.pc.OpenSeek? {
      OpenSeekTurnOn(t, th, th', a, turn, before, l, due, e);
    } else if th.pc.SeekTo? {
      SeekTurnOn(t, th, th', a, turn, before, l, due, e);
    } else if th.pc.ReadDev? || th.pc.Send? {
      ReadbackTurnOn(t, th, th', a, turn, before, l, due, e);
    } else if th.pc.Close? {
      CloseTurnOn(t, th, th', a, turn, before, l, due, e);
    } else {
      WriteTurnOn(t, th, th', a, turn, before, l, due, e);
    }
  }

  /** Only the last call inside the critical section unlocks, and none locks. */
  lemma UnlocksLast(t: Tid, th: Thread, th': Thread, a: Action, l: Log, due: bytes, e: Option<Event>)
    requires Effect(t, th, th', a, l, due, e) && Critical(th.pc)
    ensures !a.Locks? && (a.Unlocks? <==> th.pc.Unlock?)
    ensures th.pc.Unlock? ==> e == None
  {
  }

  // ----- all turns of a run -----

  /** The last of the turns is the mutex holder's, and under way. */
  ghost predicate HolderTurn(s: Server, t: Tid, turns: seq<Turn>) {
    && turns != [] && t in s.threads
    && var (init, turn) := (turns[..|turns| - 1], turns[|turns| - 1]);
       && AllSettled(init)
       && turn.tid == t && IsOpen(turn)
       && Progress(s.threads[t], turn, Replay(LogOf(init)), Replay(s.log), Due(s.log))
  }

  /** The log is the turns' events laid end to end, and every turn but one under way is settled. */
  ghost predicate TurnsOk(s: Server, turns: seq<Turn>) {
    && LogOf(turns) == s.log
    && if s.holder == None then AllSettled(turns) else HolderTurn(s, s.holder.value, turns)
  }

  lemma LastOf<T>(init: seq<T>, x: T)
    ensures (init + [x])[..|init + [x]| - 1] == init && (init + [x])[|init + [x]| - 1] == x
  {
  }

  lemma NewsAre(s: Server, s': Server, e: Option<Event>)
    requires s'.log == WithEvent(s.log, e)
    ensures News(s, s') == ToSeq(e)
    ensures Replay(s'.log) == LogAfter(Replay(s.log), e)
    ensures Due(s'.log) == DueNow(Replay(s.log), Due(s.log), e)
  {
    if e.Some? {
      ReplaySnoc(s.log, e.value, 0);
      LastOf(s.log, e.value);
    }
  }

  lemma LogOfLater(init: seq<Turn>, turn: Turn, a: Action, e: Option<Event>)
    ensures LogOf(init + [Later(turn, a, e)]) == WithEvent(LogOf(init + [turn]), e)
  {
    LastOf(init, turn);
    LastOf(init, Later(turn, a, e));
    Regroup(LogOf(init), turn.events, ToSeq(e));
    EmptyEnds(turn.events);
  }

  lemma NotedInLast(init: seq<Turn>, turn: Turn, run: Schedule, t: Tid, a: Action, e: Option<Event>)
    requires turn.tid == t && IsOpen(turn) && !a.Locks?
    ensures Noted(init + [turn], run, t, a, ToSeq(e)) == init + [Later(turn, a, e)]
  {
    LastOf(init, turn);
  }

  /** Unlocking ends the holder's turn. */
  lemma LastTurnEnds(s: Server, s': Server, t: Tid, a: Action, init: seq<Turn>, turn: Turn)
    requires AllSettled(init) && LogOf(init + [turn]) == s.log && Settled(turn, Replay(LogOf(init)))
    requires a.Unlocks? && s'.log == s.log && s'.holder == None
    ensures TurnsOk(s', init + [Later(turn, a, None)])
  {
    SettledTurnOn(turn, a, Replay(LogOf(init)));
    LogOfLater(init, turn, a, None);
    LastOf(init, Later(turn, a, None));
    CallsGrow(turn, a, None);
  }

  /** Any other call leaves it under way. */
  lemma LastTurnGoesOn(s: Server, s': Server, t: Tid, a: Action, e: Option<Event>, init: seq<Turn>, turn: Turn)
    requires AllSettled(init) && turn.tid == t && LogOf(init + [turn]) == s.log
    requires HasEffect(s, s', t, a, e) && s'.holder == Some(t) && !s.threads[t].pc.Unlock? && !a.Unlocks?
    requires Progress(s.threads[t], turn, Replay(LogOf(init)), Replay(s.log), Due(s.log))
    ensures TurnsOk(s', init + [Later(turn, a, e)])
  {
    TurnOn(t, s.threads[t], s'.threads[t], a, turn, Replay(LogOf(init)), Replay(s.log), Due(s.log), e);
    NewsAre(s, s', e);
    LogOfLater(init, turn, a, e);
    LastOf(init, Later(turn, a, e));
    CallsGrow(turn, a, e);
  }

  /** The turns once the holder has made one more call. */
  lemma LastTurnOn(s: Server, s': Server, t: Tid, a: Action, e: Option<Event>, init: seq<Turn>, turn: Turn)
    requires AllSettled(init) && turn.tid == t && LogOf(init + [turn]) == s.log
    requires HasEffect(s, s', t, a, e) && s'.holder == if a.Unlocks? then None else Some(t)
    requires Progress(s.threads[t], turn, Replay(LogOf(init)), Replay(s.log), Due(s.log))
    ensures TurnsOk(s', init + [Later(turn, a, e)])
    ensures !a.Locks?
  {
    UnlocksLast(t, s.threads[t], s'.threads[t], a, Replay(s.log), Due(s.log), e);
    if a.Unlocks? {
      LastTurnEnds(s, s', t, a, init, turn);
    } else {
      LastTurnGoesOn(s, s', t, a, e, init, turn);
    }
  }

  lemma SplitLast<T>(s: seq<T>)
    requires s != []
    ensures s == s[..|s| - 1] + [s[|s| - 1]]
  {
  }

  /** The holder's calls belong to the last turn, and unlocking ends it settled. */
  lemma HolderStepTurns(s: Server, s': Server, t: Tid, a: Action, e: Option<Event>, turns: seq<Turn>, run: Schedule)
    requires TurnsOk(s, turns) && s.holder == Some(t) && HasEffect(s, s', t, a, e)
    requires s'.holder == if a.Unlocks? then None else Some(t)
    ensures TurnsOk(s', Noted(turns, run, t, a, News(s, s')))
  {
    var (init, turn) := (turns[..|turns| - 1], turns[|turns| - 1]);
    SplitLast(turns);
    LastTurnOn(s, s', t, a, e, init, turn);
    NewsAre(s, s', e);
    NotedInLast(init, turn, run, t, a, e);
  }

  lemma HeardAtLock(th: Thread, heard: seq<Request>, served: seq<Request>, fate: Fate, ended: bool)
    requires Stands(th, heard, served, fate, ended) && (th.pc.LockSeek? || th.pc.LockWrite?)
    ensures heard != []
    ensures heard[|heard| - 1] == if th.pc.LockSeek? then Seek(th.seek.0, th.seek.1) else Chunk(th.buffer)
  {
    var last := if th.pc.LockSeek? then Seek(th.seek.0, th.seek.1) else Chunk(th.buffer);
    assert heard == served + [last];
  }

  /** Taking the mutex begins a turn with what the thread heard last. */
  lemma LockStepTurns(s: Server, s': Server, t: Tid, turns: seq<Turn>, run: Schedule)
    requires TurnsOk(s, turns) && s.holder == None && s'.holder == Some(t) && HasEffect(s, s', t, Locks, None)
    requires Tracks(run, s, t)
    ensures TurnsOk(s', Noted(turns, run, t, Locks, News(s, s')))
  {
    var turn := Turn(t, LastHeard(run, t), [], []);
    LastOf(turns, turn);
    EmptyEnds(LogOf(turns));
    HeardAtLock(s.threads[t], Heard(run, t), Served(s.log, t), FateOf(Since(run, t)), HasEnded(run, t));
    assert FateOf([]) == Waiting;
    assert HolderTurn(s', t, turns + [turn]);
  }

  /** Nobody else's calls belong to any turn. */
  lemma OtherStepTurns(s: Server, s': Server, t: Tid, a: Action, turns: seq<Turn>, run: Schedule)
    requires TurnsOk(s, turns) && s.holder != Some(t) && !a.Locks?
    requires s'.holder == s.holder && s'.log == s.log
    requires s.holder.Some? ==> s.holder.value in s'.threads && s'.threads[s.holder.value] == s.threads[s.holder.value]
    ensures TurnsOk(s', Noted(turns, run, t, a, News(s, s')))
  {
  }

  /** Steps outside the critical section, and those into it. */
  lemma OutsideStep(s: Server, t: Tid, a: Action)
    requires MutexOk(s) && Inv(s.dev) && !Inside(s, t) && Step(s, t, a).Some?
    ensures var s' := Step(s, t, a).value;
            && s'.log == s.log
            && s'.holder == (if a.Locks? then Some(t) else s.holder)
            && (a.Locks? ==> s.holder == None && t in s.threads)
            && (forall u :: u in s.threads && u != t ==> u in s'.threads && s'.threads[u] == s.threads[u])
  {
  }

  lemma InsideStep(s: Server, t: Tid, a: Action)
    requires MutexOk(s) && Inv(s.dev) && Inside(s, t) && Step(s, t, a).Some?
    ensures s.holder == Some(t)
    ensures Step(s, t, a).value.holder == if a.Unlocks? then None else Some(t)
  {
  }

  lemma StepTurns(s: Server, t: Tid, a: Action, turns: seq<Turn>, run: Schedule)
    requires Good(s) && Step(s, t, a).Some? && TurnsOk(s, turns) && Tracks(run, s, t)
    ensures TurnsOk(Step(s, t, a).value, Noted(turns, run, t, a, News(s, Step(s, t, a).value)))
  {
    var s' := Step(s, t, a).value;
    if Inside(s, t) {
      assert OwnOk(s, t);
      InsideStep(s, t, a);
      var e := StepEffect(s, t, a);
      HolderStepTurns(s, s', t, a, e, turns, run);
    } else {
      OutsideStep(s, t, a);
      if a.Locks? {
        assert OwnOk(s, t);
        var e := StepEffect(s, t, a);
        assert e == None;
        LockStepTurns(s, s', t, turns, run);
      } else {
        OtherStepTurns(s, s', t, a, turns, run);
      }
    }
  }

  lemma {:induction false} RunTurns(turns: seq<Turn>, seen: Schedule, s: Server, steps: Schedule)
    requires Good(s) && Run(s, steps).Some? && TurnsOk(s, turns) && AllTrack(seen, s)
    ensures TurnsOk(Run(s, steps).value, Observe(turns, seen, s, steps))
    decreases |steps|
  {
    if steps != [] {
      var (t, a) := steps[0];
      var s' := Step(s, t, a).value;
      assert Tracks(seen, s, t);
      StepTurns(s, t, a, turns, seen);
      StepAllTrack(seen, s, t, a);
      StepKeepsGood(s, t, a);
      RunTurns(Noted(turns, seen, t, a, News(s, s')), seen + [(t, a)], s', steps[1..]);
    }
  }

  /** In every run the log is the turns' events laid end to end, in the order the mutex was taken,
      and every turn that is over has recorded exactly what it must. */
  lemma TurnsAreSettled(run: Schedule, s: Server)
    requires StateAfter(run) == Some(s)
    ensures TurnsOk(s, TurnsOf(run))
  {
    StartTracks();
    RunTurns([], [], START, run);
  }

  /** The same, turn by turn. */
  lemma {:induction false} SettledAt(turns: seq<Turn>, k: nat)
    requires AllSettled(turns) && k < |turns|
    ensures !IsOpen(turns[k]) && Settled(turns[k], Replay(LogOf(turns[..k])))
  {
    var init := turns[..|turns| - 1];
    if k < |init| {
      SettledAt(init, k);
      assert init[..k] == turns[..k];
    }
  }

  // ----- the chunks that reached the device -----

  /** The chunks of the turns whose write succeeded, in the order the mutex was taken. */
  function ChunksWritten(turns: seq<Turn>): seq<bytes> {
    if turns == [] then []
    else
      var turn := turns[|turns| - 1];
      ChunksWritten(turns[..|turns| - 1]) + WrittenIn(turn)
  }

  function WrittenIn(turn: Turn): seq<bytes> {
    if turn.request.Chunk? && FateOf(turn.calls) == Written then [turn.request.data] else []
  }

  /** The chunks of the recorded writes. */
  function Chunks(log: seq<Event>): seq<bytes> {
    if log == [] then []
    else
      var e := log[|log| - 1];
      Chunks(log[..|log| - 1]) + if e.Wrote? then [e.chunk] else []
  }

  lemma ChunksSnoc(log: seq<Event>, e: Event)
    ensures Chunks(log + [e]) == Chunks(log) + if e.Wrote? then [e.chunk] else []
  {
    LastOf(log, e);
  }

  /** A turn, settled or under way, records a write exactly if it made one. */
  ghost predicate RecordsItsWrite(turn: Turn) {
    if WrittenIn(turn) == [] then
      || turn.events == []
      || (turn.events[0].Sought? && (|turn.events| == 1 || (|turn.events| == 2 && turn.events[1].Replied?)))
    else
      turn.events != [] && turn.events[0] == Wrote(turn.tid, WrittenIn(turn)[0])
      && (|turn.events| == 1 || (|turn.events| == 2 && turn.events[1].Replied?))
  }

  lemma ChunksOfTurn(log: seq<Event>, turn: Turn)
    requires RecordsItsWrite(turn)
    ensures Chunks(log + turn.events) == Chunks(log) + WrittenIn(turn)
  {
    if turn.events == [] {
      EmptyEnds(log);
    } else {
      ChunksSnoc(log, turn.events[0]);
      if |turn.events| == 2 {
        assert turn.events == [turn.events[0]] + [turn.events[1]];
        Regroup(log, [turn.events[0]], [turn.events[1]]);
        ChunksSnoc(log + [turn.events[0]], turn.events[1]);
      } else {
        assert turn.events == [turn.events[0]];
      }
    }
    EmptyEnds(Chunks(log));
  }

  lemma SettledRecords(turn: Turn, l: Log)
    requires Settled(turn, l)
    ensures RecordsItsWrite(turn)
  {
  }

  lemma ProgressRecords(th: Thread, turn: Turn, before: Log, l: Log, due: bytes)
    requires Progress(th, turn, before, l, due)
    ensures RecordsItsWrite(turn)
  {
    if th.pc.Close? || th.pc.Unlock? {
      SettledRecords(turn, before);
    }
  }

  lemma {:induction false} ChunksOfSettled(turns: seq<Turn>)
    requires AllSettled(turns)
    ensures Chunks(LogOf(turns)) == ChunksWritten(turns)
  {
    if turns != [] {
      var (init, turn) := (turns[..|turns| - 1], turns[|turns| - 1]);
      ChunksOfSettled(init);
      SettledRecords(turn, Replay(LogOf(init)));
      ChunksOfTurn(LogOf(init), turn);
    }
  }

  /** The log's writes are the chunks of the turns whose write succeeded. */
  lemma ChunksOfTurns(s: Server, turns: seq<Turn>)
    requires TurnsOk(s, turns)
    ensures Chunks(s.log) == ChunksWritten(turns)
  {
    if s.holder == None {
      ChunksOfSettled(turns);
    } else {
      var (init, turn) := (turns[..|turns| - 1], turns[|turns| - 1]);
      ChunksOfSettled(init);
      ProgressRecords(s.threads[s.holder.value], turn, Replay(LogOf(init)), Replay(s.log), Due(s.log));
      ChunksOfTurn(LogOf(init), turn);
    }
  }
}
