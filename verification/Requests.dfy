/** The server's runs as its clients see them: which requests were received, which turn inside
    file_mutex each got, and what came of it.

    Everything here is read off the schedule, that is, off the calls the threads made and what the
    environment answered; the only thing taken from the server's state is what its log grew by. */
module Requests {
  import opened Bytes
  import opened Driver
  import opened CommandLog
  import opened Refinement
  import opened Access
  import opened SocketOps
  import opened Threads
  import opened Server

  datatype Request = Chunk(data: bytes) | Seek(cmd: nat, off: nat) | Malformed

  function RequestOf(data: bytes, parsed: Option<(u32, u32)>): Request {
    if !IsSeekRequest(data) then Chunk(data)
    else if parsed == None then Malformed
    else Seek(parsed.value.0, parsed.value.1)
  }

  /** The bytes begin with the characters of the text. */
  predicate StartsWith(data: bytes, text: string) {
    |data| >= |text| && forall i :: 0 <= i < |text| ==> data[i] as int == text[i] as int
  }

  /** What is taken for a request to seek: the data whose first 19 bytes are this text. */
  lemma SeekRequestText(data: bytes)
    ensures IsSeekRequest(data) <==> StartsWith(data, "AESDCHAR_IOCSEEKTO:")
  {
    var text := "AESDCHAR_IOCSEEKTO:";
    assert |text| == |SEEK_PREFIX| == 19;
    assert forall i :: 0 <= i < |text| ==> SEEK_PREFIX[i] as int == text[i] as int;
    if StartsWith(data, text) {
      assert data[..19] == SEEK_PREFIX;
    }
  }

  /** Everything thread t received, in order. */
  function Heard(run: Schedule, t: Tid): seq<Request> {
    if run == [] then []
    else
      var (u, a) := run[|run| - 1];
      Heard(run[..|run| - 1], t) + if u == t && a.Receive? then [RequestOf(a.data, a.parsed)] else []
  }

  /** The calls thread t has made since it last received something. */
  function Since(run: Schedule, t: Tid): seq<Action> {
    if run == [] then []
    else
      var (u, a) := run[|run| - 1];
      if u != t then Since(run[..|run| - 1], t)
      else if a.Receive? then []
      else Since(run[..|run| - 1], t) + [a]
  }

  /** The request of thread t that event e says was served. */
  function ServedBy(e: Event, t: Tid): seq<Request> {
    match e
    case Wrote(u, chunk) => if u == t then [Chunk(chunk)] else []
    case Sought(u, cmd, off) => if u == t then [Seek(cmd, off)] else []
    case Replied(_, _, _) => []
  }

  /** What the log says was done for thread t, in order. */
  function Served(log: seq<Event>, t: Tid): seq<Request> {
    if log == [] then [] else Served(log[..|log| - 1], t) + ServedBy(log[|log| - 1], t)
  }

  /** What the calls made for a request do to it: it waits until the lock, the first open, a write or
      the ioctl fails, or until a write succeeds, or until the driver was asked to seek. */
  datatype Fate = Waiting | Written | Asked | Refused

  function FateOf(calls: seq<Action>): Fate {
    if calls == [] then Waiting
    else NextFate(FateOf(calls[..|calls| - 1]), calls[|calls| - 1])
  }

  function NextFate(fate: Fate, a: Action): Fate {
    if fate != Waiting then fate
    else
      match a
      case LockFails => Refused
      case OpenFails => Refused
      case Writes(env) => if env.interrupted then Waiting else if Favourable(env) then Written else Refused
      case Seeks(copyFails, interrupted) => if copyFails || interrupted then Refused else Asked
      case _ => Waiting
  }

  lemma OneMoreStep(run: Schedule, t: Tid, a: Action, u: Tid)
    ensures Heard(run + [(t, a)], u) ==
            Heard(run, u) + if u == t && a.Receive? then [RequestOf(a.data, a.parsed)] else []
    ensures Since(run + [(t, a)], u) ==
            if u != t then Since(run, u) else if a.Receive? then [] else Since(run, u) + [a]
  {
    assert (run + [(t, a)])[..|run|] == run;
  }

  lemma OneMoreCall(calls: seq<Action>, a: Action)
    ensures FateOf(calls + [a]) == NextFate(FateOf(calls), a)
  {
    assert (calls + [a])[..|calls|] == calls;
  }

  lemma OneMoreEvent(log: seq<Event>, e: Event, t: Tid)
    ensures Served(log + [e], t) == Served(log, t) + ServedBy(e, t)
  {
    assert (log + [e])[..|log|] == log;
  }

  // ----- what each call does to its thread and to the log -----

  function WithEvent(log: seq<Event>, e: Option<Event>): seq<Event> {
    if e.None? then log else log + [e.value]
  }

  /** A reply of t: a prefix of what is due, and all of it when it ran to the end of the device. */
  ghost predicate IsReply(e: Event, t: Tid, due: bytes) {
    e.Replied? && e.tid == t && e.reply <= due && (e.complete ==> e.reply == due)
  }

  /** Calls that can end a readback before the end of the device: the socket refuses or fails, or a
      read is interrupted or cannot hand its bytes over. */
  predicate StopsReadback(a: Action) {
    a.SocketStops? || (a.Reads? && (a.renv.interrupted || a.renv.copyFails))
  }

  /** When an ioctl is accepted: its argument can be copied, the driver's lock is not interrupted,
      and the byte exists. */
  ghost predicate SeekAccepted(l: Log, cmd: nat, off: nat, a: Action) {
    a == Seeks(false, false) && cmd < |Stored(l)| && off < |Stored(l)[cmd]|
  }

  ghost predicate Receives(th': Thread, a: Action) {
    match a
    case Receive(data, parsed) =>
      (match RequestOf(data, parsed)
       case Chunk(d) => th'.pc.LockWrite? && th'.buffer == d
       case Seek(cmd, off) => th'.pc.LockSeek? && th'.seek == (cmd, off)
       case Malformed => th'.pc.Exit?)
    case ReceiveEnds => th'.pc.Exit?
    case _ => false
  }

  /** Goes on to `next`, or is on its way out after a failing call. */
  ghost predicate GoesOnOr(th: Thread, th': Thread, a: Action, good: Action, next: Pc, bad: Action, out: Pc) {
    || (a == good && th'.pc == next && th'.buffer == th.buffer && th'.seek == th.seek)
    || (a == bad && th'.pc == out && (out.Unlock? ==> !th'.again))
  }

  ghost predicate WritesOnce(t: Tid, th: Thread, th': Thread, a: Action, e: Option<Event>) {
    if a.Writes? then
      && th.written == 0
      && if a.wenv.interrupted then th' == th && e == None
         else if Favourable(a.wenv) then
           th' == th.(written := |th.buffer|) && th'.written > 0 && e == Some(Wrote(t, th.buffer))
         else th'.pc.Close? && !th'.again && e == None
    else
      && a.WriteEnds? && th.written > 0 && e == None
      && if NEWLINE in th.buffer then th'.pc.CloseWrite? else th'.pc.Close? && th'.again
  }

  /** What a call of thread t does, as a protocol over one thread and the log: th becomes th' and
      the log, with the commands l, grows by e. */
  ghost predicate Effect(t: Tid, th: Thread, th': Thread, a: Action, l: Log, due: bytes, e: Option<Event>) {
    match th.pc
    case Recv => e == None && Receives(th', a)
    case LockSeek => e == None && GoesOnOr(th, th', a, Locks, OpenSeek, LockFails, Exit)
    case LockWrite => e == None && GoesOnOr(th, th', a, Locks, OpenWrite, LockFails, Exit)
    case OpenSeek =>
      e == None && GoesOnOr(th, th', a, Opens, SeekTo, OpenFails, Unlock) && (th'.pc.SeekTo? ==> th'.bySeek)
    case OpenWrite =>
      e == None && GoesOnOr(th, th', a, Opens, WriteDev, OpenFails, Unlock) && (th'.pc.WriteDev? ==> th'.written == 0)
    case OpenRead =>
      e == None && GoesOnOr(th, th', a, Opens, ReadDev, OpenFails, Unlock) && (th'.pc.ReadDev? ==> !th'.bySeek)
    case SeekTo =>
      && a.Seeks?
      && if SeekAccepted(l, th.seek.0, th.seek.1, a)
         then th'.pc.ReadDev? && th'.bySeek && e == Some(Sought(t, th.seek.0, th.seek.1))
         else th'.pc.Close? && !th'.again && e == None
    case WriteDev => WritesOnce(t, th, th', a, e)
    case CloseWrite => a.Closes? && th'.pc.OpenRead? && e == None
    case Close => a.Closes? && th'.pc.Unlock? && th'.again == th.again && e == None
    case Unlock => a.Unlocks? && th'.pc == (if th.again then Recv else Exit) && e == None
    case Exit => false
    case _ =>
      && (a.Reads? || a.SocketTakes? || a.SocketInterrupted? || a.SocketStops? || a.SendEnds?)
      && if e == None then (th'.pc.ReadDev? || th'.pc.Send?) && th'.bySeek == th.bySeek
         else
           && IsReply(e.value, t, due) && (e.value.complete || StopsReadback(a))
           && th'.pc.Close? && th'.again == th.bySeek
  }

  /** Step s' of thread t has this effect. */
  ghost predicate HasEffect(s: Server, s': Server, t: Tid, a: Action, e: Option<Event>) {
    && t in s.threads && t in s'.threads
    && s'.log == WithEvent(s.log, e)
    && Effect(t, s.threads[t], s'.threads[t], a, Replay(s.log), Due(s.log), e)
  }

  /** What the device's write call returns, by what the kernel picked. */
  lemma WriteReturns(s: Server, t: Tid, env: WriteEnv)
    requires Refines(s.dev, Replay(s.log))
    requires t in s.threads && s.threads[t].buffer != [] && WriteMay(s.dev, |s.threads[t].buffer|, env)
    ensures var (buffer, ret) := (s.threads[t].buffer, Write(s.dev, Some(s.threads[t].buffer), env).1);
            if Favourable(env) then ret == |buffer| else ret < 0 && (ret == -ERESTARTSYS <==> env.interrupted)
  {
    WriteRefines(s.dev, Replay(s.log), Some(s.threads[t].buffer), env);
  }

  lemma WriteEffect(s: Server, t: Tid, a: Action) returns (e: Option<Event>)
    requires Refines(s.dev, Replay(s.log)) && OwnOk(s, t) && s.threads[t].pc.WriteDev?
    requires StepWrite(s, t, s.threads[t], a).Some?
    ensures HasEffect(s, StepWrite(s, t, s.threads[t], a).value, t, a, e)
  {
    var th := s.threads[t];
    e := None;
    if a.Writes? {
      assert th.written == 0 && th.buffer[0..] == th.buffer;
      WriteReturns(s, t, a.wenv);
      var (dev, ret) := Write(s.dev, Some(th.buffer), a.wenv);
      e := AfterWriteEffect(s, t, a, dev, ret);
    }
  }

  lemma AfterWriteEffect(s: Server, t: Tid, a: Action, dev: Dev, ret: int) returns (e: Option<Event>)
    requires t in s.threads && s.threads[t].pc.WriteDev? && s.threads[t].written == 0 && s.threads[t].buffer != []
    requires a.Writes?
    requires if Favourable(a.wenv) then ret == |s.threads[t].buffer|
             else ret < 0 && (ret == -ERESTARTSYS <==> a.wenv.interrupted)
    ensures HasEffect(s, AfterWrite(s, t, s.threads[t], s.threads[t].buffer, dev, ret), t, a, e)
  {
    e := if Favourable(a.wenv) then Some(Wrote(t, s.threads[t].buffer)) else None;
  }

  lemma SeekEffect(s: Server, t: Tid, a: Action) returns (e: Option<Event>)
    requires Refines(s.dev, Replay(s.log)) && OwnOk(s, t) && s.threads[t].pc.SeekTo?
    requires StepSeek(s, t, s.threads[t], a).Some?
    ensures HasEffect(s, StepSeek(s, t, s.threads[t], a).value, t, a, e)
  {
    var th := s.threads[t];
    IoctlOutcome(s.dev, s.fds[th.fd], IOCSEEKTO, if a.copyFails then None else Some(th.seek), a.interrupted);
    e := if SeekAccepted(Replay(s.log), th.seek.0, th.seek.1, a) then Some(Sought(t, th.seek.0, th.seek.1)) else None;
  }

  lemma ReadEffect(s: Server, t: Tid, a: Action) returns (e: Option<Event>)
    requires Refines(s.dev, Replay(s.log)) && OwnOk(s, t) && s.threads[t].pc.ReadDev?
    requires StepRead(s, t, s.threads[t], a).Some?
    ensures HasEffect(s, StepRead(s, t, s.threads[t], a).value, t, a, e)
  {
    var th := s.threads[t];
    ReadFacts(s.dev, Replay(s.log), s.fds[th.fd], a.renv);
    var ret := Read(s.dev, true, s.fds[th.fd], BUFFER_SIZE - 1, a.renv).1;
    e := if ret > 0 then None else Some(Replied(t, th.reply, ret == 0));
    assert th.reply + [] + Exposed(Replay(s.log))[s.fds[th.fd]..] == Due(s.log);
  }

  lemma SendEffect(s: Server, t: Tid, a: Action) returns (e: Option<Event>)
    requires OwnOk(s, t) && s.threads[t].pc.Send? && StepSend(s, t, s.threads[t], a).Some?
    ensures HasEffect(s, StepSend(s, t, s.threads[t], a).value, t, a, e)
  {
    var th := s.threads[t];
    e := if a.SocketStops? then Some(Replied(t, th.reply, false)) else None;
    assert th.reply <= th.reply + Rest(th) + Exposed(Replay(s.log))[s.fds[th.fd]..];
  }

  lemma RecvEffect(s: Server, t: Tid, a: Action)
    requires t in s.threads && s.threads[t].pc.Recv? && StepRecv(s, t, s.threads[t], a).Some?
    ensures HasEffect(s, StepRecv(s, t, s.threads[t], a).value, t, a, None)
  {
  }

  lemma LockEffect(s: Server, t: Tid, a: Action, next: Pc)
    requires t in s.threads
    requires (s.threads[t].pc.LockSeek? && next.OpenSeek?) || (s.threads[t].pc.LockWrite? && next.OpenWrite?)
    requires StepLock(s, t, s.threads[t], a, next).Some?
    ensures HasEffect(s, StepLock(s, t, s.threads[t], a, next).value, t, a, None)
  {
  }

  lemma OpenEffect(s: Server, t: Tid, a: Action, next: Pc)
    requires t in s.threads && StepOpen(s, t, s.threads[t], a, next).Some?
    requires || (s.threads[t].pc.OpenSeek? && next.SeekTo?)
             || (s.threads[t].pc.OpenWrite? && next.WriteDev?)
             || (s.threads[t].pc.OpenRead? && next.ReadDev?)
    ensures HasEffect(s, StepOpen(s, t, s.threads[t], a, next).value, t, a, None)
  {
  }

  lemma EndEffect(s: Server, t: Tid, a: Action)
    requires Inv(s.dev) && t in s.threads && Step(s, t, a).Some?
    requires s.threads[t].pc.CloseWrite? || s.threads[t].pc.Close? || s.threads[t].pc.Unlock?
    ensures HasEffect(s, Step(s, t, a).value, t, a, None)
  {
  }

  lemma StepEffect(s: Server, t: Tid, a: Action) returns (e: Option<Event>)
    requires Refines(s.dev, Replay(s.log)) && OwnOk(s, t) && Step(s, t, a).Some?
    ensures HasEffect(s, Step(s, t, a).value, t, a, e)
  {
    e := None;
    match s.threads[t].pc
    case SeekTo => e := SeekEffect(s, t, a);
    case WriteDev => e := WriteEffect(s, t, a);
    case ReadDev => e := ReadEffect(s, t, a);
    case Send => e := SendEffect(s, t, a);
    case Recv => RecvEffect(s, t, a);
    case LockSeek => LockEffect(s, t, a, OpenSeek);
    case LockWrite => LockEffect(s, t, a, OpenWrite);
    case OpenSeek => OpenEffect(s, t, a, SeekTo);
    case OpenWrite => OpenEffect(s, t, a, WriteDev);
    case OpenRead => OpenEffect(s, t, a, ReadDev);
    case _ => EndEffect(s, t, a);
  }

  // ----- every request is served, in order -----

  /** The fate of a served request, and of one that was not served. */
  predicate ServedFate(r: Request, fate: Fate) {
    match r
    case Chunk(_) => fate == Written
    case Seek(_, _) => fate == Asked
    case Malformed => false
  }

  predicate RefusedFate(r: Request, fate: Fate) {
    match r
    case Chunk(_) => fate == Refused
    case Seek(_, _) => fate == Refused || fate == Asked
    case Malformed => fate == Waiting
  }

  ghost predicate AllServed(heard: seq<Request>, served: seq<Request>, fate: Fate) {
    served == heard && (heard != [] ==> ServedFate(heard[|heard| - 1], fate))
  }

  ghost predicate LastInHand(heard: seq<Request>, served: seq<Request>, fate: Fate, last: Request) {
    heard == served + [last] && fate == Waiting
  }

  ghost predicate LastRefused(heard: seq<Request>, served: seq<Request>, fate: Fate) {
    && heard != [] && heard == served + [heard[|heard| - 1]]
    && RefusedFate(heard[|heard| - 1], fate)
  }

  /** Whether a thread that has served r goes on receiving. */
  predicate ReceivesAfter(r: Request) {
    match r
    case Chunk(data) => NEWLINE !in data
    case Seek(_, _) => true
    case Malformed => false
  }

  ghost predicate LastServed(heard: seq<Request>, served: seq<Request>, fate: Fate, goesOn: bool) {
    AllServed(heard, served, fate) && heard != [] && ReceivesAfter(heard[|heard| - 1]) == goesOn
  }

  /** The thread may be on its way out: it does not receive again. */
  ghost predicate LeavesRefused(th: Thread, heard: seq<Request>, served: seq<Request>, fate: Fate) {
    LastRefused(heard, served, fate) && !heard[|heard| - 1].Malformed? && !th.again
  }

  /** How far thread th is with what it heard; `ended` says whether it heard the end of its input. */
  ghost predicate Stands(th: Thread, heard: seq<Request>, served: seq<Request>, fate: Fate, ended: bool) {
    match th.pc
    case Recv => AllServed(heard, served, fate) && (heard != [] ==> ReceivesAfter(heard[|heard| - 1]))
    case LockSeek => LastInHand(heard, served, fate, Seek(th.seek.0, th.seek.1))
    case OpenSeek => LastInHand(heard, served, fate, Seek(th.seek.0, th.seek.1))
    case SeekTo => LastInHand(heard, served, fate, Seek(th.seek.0, th.seek.1))
    case LockWrite => LastInHand(heard, served, fate, Chunk(th.buffer))
    case OpenWrite => LastInHand(heard, served, fate, Chunk(th.buffer))
    case WriteDev =>
      if th.written == 0 then LastInHand(heard, served, fate, Chunk(th.buffer))
      else LastServed(heard, served, fate, NEWLINE !in th.buffer)
    case CloseWrite => LastServed(heard, served, fate, false)
    case OpenRead => LastServed(heard, served, fate, false)
    case ReadDev => LastServed(heard, served, fate, th.bySeek)
    case Send => LastServed(heard, served, fate, th.bySeek)
    case Close => LastServed(heard, served, fate, th.again) || LeavesRefused(th, heard, served, fate)
    case Unlock => LastServed(heard, served, fate, th.again) || LeavesRefused(th, heard, served, fate)
    case Exit =>
      || LastRefused(heard, served, fate)
      || LastServed(heard, served, fate, false)
      || (AllServed(heard, served, fate) && ended)
  }

  function HeardNow(heard: seq<Request>, a: Action): seq<Request> {
    if a.Receive? then heard + [RequestOf(a.data, a.parsed)] else heard
  }

  function FateNow(fate: Fate, a: Action): Fate {
    if a.Receive? then Waiting else NextFate(fate, a)
  }

  function EndedNow(ended: bool, a: Action): bool {
    !a.Receive? && (ended || a.ReceiveEnds?)
  }

  function ServedNow(served: seq<Request>, e: Option<Event>, t: Tid): seq<Request> {
    if e.None? then served else served + ServedBy(e.value, t)
  }

  lemma RecvStandsOn(th: Thread, th': Thread, a: Action,
                     heard: seq<Request>, served: seq<Request>, fate: Fate, ended: bool)
    requires th.pc.Recv? && Receives(th', a) && Stands(th, heard, served, fate, ended)
    ensures Stands(th', HeardNow(heard, a), served, FateNow(fate, a), EndedNow(ended, a))
  {
    assert a.Receive? ==> HeardNow(heard, a)[|heard|] == RequestOf(a.data, a.parsed);
  }

  /** While a request is in hand: it stays there, is refused, or is served. */
  lemma HandStandsOn(t: Tid, th: Thread, th': Thread, a: Action, l: Log, due: bytes, e: Option<Event>,
                     heard: seq<Request>, served: seq<Request>, fate: Fate, ended: bool, last: Request)
    requires Effect(t, th, th', a, l, due, e)
    requires Stands(th, heard, served, fate, ended) && LastInHand(heard, served, fate, last)
    requires th.pc.LockSeek? || th.pc.LockWrite? || th.pc.OpenSeek? || th.pc.OpenWrite? || th.pc.SeekTo?
             || (th.pc.WriteDev? && th.written == 0)
    requires last == if th.pc.LockSeek? || th.pc.OpenSeek? || th.pc.SeekTo?
                     then Seek(th.seek.0, th.seek.1) else Chunk(th.buffer)
    ensures Stands(th', heard, ServedNow(served, e, t), NextFate(fate, a), EndedNow(ended, a))
  {
    assert heard[|heard| - 1] == last;
  }

  lemma DoneStandsOn(t: Tid, th: Thread, th': Thread, a: Action, l: Log, due: bytes, e: Option<Event>,
                     heard: seq<Request>, served: seq<Request>, fate: Fate, ended: bool)
    requires Effect(t, th, th', a, l, due, e) && Stands(th, heard, served, fate, ended)
    requires (th.pc.WriteDev? && th.written > 0) || th.pc.CloseWrite? || th.pc.OpenRead?
             || th.pc.ReadDev? || th.pc.Send? || th.pc.Close? || th.pc.Unlock?
    ensures Stands(th', heard, ServedNow(served, e, t), NextFate(fate, a), EndedNow(ended, a))
  {
    EmptyEnds(served);
  }

  lemma StandsOn(t: Tid, th: Thread, th': Thread, a: Action, l: Log, due: bytes, e: Option<Event>,
                 heard: seq<Request>, served: seq<Request>, fate: Fate, ended: bool)
    requires Effect(t, th, th', a, l, due, e) && Stands(th, heard, served, fate, ended)
    ensures Stands(th', HeardNow(heard, a), ServedNow(served, e, t), FateNow(fate, a), EndedNow(ended, a))
  {
    if th.pc.Recv? {
      RecvStandsOn(th, th', a, heard, served, fate, ended);
    } else if th.pc.LockSeek? || th.pc.OpenSeek? || th.pc.SeekTo? {
      HandStandsOn(t, th, th', a, l, due, e, heard, served, fate, ended, Seek(th.seek.0, th.seek.1));
    } else if th.pc.LockWrite? || th.pc.OpenWrite? || (th.pc.WriteDev? && th.written == 0) {
      HandStandsOn(t, th, th', a, l, due, e, heard, served, fate, ended, Chunk(th.buffer));
    } else {
      DoneStandsOn(t, th, th', a, l, due, e, heard, served, fate, ended);
    }
  }

  /** Thread t's input ended. */
  predicate HasEnded(run: Schedule, t: Tid) {
    ReceiveEnds in Since(run, t)
  }

  ghost predicate Tracks(run: Schedule, s: Server, t: Tid) {
    if t in s.threads then
      Stands(s.threads[t], Heard(run, t), Served(s.log, t), FateOf(Since(run, t)), HasEnded(run, t))
    else Heard(run, t) == [] && Served(s.log, t) == []
  }

  lemma OwnTracks(run: Schedule, s: Server, s': Server, t: Tid, a: Action, e: Option<Event>)
    requires HasEffect(s, s', t, a, e) && Tracks(run, s, t)
    ensures Tracks(run + [(t, a)], s', t)
  {
    StandsOn(t, s.threads[t], s'.threads[t], a, Replay(s.log), Due(s.log), e,
             Heard(run, t), Served(s.log, t), FateOf(Since(run, t)), HasEnded(run, t));
    OneMoreStep(run, t, a, t);
    assert HasEnded(run + [(t, a)], t) == EndedNow(HasEnded(run, t), a);
    OneMoreCall(Since(run, t), a);
    EmptyEnds(Heard(run, t));
    if e.Some? {
      OneMoreEvent(s.log, e.value, t);
    }
  }

  /** A step of one thread leaves what another heard, was served and did untouched. */
  lemma OthersTrack(run: Schedule, s: Server, s': Server, t: Tid, a: Action, e: Option<Event>, u: Tid)
    requires u in s'.threads <==> u in s.threads
    requires u in s.threads ==> s'.threads[u] == s.threads[u]
    requires s'.log == WithEvent(s.log, e) && (e.Some? ==> e.value.tid == t)
    requires u != t && Tracks(run, s, u)
    ensures Tracks(run + [(t, a)], s', u)
  {
    OneMoreStep(run, t, a, u);
    if e.Some? {
      OneMoreEvent(s.log, e.value, u);
      assert Served(s.log, u) + [] == Served(s.log, u);
    }
  }

  lemma ConnectTracks(run: Schedule, s: Server, t: Tid, a: Action)
    requires Inv(s.dev) && t !in s.threads && Tracks(run, s, t) && Step(s, t, a).Some?
    ensures Tracks(run + [(t, a)], Step(s, t, a).value, t)
  {
    OneMoreStep(run, t, a, t);
  }

  lemma OneMoreRecorded(s: Server, s': Server, t: Tid) returns (e: Option<Event>)
    requires Records(s, s', t)
    ensures s'.log == WithEvent(s.log, e) && (e.Some? ==> e.value.tid == t)
  {
    if s'.log == s.log {
      e := None;
    } else {
      var x :| s'.log == s.log + [x] && x.tid == t && MayFollow(s.log, x);
      e := Some(x);
    }
  }

  lemma StepTracks(run: Schedule, s: Server, t: Tid, a: Action, u: Tid)
    requires Good(s) && Step(s, t, a).Some? && Tracks(run, s, t) && Tracks(run, s, u)
    ensures Tracks(run + [(t, a)], Step(s, t, a).value, u)
  {
    if t in s.threads {
      assert OwnOk(s, t);
      StepRecords(s, t, a);
    }
    if u != t {
      StepMoves(s, t, a);
      var e := OneMoreRecorded(s, Step(s, t, a).value, t);
      OthersTrack(run, s, Step(s, t, a).value, t, a, e, u);
    } else if t in s.threads {
      var e := StepEffect(s, t, a);
      OwnTracks(run, s, Step(s, t, a).value, t, a, e);
    } else {
      ConnectTracks(run, s, t, a);
    }
  }

  ghost predicate AllTrack(run: Schedule, s: Server) {
    forall t :: Tracks(run, s, t)
  }

  lemma StepAllTrack(run: Schedule, s: Server, t: Tid, a: Action)
    requires Good(s) && Step(s, t, a).Some? && AllTrack(run, s)
    ensures AllTrack(run + [(t, a)], Step(s, t, a).value)
  {
    forall u ensures Tracks(run + [(t, a)], Step(s, t, a).value, u) {
      StepTracks(run, s, t, a, u);
    }
  }

  lemma {:induction false} RunTracks(seen: Schedule, s: Server, steps: Schedule)
    requires Good(s) && Run(s, steps).Some? && AllTrack(seen, s)
    ensures AllTrack(seen + steps, Run(s, steps).value)
    decreases |steps|
  {
    if steps == [] {
      EmptyEnds(seen);
    } else {
      var (t, a) := steps[0];
      StepAllTrack(seen, s, t, a);
      StepKeepsGood(s, t, a);
      OneFromTheRest(seen, steps);
      RunTracks(seen + [(t, a)], Step(s, t, a).value, steps[1..]);
    }
  }

  lemma StartTracks()
    ensures AllTrack([], START)
  {
  }

  /** The thread has a request that it has not yet served or given up. */
  predicate HasInHand(th: Thread) {
    || th.pc.LockSeek? || th.pc.OpenSeek? || th.pc.SeekTo?
    || th.pc.LockWrite? || th.pc.OpenWrite? || (th.pc.WriteDev? && th.written == 0)
  }

  predicate IsLeaving(th: Thread) {
    th.pc.Close? || th.pc.Unlock? || th.pc.Exit?
  }

  /** What is claimed of a thread's requests: all were served, or all but the last, whose fate and
      the thread's place then say why; and whether the thread receives again. */
  ghost predicate ServedInOrder(th: Thread, heard: seq<Request>, served: seq<Request>, fate: Fate, ended: bool) {
    && (served == heard || (heard != [] && served == heard[..|heard| - 1]))
    && (th.pc.Recv? ==> served == heard && (heard != [] ==> ReceivesAfter(heard[|heard| - 1])))
    && (th.pc.Close? || th.pc.Unlock? ==>
          heard != [] && (th.again <==> served == heard && ReceivesAfter(heard[|heard| - 1])))
    && (th.pc.Exit? ==> ended || (heard != [] && !(served == heard && ReceivesAfter(heard[|heard| - 1]))))
    && (heard != [] ==>
          match heard[|heard| - 1]
          case Chunk(_) =>
            && (served == heard <==> fate == Written)
            && (HasInHand(th) <==> fate == Waiting)
            && (fate == Refused ==> IsLeaving(th))
          case Seek(_, _) =>
            && (served == heard ==> fate == Asked)
            && (HasInHand(th) <==> fate == Waiting)
            && (served != heard && !HasInHand(th) ==> IsLeaving(th))
          case Malformed => served != heard && th.pc.Exit?)
  }

  lemma StandsMeans(th: Thread, heard: seq<Request>, served: seq<Request>, fate: Fate, ended: bool)
    requires Stands(th, heard, served, fate, ended)
    ensures ServedInOrder(th, heard, served, fate, ended)
  {
    if heard != served {
      ButLast(heard, served);
    }
  }

  lemma ButLast(heard: seq<Request>, served: seq<Request>)
    requires |heard| == |served| + 1 && served <= heard
    ensures served == heard[..|heard| - 1]
  {
  }

  /** The state after a schedule from the start, if it can happen. */
  ghost function StateAfter(run: Schedule): (s: Option<Server>)
    ensures s.Some? ==> Good(s.value)
  {
    StartIsGood();
    if Run(START, run).Some? then EveryRunIsGood(START, run); Run(START, run) else None
  }

  lemma StateAfterTracks(run: Schedule)
    requires StateAfter(run).Some?
    ensures AllTrack(run, StateAfter(run).value)
  {
    StartTracks();
    RunTracks([], START, run);
    EmptyEnds(run);
  }

  /** Every thread's requests are served in the order they were received, none twice and none left
      out, except possibly the last; back at its receive call a thread has served all.  A chunk is
      written exactly when one of the write calls made for it succeeded; until then the thread has
      it in hand, or its lock, first open or write has failed and the thread is on its way out.  A
      seek is served only by an ioctl that reached the driver; one not served is in hand, or its
      lock, open or ioctl has failed and the thread is on its way out.  A thread receives again after
      every chunk without newline and every seek it has served; it is gone only when its input ended
      or was malformed, when its last request was refused, or after a chunk with a newline. */
  lemma RequestsAreServedInOrder(run: Schedule, s: Server, t: Tid)
    requires StateAfter(run) == Some(s) && t in s.threads
    ensures ServedInOrder(s.threads[t], Heard(run, t), Served(s.log, t), FateOf(Since(run, t)), HasEnded(run, t))
  {
    StateAfterTracks(run);
    assert Tracks(run, s, t);
    StandsMeans(s.threads[t], Heard(run, t), Served(s.log, t), FateOf(Since(run, t)), HasEnded(run, t));
  }
}
