/** The socket server's client threads over one shared device.

    Every thread runs `handle_client` one system call at a time; the threads interleave in any
    order, and the environment picks what is received, which calls fail and how much the socket
    takes.  `file_mutex` is the only coordination between them.  The log records, in the order
    they happen, the device writes that succeeded, the accepted seeks and the finished replies. */
module Server {
  import opened Bytes
  import opened RingBuffer
  import opened Driver
  import opened CommandLog
  import opened Refinement
  import opened Access
  import opened SocketOps
  import opened Threads

  /** "AESDCHAR_IOCSEEKTO:" */
  const SEEK_PREFIX: bytes :=
    [65, 69, 83, 68, 67, 72, 65, 82, 95, 73, 79, 67, 83, 69, 69, 75, 84, 79, 58]

  predicate IsSeekRequest(data: bytes) {
    SEEK_PREFIX <= data
  }

  /** Where a thread stands: the next call it makes. */
  datatype Pc =
    | Recv
    | LockSeek | OpenSeek | SeekTo
    | LockWrite | OpenWrite | WriteDev | CloseWrite | OpenRead
    | ReadDev | Send
    | Close | Unlock
    | Exit

  datatype Thread = Thread(
    pc: Pc,
    buffer: bytes,          // what was received, or read back from the device
    written: nat,           // how much of it the current write_all has passed on
    seek: (u32, u32),       // the parsed request
    fd: nat,                // the device descriptor last opened
    bySeek: bool,           // whether it is on the seek path or on the write path
    again: bool,            // whether the thread goes on receiving after unlocking
    reply: bytes,           // what it sent since it last began reading back
    sent: bytes             // everything it ever sent to its client
  )

  const NEW_THREAD := Thread(Recv, [], 0, (0, 0), 0, false, true, [], [])

  datatype Event =
    | Wrote(tid: Tid, chunk: bytes)
    | Sought(tid: Tid, cmd: nat, off: nat)
    | Replied(tid: Tid, reply: bytes, complete: bool)

  datatype Server = Server(
    dev: Dev,
    threads: map<Tid, Thread>,
    holder: Option<Tid>,    // of file_mutex
    fds: map<nat, nat>,     // open device descriptors and their positions
    closed: set<nat>,
    nextFd: nat,
    log: seq<Event>
  )

  const START := Server(FRESH_DEVICE, map[], None, map[], {}, 0, [])

  /** One call of one thread, with the outcome the environment picked. */
  datatype Action =
    | Connect
    | Receive(data: bytes, parsed: Option<(u32, u32)>)
    | ReceiveEnds
    | Locks | LockFails
    | Opens | OpenFails
    | Seeks(copyFails: bool, interrupted: bool)
    | Writes(wenv: WriteEnv)
    | WriteEnds
    | Reads(renv: ReadEnv)
    | SocketTakes(n: nat) | SocketInterrupted | SocketStops
    | SendEnds
    | Closes
    | Unlocks

  function Set(s: Server, t: Tid, th: Thread): Server {
    s.(threads := s.threads[t := th])
  }

  function Say(s: Server, e: Event): Server {
    s.(log := s.log + [e])
  }

  /** Leaving the critical section through close, or directly when nothing is open. */
  function Leave(th: Thread, pc: Pc, again: bool): Thread {
    th.(pc := pc, again := again)
  }

  function OpenDevice(s: Server, t: Tid, th: Thread, next: Pc): Server {
    Set(s, t, th.(pc := next, fd := s.nextFd, bySeek := next.SeekTo?, written := 0, reply := []))
    .(fds := s.fds[s.nextFd := 0], nextFd := s.nextFd + 1)
  }

  function CloseFile(s: Server, t: Tid, th: Thread, next: Pc): Server {
    Set(s, t, th.(pc := next)).(fds := s.fds - {th.fd}, closed := s.closed + {th.fd})
  }

  function StepRecv(s: Server, t: Tid, th: Thread, a: Action): Option<Server> {
    match a
    case Receive(data, parsed) =>
      if !(0 < |data| < BUFFER_SIZE) then None
      else if !IsSeekRequest(data) then Some(Set(s, t, th.(buffer := data, pc := LockWrite)))
      else if parsed == None then Some(Set(s, t, th.(buffer := data, pc := Exit)))
      else Some(Set(s, t, th.(buffer := data, seek := parsed.value, pc := LockSeek)))
    case ReceiveEnds => Some(Set(s, t, th.(pc := Exit)))
    case _ => None
  }

  function StepLock(s: Server, t: Tid, th: Thread, a: Action, next: Pc): Option<Server> {
    match a
    case Locks => if s.holder == None then Some(Set(s, t, th.(pc := next)).(holder := Some(t))) else None
    case LockFails => Some(Set(s, t, th.(pc := Exit)))
    case _ => None
  }

  function StepOpen(s: Server, t: Tid, th: Thread, a: Action, next: Pc): Option<Server> {
    match a
    case Opens => Some(OpenDevice(s, t, th, next))
    case OpenFails => Some(Set(s, t, Leave(th, Unlock, false)))
    case _ => None
  }

  /** The ioctl of an open descriptor. */
  function StepSeek(s: Server, t: Tid, th: Thread, a: Action): Option<Server>
    requires WellFormed(s.dev.ring)
  {
    match a
    case Seeks(copyFails, interrupted) =>
      if th.fd !in s.fds then None
      else
        var (pos, ret) := Ioctl(s.dev, s.fds[th.fd], IOCSEEKTO, if copyFails then None else Some(th.seek), interrupted);
        Some(AfterSeek(s, t, th, pos, ret))
    case _ => None
  }

  function AfterSeek(s: Server, t: Tid, th: Thread, pos: nat, ret: int): Server {
    if ret < 0 then Set(s, t, Leave(th, Close, false))
    else Say(Set(s, t, th.(pc := ReadDev)).(fds := s.fds[th.fd := pos]), Sought(t, th.seek.0, th.seek.1))
  }

  /** One turn of write_all on the device, or its end. */
  ghost function StepWrite(s: Server, t: Tid, th: Thread, a: Action): Option<Server>
    requires Inv(s.dev)
  {
    match a
    case Writes(env) =>
      if th.written >= |th.buffer| || !WriteMay(s.dev, |th.buffer[th.written..]|, env) then None
      else
        var data := th.buffer[th.written..];
        var (dev, ret) := Write(s.dev, Some(data), env);
        Some(AfterWrite(s, t, th, data, dev, ret))
    case WriteEnds =>
      if th.written < |th.buffer| then None
      else if NEWLINE in th.buffer then Some(Set(s, t, th.(pc := CloseWrite)))
      else Some(Set(s, t, Leave(th, Close, true)))
    case _ => None
  }

  /** An interrupted call is made again, a failed one ends write_all. */
  function AfterWrite(s: Server, t: Tid, th: Thread, data: bytes, dev: Dev, ret: int): Server {
    if ret == -ERESTARTSYS then s.(dev := dev)
    else if ret <= 0 then Set(s, t, Leave(th, Close, false)).(dev := dev)
    else Say(Set(s, t, th.(written := th.written + ret)).(dev := dev), Wrote(t, data))
  }

  /** One read of the readback loop; anything but data ends the loop.  Afterwards a thread on the
      seek path goes on receiving, one on the write path leaves. */
  ghost function StepRead(s: Server, t: Tid, th: Thread, a: Action): Option<Server>
    requires Inv(s.dev)
  {
    match a
    case Reads(env) =>
      if th.fd !in s.fds then None
      else
        var (pos, ret, out) := Read(s.dev, true, s.fds[th.fd], BUFFER_SIZE - 1, env);
        Some(AfterRead(s, t, th, pos, ret, out))
    case _ => None
  }

  function AfterRead(s: Server, t: Tid, th: Thread, pos: nat, ret: int, out: bytes): Server {
    if ret > 0 then Set(s, t, th.(pc := Send, buffer := out, written := 0)).(fds := s.fds[th.fd := pos])
    else Say(Set(s, t, Leave(th, Close, th.bySeek)), Replied(t, th.reply, ret == 0))
  }

  /** The thread after the socket took n more bytes. */
  function Passed(th: Thread, n: nat): Thread
    requires th.written + n <= |th.buffer|
  {
    var out := th.buffer[th.written..th.written + n];
    th.(written := th.written + n, reply := th.reply + out, sent := th.sent + out)
  }

  /** One turn of write_all on the socket, or its end. */
  function StepSend(s: Server, t: Tid, th: Thread, a: Action): Option<Server> {
    match a
    case SocketTakes(n) =>
      if 0 < n && th.written + n <= |th.buffer| then Some(Set(s, t, Passed(th, n))) else None
    case SocketInterrupted => if th.written < |th.buffer| then Some(s) else None
    case SocketStops =>
      if th.written < |th.buffer| then
        Some(Say(Set(s, t, Leave(th, Close, th.bySeek)), Replied(t, th.reply, false)))
      else None
    case SendEnds => if th.written < |th.buffer| then None else Some(Set(s, t, th.(pc := ReadDev)))
    case _ => None
  }

  /** One step of thread t, or None when it cannot make that call there. */
  ghost function Step(s: Server, t: Tid, a: Action): Option<Server>
    requires Inv(s.dev)
  {
    if t !in s.threads then
      if a.Connect? then Some(Set(s, t, NEW_THREAD)) else None
    else
      var th := s.threads[t];
      match th.pc
      case Recv => StepRecv(s, t, th, a)
      case LockSeek => StepLock(s, t, th, a, OpenSeek)
      case OpenSeek => StepOpen(s, t, th, a, SeekTo)
      case SeekTo => StepSeek(s, t, th, a)
      case LockWrite => StepLock(s, t, th, a, OpenWrite)
      case OpenWrite => StepOpen(s, t, th, a, WriteDev)
      case WriteDev => StepWrite(s, t, th, a)
      case CloseWrite => if a.Closes? then Some(CloseFile(s, t, th, OpenRead)) else None
      case OpenRead => StepOpen(s, t, th, a, ReadDev)
      case ReadDev => StepRead(s, t, th, a)
      case Send => StepSend(s, t, th, a)
      case Close => if a.Closes? then Some(CloseFile(s, t, th, Unlock)) else None
      case Unlock =>
        if a.Unlocks? then Some(Set(s, t, th.(pc := if th.again then Recv else Exit)).(holder := None)) else None
      case Exit => None
  }

  // ----- the log -----

  /** The command log after the writes recorded so far. */
  function Replay(log: seq<Event>): Log {
    if log == [] then EMPTY_LOG
    else
      var e := log[|log| - 1];
      var before := Replay(log[..|log| - 1]);
      if e.Wrote? then Append(before, e.chunk) else before
  }

  /** The bytes due after event e, with the device as l says: after a seek the rest of the command
      sought and all later ones, otherwise everything. */
  function DueAfter(l: Log, e: Event): bytes {
    if e.Sought? && e.cmd < |Stored(l)| && e.off <= |Stored(l)[e.cmd]| then
      Stored(l)[e.cmd][e.off..] + Concat(Stored(l)[e.cmd + 1..])
    else Exposed(l)
  }

  /** The bytes a readback must send, given what its own thread did last. */
  function Due(log: seq<Event>): bytes {
    if log == [] then [] else DueAfter(Replay(log), log[|log| - 1])
  }

  /** Everything thread t was recorded to have replied. */
  function Replies(log: seq<Event>, t: Tid): bytes {
    if log == [] then []
    else
      var e := log[|log| - 1];
      Replies(log[..|log| - 1], t) + if e.Replied? && e.tid == t then e.reply else []
  }

  /** The log ends with the write or the seek that entitles thread t to a reply. */
  ghost predicate EntitledBy(log: seq<Event>, t: Tid, bySeek: bool) {
    && log != []
    && var e := log[|log| - 1];
       && e.tid == t
       && if bySeek then e.Sought? else e.Wrote? && NEWLINE in e.chunk
  }

  /** Event e may follow the events in `log`. */
  ghost predicate MayFollow(log: seq<Event>, e: Event) {
    match e
    case Wrote(_, chunk) => chunk != [] && !IsSeekRequest(chunk)
    case Sought(_, cmd, off) => cmd < |Stored(Replay(log))| && off < |Stored(Replay(log))[cmd]|
    case Replied(t, reply, complete) =>
      && (EntitledBy(log, t, true) || EntitledBy(log, t, false))
      && reply <= Due(log)
      && (complete ==> reply == Due(log))
  }

  ghost predicate LogOk(log: seq<Event>) {
    forall i :: 0 <= i < |log| ==> MayFollow(log[..i], log[i])
  }

  // ----- what every step keeps -----

  predicate Critical(pc: Pc) {
    !pc.Recv? && !pc.LockSeek? && !pc.LockWrite? && !pc.Exit?
  }

  predicate HasFd(pc: Pc) {
    pc.SeekTo? || pc.WriteDev? || pc.CloseWrite? || pc.ReadDev? || pc.Send? || pc.Close?
  }

  /** The mutex is held by the one thread inside the critical section, or by nobody. */
  ghost predicate MutexOk(s: Server) {
    && (s.holder.Some? ==> s.holder.value in s.threads && Critical(s.threads[s.holder.value].pc))
    && (forall t :: t in s.threads && Critical(s.threads[t].pc) ==> s.holder == Some(t))
  }

  /** The only device descriptor ever open is the mutex holder's; all others that were opened were
      closed, and none twice. */
  ghost predicate FdsOk(s: Server) {
    && (forall fd: nat :: fd in s.fds ==>
          s.holder.Some? && s.holder.value in s.threads
          && HasFd(s.threads[s.holder.value].pc) && fd == s.threads[s.holder.value].fd)
    && (forall t :: t in s.threads && HasFd(s.threads[t].pc) ==> s.threads[t].fd in s.fds)
    && (forall fd: nat :: fd in s.fds || fd in s.closed <==> fd < s.nextFd)
    && (forall fd: nat :: fd in s.fds ==> fd !in s.closed)
  }

  /** What thread t has still to pass to the socket of the bytes it read. */
  function Rest(th: Thread): bytes {
    if th.pc.Send? && th.written <= |th.buffer| then th.buffer[th.written..] else []
  }

  /** What holds of a thread by where it stands. */
  ghost predicate ThreadOk(s: Server, t: Tid, th: Thread) {
    && (th.pc.LockWrite? || th.pc.OpenWrite? || th.pc.WriteDev? ==> th.buffer != [] && !IsSeekRequest(th.buffer))
    && (th.pc.SeekTo? ==> th.bySeek && th.reply == [])
    && (th.pc.WriteDev? ==>
          || th.written == 0
          || (th.written == |th.buffer| && s.log != [] && s.log[|s.log| - 1] == Wrote(t, th.buffer)))
    && (th.pc.CloseWrite? || th.pc.OpenRead? ==> EntitledBy(s.log, t, false))
    && (th.pc.ReadDev? || th.pc.Send? ==> EntitledBy(s.log, t, th.bySeek) && ReadbackOk(s, th))
  }

  function Whole(sent: bytes, inHand: bytes, ahead: bytes): bytes {
    sent + inHand + ahead
  }

  /** During a readback: what was sent, what is in hand and what lies ahead of the file position
      are together exactly what is due. */
  ghost predicate ReadbackOk(s: Server, th: Thread) {
    && th.fd in s.fds
    && (th.pc.Send? ==> th.written <= |th.buffer|)
    && s.fds[th.fd] <= |Exposed(Replay(s.log))|
    && Whole(th.reply, Rest(th), Exposed(Replay(s.log))[s.fds[th.fd]..]) == Due(s.log)
  }

  /** The client has been sent its recorded replies and the one under way, and nothing else. */
  ghost predicate SentOk(s: Server, t: Tid, th: Thread) {
    th.sent == Replies(s.log, t) + if th.pc.ReadDev? || th.pc.Send? then th.reply else []
  }

  /** Only threads that exist are mentioned in the log. */
  ghost predicate RepliesKnown(s: Server) {
    forall i :: 0 <= i < |s.log| ==> s.log[i].tid in s.threads
  }

  ghost predicate Good(s: Server) {
    && Refines(s.dev, Replay(s.log))
    && LogOk(s.log)
    && MutexOk(s)
    && FdsOk(s)
    && (forall t :: t in s.threads ==> ThreadOk(s, t, s.threads[t]) && SentOk(s, t, s.threads[t]))
    && RepliesKnown(s)
  }

  // ----- each step keeps it -----

  predicate Inside(s: Server, t: Tid) {
    t in s.threads && Critical(s.threads[t].pc)
  }

  predicate Opened(s: Server, t: Tid) {
    t in s.threads && HasFd(s.threads[t].pc)
  }

  /** How a step of thread t may move the mutex: not at all, or t takes it, or t gives it back. */
  ghost predicate MutexMoves(s: Server, s': Server, t: Tid) {
    || (s'.holder == s.holder && Inside(s', t) == Inside(s, t))
    || (s.holder == None && s'.holder == Some(t) && Inside(s', t))
    || (s'.holder == None && Inside(s, t) && !Inside(s', t))
  }

  /** How it may move the descriptors: not at all, or t opens a new one, or t closes its own. */
  ghost predicate FdsMove(s: Server, s': Server, t: Tid) {
    || (s'.fds.Keys == s.fds.Keys && s'.closed == s.closed && s'.nextFd == s.nextFd
        && Opened(s', t) == Opened(s, t) && (Opened(s, t) ==> s'.threads[t].fd == s.threads[t].fd))
    || (Inside(s, t) && !Opened(s, t) && Opened(s', t) && s'.threads[t].fd == s.nextFd
        && s'.fds.Keys == s.fds.Keys + {s.nextFd} && s'.closed == s.closed && s'.nextFd == s.nextFd + 1)
    || (Opened(s, t) && !Opened(s', t)
        && s'.fds.Keys == s.fds.Keys - {s.threads[t].fd} && s'.closed == s.closed + {s.threads[t].fd}
        && s'.nextFd == s.nextFd)
  }

  ghost predicate Moves(s: Server, s': Server, t: Tid) {
    && t in s'.threads
    && s'.threads == s.threads[t := s'.threads[t]]
    && MutexMoves(s, s', t)
    && FdsMove(s, s', t)
    && (!Inside(s, t) ==> s'.dev == s.dev && s'.fds == s.fds && s'.log == s.log)
  }

  lemma RecvMoves(s: Server, t: Tid, a: Action)
    requires t in s.threads && s.threads[t].pc.Recv? && StepRecv(s, t, s.threads[t], a).Some?
    ensures Moves(s, StepRecv(s, t, s.threads[t], a).value, t)
  {
  }

  lemma LockMoves(s: Server, t: Tid, a: Action, next: Pc)
    requires t in s.threads && (s.threads[t].pc.LockSeek? || s.threads[t].pc.LockWrite?)
    requires next.OpenSeek? || next.OpenWrite?
    requires StepLock(s, t, s.threads[t], a, next).Some?
    ensures Moves(s, StepLock(s, t, s.threads[t], a, next).value, t)
  {
  }

  lemma OpenMoves(s: Server, t: Tid, a: Action, next: Pc)
    requires t in s.threads && Inside(s, t) && !Opened(s, t) && Critical(next) && HasFd(next)
    requires StepOpen(s, t, s.threads[t], a, next).Some?
    ensures Moves(s, StepOpen(s, t, s.threads[t], a, next).value, t)
  {
  }

  lemma SeekMoves(s: Server, t: Tid, a: Action)
    requires t in s.threads && s.threads[t].pc.SeekTo? && WellFormed(s.dev.ring)
    requires StepSeek(s, t, s.threads[t], a).Some?
    ensures Moves(s, StepSeek(s, t, s.threads[t], a).value, t)
  {
    assert s.threads[t].fd in s.fds;
  }

  lemma WriteMoves(s: Server, t: Tid, a: Action)
    requires Inv(s.dev) && t in s.threads && s.threads[t].pc.WriteDev?
    requires StepWrite(s, t, s.threads[t], a).Some?
    ensures Moves(s, StepWrite(s, t, s.threads[t], a).value, t)
  {
  }

  lemma ReadMoves(s: Server, t: Tid, a: Action)
    requires Inv(s.dev) && t in s.threads && s.threads[t].pc.ReadDev?
    requires StepRead(s, t, s.threads[t], a).Some?
    ensures Moves(s, StepRead(s, t, s.threads[t], a).value, t)
  {
  }

  lemma SendMoves(s: Server, t: Tid, a: Action)
    requires t in s.threads && s.threads[t].pc.Send? && StepSend(s, t, s.threads[t], a).Some?
    ensures Moves(s, StepSend(s, t, s.threads[t], a).value, t)
  {
  }

  lemma EndMoves(s: Server, t: Tid, a: Action)
    requires Inv(s.dev) && t in s.threads && Step(s, t, a).Some?
    requires s.threads[t].pc.CloseWrite? || s.threads[t].pc.Close? || s.threads[t].pc.Unlock?
    ensures Moves(s, Step(s, t, a).value, t)
  {
  }

  lemma StepMoves(s: Server, t: Tid, a: Action)
    requires Inv(s.dev) && Step(s, t, a).Some?
    ensures Moves(s, Step(s, t, a).value, t)
  {
    if t in s.threads {
      match s.threads[t].pc
      case Recv => RecvMoves(s, t, a);
      case LockSeek => LockMoves(s, t, a, OpenSeek);
      case LockWrite => LockMoves(s, t, a, OpenWrite);
      case OpenSeek => OpenMoves(s, t, a, SeekTo);
      case OpenWrite => OpenMoves(s, t, a, WriteDev);
      case OpenRead => OpenMoves(s, t, a, ReadDev);
      case SeekTo => SeekMoves(s, t, a);
      case WriteDev => WriteMoves(s, t, a);
      case ReadDev => ReadMoves(s, t, a);
      case Send => SendMoves(s, t, a);
      case _ => EndMoves(s, t, a);
    }
  }

  lemma MovesKeepMutex(s: Server, s': Server, t: Tid)
    requires MutexOk(s) && Moves(s, s', t)
    ensures MutexOk(s')
  {
  }

  lemma MovesKeepFds(s: Server, s': Server, t: Tid)
    requires MutexOk(s) && FdsOk(s) && Moves(s, s', t)
    ensures FdsOk(s')
  {
  }

  lemma LogOkSnoc(log: seq<Event>, e: Event)
    requires LogOk(log) && MayFollow(log, e)
    ensures LogOk(log + [e])
  {
    forall i | 0 <= i < |log + [e]| ensures MayFollow((log + [e])[..i], (log + [e])[i]) {
      assert (log + [e])[..i] == log[..i];
      if i == |log| {
        assert log[..i] == log;
      }
    }
  }

  lemma ReplaySnoc(log: seq<Event>, e: Event, t: Tid)
    ensures Replay(log + [e]) == if e.Wrote? then Append(Replay(log), e.chunk) else Replay(log)
    ensures Replies(log + [e], t) == Replies(log, t) + if e.Replied? && e.tid == t then e.reply else []
  {
    assert (log + [e])[..|log|] == log;
  }

  /** Thread t is where it says it is. */
  ghost predicate OwnOk(s: Server, t: Tid) {
    t in s.threads && ThreadOk(s, t, s.threads[t]) && SentOk(s, t, s.threads[t])
  }

  lemma RecvOwn(s: Server, t: Tid, a: Action)
    requires OwnOk(s, t) && s.threads[t].pc.Recv? && StepRecv(s, t, s.threads[t], a).Some?
    ensures OwnOk(StepRecv(s, t, s.threads[t], a).value, t)
  {
    var s' := StepRecv(s, t, s.threads[t], a).value;
    assert s'.log == s.log && s'.threads[t].sent == s.threads[t].sent;
    assert !s'.threads[t].pc.ReadDev? && !s'.threads[t].pc.Send?;
  }

  lemma LockOwn(s: Server, t: Tid, a: Action, next: Pc)
    requires OwnOk(s, t)
    requires (s.threads[t].pc.LockSeek? && next.OpenSeek?) || (s.threads[t].pc.LockWrite? && next.OpenWrite?)
    requires StepLock(s, t, s.threads[t], a, next).Some?
    ensures OwnOk(StepLock(s, t, s.threads[t], a, next).value, t)
  {
  }

  lemma OpenOwn(s: Server, t: Tid, a: Action, next: Pc)
    requires OwnOk(s, t)
    requires || (s.threads[t].pc.OpenSeek? && next.SeekTo?)
             || (s.threads[t].pc.OpenWrite? && next.WriteDev?)
             || (s.threads[t].pc.OpenRead? && next.ReadDev?)
    requires StepOpen(s, t, s.threads[t], a, next).Some?
    ensures OwnOk(StepOpen(s, t, s.threads[t], a, next).value, t)
  {
    var c := Exposed(Replay(s.log));
    assert c[0..] == c;
    WholeIsAhead(c);
  }

  lemma WholeIsAhead(ahead: bytes)
    ensures Whole([], [], ahead) == ahead
  {
  }

  lemma WriteOwn(s: Server, t: Tid, dev: Dev, ret: int)
    requires OwnOk(s, t) && s.threads[t].pc.WriteDev? && s.threads[t].written == 0
    requires ret == |s.threads[t].buffer| || ret < 0
    ensures OwnOk(AfterWrite(s, t, s.threads[t], s.threads[t].buffer, dev, ret), t)
  {
    var th := s.threads[t];
    var s' := AfterWrite(s, t, th, th.buffer, dev, ret);
    if ret >= 0 {
      ReplaySnoc(s.log, Wrote(t, th.buffer), t);
      assert s'.log[|s'.log| - 1] == Wrote(t, th.buffer);
      assert s'.threads[t] == th.(written := |th.buffer|);
    } else {
      assert s'.log == s.log && Replies(s'.log, t) == Replies(s.log, t);
    }
  }

  lemma SeekOwn(s: Server, t: Tid, pos: nat, ret: int)
    requires OwnOk(s, t) && s.threads[t].pc.SeekTo?
    requires ret >= 0 ==>
               var c, (cmd, off) := Stored(Replay(s.log)), s.threads[t].seek;
               && cmd < |c| && off < |c[cmd]| && pos <= |Concat(c)|
               && Concat(c)[pos..] == c[cmd][off..] + Concat(c[cmd + 1..])
    ensures OwnOk(AfterSeek(s, t, s.threads[t], pos, ret), t)
  {
    var th := s.threads[t];
    var e := Sought(t, th.seek.0, th.seek.1);
    ReplaySnoc(s.log, e, t);
    if ret >= 0 {
      var c := Exposed(Replay(s.log));
      assert Due(s.log + [e]) == DueAfter(Replay(s.log), e) == c[pos..];
      WholeIsAhead(c[pos..]);
    }
  }

  lemma ReadOwn(s: Server, t: Tid, pos: nat, ret: int, out: bytes)
    requires OwnOk(s, t) && s.threads[t].pc.ReadDev?
    requires var c, was := Exposed(Replay(s.log)), s.fds[s.threads[t].fd];
             ret > 0 ==> was <= pos <= |c| && out == c[was..pos]
    ensures OwnOk(AfterRead(s, t, s.threads[t], pos, ret, out), t)
  {
    if ret > 0 {
      ReadMoreOwn(s, t, pos, ret, out);
    } else {
      ReadEndOwn(s, t, pos, ret, out);
    }
  }

  lemma ReadMoreOwn(s: Server, t: Tid, pos: nat, ret: int, out: bytes)
    requires OwnOk(s, t) && s.threads[t].pc.ReadDev? && ret > 0
    requires var c, was := Exposed(Replay(s.log)), s.fds[s.threads[t].fd];
             was <= pos <= |c| && out == c[was..pos]
    ensures OwnOk(AfterRead(s, t, s.threads[t], pos, ret, out), t)
  {
    var (c, was) := (Exposed(Replay(s.log)), s.fds[s.threads[t].fd]);
    assert c[was..] == c[was..pos] + c[pos..];
    ReadKeepsWhole(s.threads[t].reply, c[was..pos], c[pos..]);
    assert out[0..] == out;
  }

  lemma ReadEndOwn(s: Server, t: Tid, pos: nat, ret: int, out: bytes)
    requires OwnOk(s, t) && s.threads[t].pc.ReadDev? && ret <= 0
    ensures OwnOk(AfterRead(s, t, s.threads[t], pos, ret, out), t)
  {
    var reply := s.threads[t].reply;
    ReplaySnoc(s.log, Replied(t, reply, ret == 0), t);
    EmptyEnds(Replies(s.log, t) + reply);
  }

  /** Reading moves bytes from what lies ahead to what is in hand. */
  lemma ReadKeepsWhole(reply: bytes, out: bytes, ahead: bytes)
    ensures Whole(reply, out, ahead) == Whole(reply, [], out + ahead)
  {
    Regroup(reply, out, ahead);
    EmptyEnds(reply);
  }

  lemma SendOwn(s: Server, t: Tid, a: Action)
    requires OwnOk(s, t) && s.threads[t].pc.Send? && StepSend(s, t, s.threads[t], a).Some?
    ensures OwnOk(StepSend(s, t, s.threads[t], a).value, t)
  {
    var th := s.threads[t];
    match a
    case SocketTakes(n) => TakesOwn(s, t, n);
    case SocketStops => ReplaySnoc(s.log, Replied(t, th.reply, false), t);
    case SendEnds => assert th.buffer[th.written..] == [];
    case SocketInterrupted =>
  }

  lemma TakesOwn(s: Server, t: Tid, n: nat)
    requires OwnOk(s, t) && s.threads[t].pc.Send?
    requires 0 < n && s.threads[t].written + n <= |s.threads[t].buffer|
    ensures OwnOk(StepSend(s, t, s.threads[t], SocketTakes(n)).value, t)
  {
    var th := s.threads[t];
    PassedKeepsWhole(th, n, Exposed(Replay(s.log))[s.fds[th.fd]..]);
    PassedKeepsSent(th, n, Replies(s.log, t));
  }

  /** Passing n bytes on moves them from what is in hand to what was sent. */
  lemma PassedKeepsWhole(th: Thread, n: nat, ahead: bytes)
    requires th.pc.Send? && th.written + n <= |th.buffer|
    ensures Whole(Passed(th, n).reply, Rest(Passed(th, n)), ahead) == Whole(th.reply, Rest(th), ahead)
  {
    assert th.buffer[th.written..] == th.buffer[th.written..th.written + n] + th.buffer[th.written + n..];
    Regroup(th.reply, th.buffer[th.written..th.written + n], th.buffer[th.written + n..]);
  }

  lemma PassedKeepsSent(th: Thread, n: nat, before: bytes)
    requires th.written + n <= |th.buffer| && th.sent == before + th.reply
    ensures Passed(th, n).sent == before + Passed(th, n).reply
  {
    Regroup(before, th.reply, th.buffer[th.written..th.written + n]);
  }

  // ----- the device and the log -----

  /** What a write call does, as far as the protocol is concerned. */
  lemma WriteFacts(s: Server, t: Tid, env: WriteEnv)
    requires Refines(s.dev, Replay(s.log))
    requires t in s.threads && s.threads[t].buffer != [] && WriteMay(s.dev, |s.threads[t].buffer|, env)
    ensures var buffer := s.threads[t].buffer;
            var (dev, ret) := Write(s.dev, Some(buffer), env);
            || (ret == |buffer| && Refines(dev, Append(Replay(s.log), buffer)))
            || (ret < 0 && dev == s.dev)
  {
    WriteRefines(s.dev, Replay(s.log), Some(s.threads[t].buffer), env);
  }

  lemma SeekFacts(d: Dev, l: Log, pos: nat, copyFails: bool, seek: (u32, u32), interrupted: bool)
    requires Refines(d, l)
    ensures var (pos', ret) := Ioctl(d, pos, IOCSEEKTO, if copyFails then None else Some(seek), interrupted);
            ret >= 0 ==>
              var c := Stored(l);
              && seek.0 < |c| && seek.1 < |c[seek.0]| && pos' <= |Concat(c)|
              && Concat(c)[pos'..] == c[seek.0][seek.1..] + Concat(c[seek.0 + 1..])
  {
    if !copyFails && !interrupted {
      SeekThenFind(d, pos, seek.0, seek.1);
    }
  }

  lemma ReadFacts(d: Dev, l: Log, pos: nat, env: ReadEnv)
    requires Refines(d, l) && pos <= |Exposed(l)|
    ensures var (pos', ret, out) := Read(d, true, pos, BUFFER_SIZE - 1, env);
            && (ret > 0 ==> pos <= pos' <= |Exposed(l)| && out == Exposed(l)[pos..pos'])
            && (ret == 0 ==> pos == |Exposed(l)|)
            && (ret < 0 ==> env.interrupted || env.copyFails)
  {
    ReadDelivers(d, true, pos, BUFFER_SIZE - 1, env);
  }

  lemma StepOwn(s: Server, t: Tid, a: Action)
    requires Refines(s.dev, Replay(s.log)) && OwnOk(s, t) && Step(s, t, a).Some?
    ensures OwnOk(Step(s, t, a).value, t)
  {
    var th := s.threads[t];
    match th.pc
    case Recv => RecvOwn(s, t, a);
    case LockSeek => LockOwn(s, t, a, OpenSeek);
    case LockWrite => LockOwn(s, t, a, OpenWrite);
    case OpenSeek => OpenOwn(s, t, a, SeekTo);
    case OpenWrite => OpenOwn(s, t, a, WriteDev);
    case OpenRead => OpenOwn(s, t, a, ReadDev);
    case SeekTo => SeekToOwn(s, t, a);
    case WriteDev => WriteDevOwn(s, t, a);
    case ReadDev => ReadDevOwn(s, t, a);
    case Send => SendOwn(s, t, a);
    case CloseWrite =>
    case Close =>
    case Unlock =>
    case Exit =>
  }

  lemma SeekToOwn(s: Server, t: Tid, a: Action)
    requires Refines(s.dev, Replay(s.log)) && OwnOk(s, t) && s.threads[t].pc.SeekTo?
    requires StepSeek(s, t, s.threads[t], a).Some?
    ensures OwnOk(StepSeek(s, t, s.threads[t], a).value, t)
  {
    var th := s.threads[t];
    SeekFacts(s.dev, Replay(s.log), s.fds[th.fd], a.copyFails, th.seek, a.interrupted);
    var (pos, ret) := Ioctl(s.dev, s.fds[th.fd], IOCSEEKTO, if a.copyFails then None else Some(th.seek), a.interrupted);
    SeekOwn(s, t, pos, ret);
  }

  lemma ReadDevOwn(s: Server, t: Tid, a: Action)
    requires Refines(s.dev, Replay(s.log)) && OwnOk(s, t) && s.threads[t].pc.ReadDev?
    requires StepRead(s, t, s.threads[t], a).Some?
    ensures OwnOk(StepRead(s, t, s.threads[t], a).value, t)
  {
    var th := s.threads[t];
    ReadFacts(s.dev, Replay(s.log), s.fds[th.fd], a.renv);
    var (pos, ret, out) := Read(s.dev, true, s.fds[th.fd], BUFFER_SIZE - 1, a.renv);
    ReadOwn(s, t, pos, ret, out);
  }

  lemma WriteDevOwn(s: Server, t: Tid, a: Action)
    requires Refines(s.dev, Replay(s.log)) && OwnOk(s, t) && s.threads[t].pc.WriteDev?
    requires StepWrite(s, t, s.threads[t], a).Some?
    ensures OwnOk(StepWrite(s, t, s.threads[t], a).value, t)
  {
    var th := s.threads[t];
    if a.Writes? {
      assert th.written == 0 && th.buffer[0..] == th.buffer;
      WriteFacts(s, t, a.wenv);
      var (dev, ret) := Write(s.dev, Some(th.buffer), a.wenv);
      WriteOwn(s, t, dev, ret);
    }
  }

  /** The event a step records, if any. */
  ghost predicate Records(s: Server, s': Server, t: Tid) {
    || s'.log == s.log
    || exists e :: s'.log == s.log + [e] && e.tid == t && MayFollow(s.log, e)
  }

  /** Away from the device calls and the readback a step records nothing. */
  lemma QuietStep(s: Server, t: Tid, a: Action)
    requires Inv(s.dev) && t in s.threads && Step(s, t, a).Some?
    requires var pc := s.threads[t].pc; !pc.SeekTo? && !pc.WriteDev? && !pc.ReadDev? && !pc.Send?
    ensures Step(s, t, a).value.log == s.log && Step(s, t, a).value.dev == s.dev
  {
  }

  lemma StepRecords(s: Server, t: Tid, a: Action)
    requires Refines(s.dev, Replay(s.log)) && OwnOk(s, t) && Step(s, t, a).Some?
    ensures Records(s, Step(s, t, a).value, t)
    ensures Refines(Step(s, t, a).value.dev, Replay(Step(s, t, a).value.log))
  {
    match s.threads[t].pc
    case SeekTo => SeekStepRecords(s, t, a);
    case WriteDev => WriteRecords(s, t, a);
    case ReadDev => ReadStepRecords(s, t, a);
    case Send => SendRecords(s, t, a);
    case _ => QuietStep(s, t, a);
  }

  lemma SeekStepRecords(s: Server, t: Tid, a: Action)
    requires Refines(s.dev, Replay(s.log)) && OwnOk(s, t) && s.threads[t].pc.SeekTo?
    requires StepSeek(s, t, s.threads[t], a).Some?
    ensures var s' := StepSeek(s, t, s.threads[t], a).value;
            Records(s, s', t) && Replay(s'.log) == Replay(s.log) && s'.dev == s.dev
  {
    var th := s.threads[t];
    SeekFacts(s.dev, Replay(s.log), s.fds[th.fd], a.copyFails, th.seek, a.interrupted);
    var (pos, ret) := Ioctl(s.dev, s.fds[th.fd], IOCSEEKTO, if a.copyFails then None else Some(th.seek), a.interrupted);
    SeekRecords(s, t, pos, ret);
  }

  lemma ReadStepRecords(s: Server, t: Tid, a: Action)
    requires Refines(s.dev, Replay(s.log)) && OwnOk(s, t) && s.threads[t].pc.ReadDev?
    requires StepRead(s, t, s.threads[t], a).Some?
    ensures var s' := StepRead(s, t, s.threads[t], a).value;
            Records(s, s', t) && Replay(s'.log) == Replay(s.log) && s'.dev == s.dev
  {
    var th := s.threads[t];
    ReadFacts(s.dev, Replay(s.log), s.fds[th.fd], a.renv);
    var (pos, ret, out) := Read(s.dev, true, s.fds[th.fd], BUFFER_SIZE - 1, a.renv);
    ReadRecords(s, t, pos, ret, out);
  }

  lemma SeekRecords(s: Server, t: Tid, pos: nat, ret: int)
    requires t in s.threads
    requires ret >= 0 ==>
               var c, (cmd, off) := Stored(Replay(s.log)), s.threads[t].seek;
               cmd < |c| && off < |c[cmd]|
    ensures var s' := AfterSeek(s, t, s.threads[t], pos, ret);
            Records(s, s', t) && Replay(s'.log) == Replay(s.log) && s'.dev == s.dev
  {
    ReplaySnoc(s.log, Sought(t, s.threads[t].seek.0, s.threads[t].seek.1), t);
  }

  lemma ReadRecords(s: Server, t: Tid, pos: nat, ret: int, out: bytes)
    requires OwnOk(s, t) && s.threads[t].pc.ReadDev?
    requires ret == 0 ==> s.fds[s.threads[t].fd] == |Exposed(Replay(s.log))|
    ensures var s' := AfterRead(s, t, s.threads[t], pos, ret, out);
            Records(s, s', t) && Replay(s'.log) == Replay(s.log) && s'.dev == s.dev
  {
    var th := s.threads[t];
    var e := Replied(t, th.reply, ret == 0);
    ReplaySnoc(s.log, e, t);
    assert th.reply + [] + Exposed(Replay(s.log))[s.fds[th.fd]..] == Due(s.log);
    assert MayFollow(s.log, e);
  }

  lemma SendRecords(s: Server, t: Tid, a: Action)
    requires OwnOk(s, t) && s.threads[t].pc.Send? && StepSend(s, t, s.threads[t], a).Some?
    ensures var s' := StepSend(s, t, s.threads[t], a).value;
            Records(s, s', t) && Replay(s'.log) == Replay(s.log) && s'.dev == s.dev
  {
    var th := s.threads[t];
    var e := Replied(t, th.reply, false);
    ReplaySnoc(s.log, e, t);
    assert th.reply <= th.reply + Rest(th) + Exposed(Replay(s.log))[s.fds[th.fd]..];
    assert MayFollow(s.log, e);
  }

  lemma WriteRecords(s: Server, t: Tid, a: Action)
    requires Refines(s.dev, Replay(s.log)) && OwnOk(s, t) && s.threads[t].pc.WriteDev?
    requires StepWrite(s, t, s.threads[t], a).Some?
    ensures var s' := StepWrite(s, t, s.threads[t], a).value;
            Records(s, s', t) && Refines(s'.dev, Replay(s'.log))
  {
    var th := s.threads[t];
    if a.Writes? {
      assert th.written == 0 && th.buffer[0..] == th.buffer;
      WriteFacts(s, t, a.wenv);
      ReplaySnoc(s.log, Wrote(t, th.buffer), t);
    }
  }

  // ----- everything together -----

  lemma OthersUnaffected(s: Server, s': Server, t: Tid, u: Tid)
    requires MutexOk(s) && Moves(s, s', t) && Records(s, s', t) && u != t && OwnOk(s, u)
    ensures OwnOk(s', u)
  {
    if s'.log != s.log {
      var e :| s'.log == s.log + [e] && e.tid == t && MayFollow(s.log, e);
      ReplaySnoc(s.log, e, u);
    }
  }

  lemma {:induction false} NobodyRepliedYet(log: seq<Event>, t: Tid)
    requires forall i :: 0 <= i < |log| ==> log[i].tid != t
    ensures Replies(log, t) == []
  {
    if log != [] {
      NobodyRepliedYet(log[..|log| - 1], t);
    }
  }

  lemma StepKeepsThreads(s: Server, t: Tid, a: Action, u: Tid)
    requires Refines(s.dev, Replay(s.log)) && MutexOk(s) && RepliesKnown(s) && Step(s, t, a).Some?
    requires t in s.threads ==> OwnOk(s, t)
    requires u in s.threads ==> OwnOk(s, u)
    requires u in Step(s, t, a).value.threads
    ensures OwnOk(Step(s, t, a).value, u)
  {
    StepMoves(s, t, a);
    if t in s.threads {
      StepOwn(s, t, a);
      StepRecords(s, t, a);
    }
    if u != t {
      OthersUnaffected(s, Step(s, t, a).value, t, u);
    } else if t !in s.threads {
      NobodyRepliedYet(s.log, t);
    }
  }

  lemma StepKeepsLog(s: Server, t: Tid, a: Action)
    requires Refines(s.dev, Replay(s.log)) && LogOk(s.log) && RepliesKnown(s) && Step(s, t, a).Some?
    requires t in s.threads ==> OwnOk(s, t)
    ensures var s' := Step(s, t, a).value;
            LogOk(s'.log) && RepliesKnown(s') && Refines(s'.dev, Replay(s'.log))
  {
    var s' := Step(s, t, a).value;
    StepMoves(s, t, a);
    if t in s.threads {
      StepRecords(s, t, a);
      if s'.log != s.log {
        var e :| s'.log == s.log + [e] && e.tid == t && MayFollow(s.log, e);
        LogOkSnoc(s.log, e);
      }
    }
  }

  lemma StepKeepsGood(s: Server, t: Tid, a: Action)
    requires Good(s) && Step(s, t, a).Some?
    ensures Good(Step(s, t, a).value)
  {
    var s' := Step(s, t, a).value;
    StepMoves(s, t, a);
    MovesKeepMutex(s, s', t);
    MovesKeepFds(s, s', t);
    StepKeepsLog(s, t, a);
    forall u | u in s'.threads ensures OwnOk(s', u) {
      StepKeepsThreads(s, t, a, u);
    }
  }

  // ----- whole runs -----

  type Schedule = seq<(Tid, Action)>

  /** The state after a schedule, or None if it asks for a call that cannot happen. */
  ghost function Run(s: Server, steps: Schedule): Option<Server>
    requires Good(s)
    decreases |steps|
  {
    if steps == [] then Some(s)
    else
      match Step(s, steps[0].0, steps[0].1)
      case None => None
      case Some(s') =>
        StepKeepsGood(s, steps[0].0, steps[0].1);
        Run(s', steps[1..])
  }

  lemma StartIsGood()
    ensures Good(START)
  {
    FreshRefines();
  }

  lemma {:induction false} EveryRunIsGood(s: Server, steps: Schedule)
    requires Good(s) && Run(s, steps).Some?
    ensures Good(Run(s, steps).value)
    decreases |steps|
  {
    if steps != [] {
      StepKeepsGood(s, steps[0].0, steps[0].1);
      EveryRunIsGood(Step(s, steps[0].0, steps[0].1).value, steps[1..]);
    }
  }
}
