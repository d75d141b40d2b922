/** The life of client threads' list nodes, over every interleaving of the threads with main.

    A thread allocates its node, links it in under `thread_list_mutex`, serves its client, and flags
    the node under the mutex; main, holding the mutex, unlinks, joins and frees flagged nodes after
    each new connection, and all remaining nodes at shutdown.  A node is named by its thread.  Nodes
    live in a map that free removes them from; a step that needs a node that is not there faults. */
module ThreadLifecycle {
  import opened Bytes
  import opened Threads

  /** Where a client thread stands. */
  datatype Pc =
    | Allocating              // about to allocate its node
    | WantsToAdd | Adding | Added
    | Serving | ServingWithoutNode
    | WantsToFlag | Flagging | Flagged
    | Returning(hasNode: bool) // past its last use of the mutex
    | Exited(hasNode: bool)

  /** Where main's walk of the list stands: the last node kept, the node to visit next, and how many
      were kept so far (which no step looks at). */
  datatype Walk = Walk(prev: Option<Tid>, current: Option<Tid>, kept: nat)

  /** Where main stands. */
  datatype MainPc =
    | Accepting
    | WantsToSweep
    | Sweeping(w: Walk)
    | SweepJoin(t: Tid, w: Walk)
    | SweepFree(t: Tid, w: Walk)
    | WantsToClean
    | Cleaning
    | CleanJoin(t: Tid)
    | CleanFree(t: Tid)
    | Over

  datatype Owner = Main | Client(t: Tid)

  datatype Node = Node(next: Option<Tid>, completed: bool)

  /** The last five fields only record what happened: the nodes linked from the head, in order, and
      every node ever linked in, flagged, joined and freed, in order.  No step looks at them. */
  datatype Life = Life(
    threads: map<Tid, Pc>,
    main: MainPc,
    mutex: Option<Owner>,
    head: Option<Tid>,        // thread_list_head
    nodes: map<Tid, Node>,    // the nodes allocated and not freed
    list: seq<Tid>,
    added: seq<Tid>,
    flagged: seq<Tid>,
    joined: seq<Tid>,
    freed: seq<Tid>
  )

  const START := Life(map[], Accepting, None, None, map[], [], [], [], [], [])

  datatype Action =
    | Create(t: Tid)          // main accepts a client and starts its thread
    | ShutDown                // main leaves its accept loop
    | MainMoves               // main's next step otherwise
    | ClientMoves(t: Tid, outOfMemory: bool)

  /** A step waits, touches a node that is not allocated, or leads to a new state. */
  datatype Outcome = Blocked | Fault | Goes(s: Life)

  function At(s: Life, t: Tid, pc: Pc): Life {
    s.(threads := s.threads[t := pc])
  }

  function StepClient(s: Life, t: Tid, outOfMemory: bool): Outcome {
    if t !in s.threads then Blocked
    else
      match s.threads[t]
      case Allocating =>
        Goes(if outOfMemory then At(s, t, ServingWithoutNode)
             else At(s, t, WantsToAdd).(nodes := s.nodes[t := Node(None, false)]))
      case WantsToAdd => if s.mutex == None then Goes(At(s, t, Adding).(mutex := Some(Client(t)))) else Blocked
      case Adding =>
        if t !in s.nodes then Fault
        else Goes(At(s, t, Added).(nodes := s.nodes[t := s.nodes[t].(next := s.head)], head := Some(t),
                                   list := [t] + s.list, added := s.added + [t]))
      case Added => Goes(At(s, t, Serving).(mutex := None))
      case Serving => Goes(At(s, t, WantsToFlag))
      case ServingWithoutNode => Goes(At(s, t, Returning(false)))
      case WantsToFlag => if s.mutex == None then Goes(At(s, t, Flagging).(mutex := Some(Client(t)))) else Blocked
      case Flagging =>
        if t !in s.nodes then Fault
        else Goes(At(s, t, Flagged).(nodes := s.nodes[t := s.nodes[t].(completed := true)],
                                     flagged := s.flagged + [t]))
      case Flagged => Goes(At(s, t, Returning(true)).(mutex := None))
      case Returning(hasNode) => Goes(At(s, t, Exited(hasNode)))
      case Exited(_) => Blocked
  }

  /** The list without its k-th node. */
  function Cut(list: seq<Tid>, k: nat): seq<Tid> {
    if k < |list| then list[..k] + list[k + 1..] else list
  }

  /** One turn of the sweep: unlinks a completed node, or passes on to the next. */
  function Visit(s: Life, w: Walk): Outcome {
    match w.current
    case None => Goes(s.(mutex := None, main := Accepting))
    case Some(c) =>
      if c !in s.nodes then Fault
      else
        var next := s.nodes[c].next;
        if !s.nodes[c].completed then Goes(s.(main := Sweeping(Walk(w.current, next, w.kept + 1))))
        else
          var s' := s.(list := Cut(s.list, w.kept), main := SweepJoin(c, Walk(w.prev, next, w.kept)));
          match w.prev
          case None => Goes(s'.(head := next))
          case Some(p) =>
            if p !in s.nodes then Fault
            else Goes(s'.(nodes := s.nodes[p := s.nodes[p].(next := next)]))
  }

  /** pthread_join on a node's thread returns once the thread has exited. */
  function Join(s: Life, t: Tid, next: MainPc): Outcome {
    if t !in s.nodes then Fault
    else if t in s.threads && s.threads[t].Exited? then Goes(s.(main := next, joined := s.joined + [t]))
    else Blocked
  }

  function Free(s: Life, t: Tid, next: MainPc): Outcome {
    if t !in s.nodes then Fault
    else Goes(s.(main := next, nodes := s.nodes - {t}, freed := s.freed + [t]))
  }

  /** Takes the first node off the list, or ends the cleanup when there is none. */
  function TakeHead(s: Life): Outcome {
    match s.head
    case None => Goes(s.(mutex := None, main := Over))
    case Some(t) =>
      if t !in s.nodes then Fault
      else Goes(s.(head := s.nodes[t].next, list := Cut(s.list, 0), main := CleanJoin(t)))
  }

  function StepMain(s: Life): Outcome {
    match s.main
    case Accepting => Blocked
    case WantsToSweep =>
      if s.mutex == None then Goes(s.(mutex := Some(Main), main := Sweeping(Walk(None, s.head, 0)))) else Blocked
    case Sweeping(w) => Visit(s, w)
    case SweepJoin(t, w) => Join(s, t, SweepFree(t, w))
    case SweepFree(t, w) => Free(s, t, Sweeping(w))
    case WantsToClean =>
      if s.mutex == None then Goes(s.(mutex := Some(Main), main := Cleaning)) else Blocked
    case Cleaning => TakeHead(s)
    case CleanJoin(t) => Join(s, t, CleanFree(t))
    case CleanFree(t) => Free(s, t, Cleaning)
    case Over => Blocked
  }

  function Step(s: Life, a: Action): Outcome {
    match a
    case Create(t) =>
      if s.main.Accepting? && t !in s.threads then Goes(At(s, t, Allocating).(main := WantsToSweep)) else Blocked
    case ShutDown => if s.main.Accepting? then Goes(s.(main := WantsToClean)) else Blocked
    case MainMoves => StepMain(s)
    case ClientMoves(t, outOfMemory) => StepClient(s, t, outOfMemory)
  }

  // ----- what every step keeps -----

  predicate ClientHolds(pc: Pc) {
    pc.Adding? || pc.Added? || pc.Flagging? || pc.Flagged?
  }

  predicate Sweeps(m: MainPc) {
    m.Sweeping? || m.SweepJoin? || m.SweepFree?
  }

  predicate MainHolds(m: MainPc) {
    Sweeps(m) || m.Cleaning? || m.CleanJoin? || m.CleanFree?
  }

  ghost predicate MutexOk(s: Life) {
    && (MainHolds(s.main) <==> s.mutex == Some(Main))
    && (forall t :: t in s.threads && ClientHolds(s.threads[t]) ==> s.mutex == Some(Client(t)))
    && (s.mutex.Some? && s.mutex.value.Client? ==>
          s.mutex.value.t in s.threads && ClientHolds(s.threads[s.mutex.value.t]))
  }

  /** Threads with a node not yet linked in, with a node that has been, and with a flagged one. */
  predicate HasNewNode(pc: Pc) {
    pc.WantsToAdd? || pc.Adding?
  }

  predicate HasAdded(pc: Pc) {
    pc.Added? || pc.Serving? || pc.WantsToFlag? || pc.Flagging? || HasFlagged(pc)
  }

  predicate HasFlagged(pc: Pc) {
    pc.Flagged? || ((pc.Returning? || pc.Exited?) && pc.hasNode)
  }

  predicate IsNew(s: Life, t: Tid) {
    t in s.threads && HasNewNode(s.threads[t])
  }

  predicate IsAdded(s: Life, t: Tid) {
    t in s.threads && HasAdded(s.threads[t])
  }

  predicate IsFlagged(s: Life, t: Tid) {
    t in s.threads && HasFlagged(s.threads[t])
  }

  predicate IsOver(s: Life, t: Tid) {
    t in s.threads && s.threads[t] == Exited(true)
  }

  /** Each history names a node at most once, and agrees with where its thread stands. */
  ghost predicate AddedOk(s: Life) {
    Distinct(s.added) && forall t :: t in s.added <==> IsAdded(s, t)
  }

  ghost predicate FlaggedOk(s: Life) {
    Distinct(s.flagged) && forall t :: t in s.flagged <==> IsFlagged(s, t)
  }

  /** The node main has unlinked but not yet freed. */
  function InMainsHands(m: MainPc): Option<Tid> {
    match m
    case SweepJoin(t, _) => Some(t)
    case SweepFree(t, _) => Some(t)
    case CleanJoin(t) => Some(t)
    case CleanFree(t) => Some(t)
    case _ => None
  }

  /** The node main has joined but not yet freed. */
  function JoinedOnly(m: MainPc): seq<Tid> {
    if m.SweepFree? || m.CleanFree? then [m.t] else []
  }

  /** Nodes are freed in the order they are joined, each right after its join. */
  ghost predicate JoinedOk(s: Life) {
    && Distinct(s.joined)
    && s.joined == s.freed + JoinedOnly(s.main)
    && forall t :: t in s.joined ==> IsOver(s, t)
  }

  /** Every node that was ever linked in is in the list once, or in main's hands, or freed, and in
      only one of these places; a sweep takes out flagged nodes only. */
  ghost predicate ListOk(s: Life) {
    && Distinct(s.list)
    && (forall t :: IsAdded(s, t) <==> t in s.list || t in s.freed || InMainsHands(s.main) == Some(t))
    && (forall t :: t in s.list ==> t !in s.freed && InMainsHands(s.main) != Some(t))
    && (forall t :: InMainsHands(s.main) == Some(t) ==> t !in s.freed)
    && (s.main.SweepJoin? || s.main.SweepFree? ==> IsFlagged(s, s.main.t))
  }

  /** A node is allocated from the moment its thread has it until it is freed, and its flag says
      whether the thread has flagged it. */
  ghost predicate NodesOk(s: Life) {
    && (forall t :: t in s.nodes <==> (IsNew(s, t) || IsAdded(s, t)) && t !in s.freed)
    && forall t :: t in s.nodes ==> (s.nodes[t].completed <==> IsFlagged(s, t))
  }

  function NodeAt(list: seq<Tid>, i: nat): Option<Tid> {
    if i < |list| then Some(list[i]) else None
  }

  /** From the head, following `next` visits exactly the list, and a sweep is somewhere in it. */
  ghost predicate Linked(head: Option<Tid>, nodes: map<Tid, Node>, list: seq<Tid>) {
    && head == NodeAt(list, 0)
    && (forall k :: 0 <= k < |list| ==> list[k] in nodes)
    && forall k {:trigger nodes[list[k]]} :: 0 <= k < |list| ==> nodes[list[k]].next == NodeAt(list, k + 1)
  }

  ghost predicate WalkOk(m: MainPc, list: seq<Tid>) {
    Sweeps(m) ==>
      && m.w.kept <= |list|
      && m.w.current == NodeAt(list, m.w.kept)
      && m.w.prev == if m.w.kept == 0 then None else Some(list[m.w.kept - 1])
  }

  ghost predicate ShapeOk(s: Life) {
    ListOk(s) && NodesOk(s) && Linked(s.head, s.nodes, s.list) && WalkOk(s.main, s.list)
  }

  ghost predicate Good(s: Life) {
    MutexOk(s) && AddedOk(s) && FlaggedOk(s) && JoinedOk(s) && ShapeOk(s)
  }

  lemma DistinctMore(ts: seq<Tid>, t: Tid)
    requires Distinct(ts) && t !in ts
    ensures Distinct(ts + [t]) && Distinct([t] + ts)
  {
    forall i, j | 0 <= i < j < |[t] + ts| ensures ([t] + ts)[i] != ([t] + ts)[j] {
      assert ([t] + ts)[j] == ts[j - 1];
    }
  }

  lemma DistinctCut(list: seq<Tid>, k: nat)
    requires k < |list| && Distinct(list)
    ensures Distinct(Cut(list, k)) && list[k] !in Cut(list, k)
    ensures forall t :: t in list <==> t == list[k] || t in Cut(list, k)
  {
    var less := Cut(list, k);
    forall i | 0 <= i < |less| ensures less[i] == list[if i < k then i else i + 1] {
    }
    forall t | t in list ensures t == list[k] || t in less {
      var i :| 0 <= i < |list| && list[i] == t;
      if i > k {
        assert less[i - 1] == t;
      } else if i < k {
        assert less[i] == t;
      }
    }
  }

  // ----- client steps -----

  /** No node changes its state between s and s'. */
  ghost predicate SameStatus(s: Life, s': Life) {
    && (forall t :: IsNew(s', t) <==> IsNew(s, t))
    && (forall t :: IsAdded(s', t) <==> IsAdded(s, t))
    && (forall t :: IsFlagged(s', t) <==> IsFlagged(s, t))
    && (forall t :: IsOver(s, t) ==> IsOver(s', t))
  }

  /** s' differs from s in threads and mutex at most. */
  ghost predicate SameMemory(s: Life, s': Life) {
    s' == s.(threads := s'.threads, mutex := s'.mutex)
  }

  lemma QuietKeeps(s: Life, s': Life)
    requires AddedOk(s) && FlaggedOk(s) && JoinedOk(s) && ShapeOk(s)
    requires SameMemory(s, s') && SameStatus(s, s')
    ensures AddedOk(s') && FlaggedOk(s') && JoinedOk(s') && ShapeOk(s')
  {
  }

  /** What happens to the nodes' states when thread t allocates, links in or flags its own. */
  lemma StatusAfter(s: Life, t: Tid, pc: Pc)
    ensures var s' := At(s, t, pc);
            forall u :: u != t ==>
              && (IsNew(s', u) <==> IsNew(s, u)) && (IsAdded(s', u) <==> IsAdded(s, u))
              && (IsFlagged(s', u) <==> IsFlagged(s, u)) && (IsOver(s', u) <==> IsOver(s, u))
  {
  }

  /** Steps of a thread that allocate, link or flag nothing. */
  predicate IsQuiet(pc: Pc, outOfMemory: bool) {
    !pc.Adding? && !pc.Flagging? && (pc.Allocating? ==> outOfMemory)
  }

  /** Where such a step leads. */
  function QuietNext(pc: Pc): (pc': Pc)
    ensures !pc.Adding? && !pc.Flagging? ==>
              && HasNewNode(pc') == HasNewNode(pc) && HasAdded(pc') == HasAdded(pc)
              && HasFlagged(pc') == HasFlagged(pc) && !pc.Exited? == (pc' != pc)
  {
    match pc
    case Allocating => ServingWithoutNode
    case WantsToAdd => Adding
    case Added => Serving
    case Serving => WantsToFlag
    case ServingWithoutNode => Returning(false)
    case WantsToFlag => Flagging
    case Flagged => Returning(true)
    case Returning(hasNode) => Exited(hasNode)
    case _ => pc
  }

  lemma QuietStep(s: Life, t: Tid, oom: bool)
    requires StepClient(s, t, oom).Goes? && IsQuiet(s.threads[t], oom)
    ensures SameMemory(s, StepClient(s, t, oom).s) && SameStatus(s, StepClient(s, t, oom).s)
  {
    var (pc, pc') := (s.threads[t], StepClient(s, t, oom).s.threads[t]);
    assert pc' == QuietNext(pc);
    StatusAfter(s, t, pc');
  }

  lemma ClientKeepsMutex(s: Life, t: Tid, oom: bool)
    requires MutexOk(s) && StepClient(s, t, oom).Goes?
    ensures MutexOk(StepClient(s, t, oom).s)
  {
  }

  lemma AllocationKeeps(s: Life, t: Tid)
    requires AddedOk(s) && FlaggedOk(s) && JoinedOk(s) && ShapeOk(s)
    requires t in s.threads && s.threads[t].Allocating?
    ensures var s' := StepClient(s, t, false).s;
            AddedOk(s') && FlaggedOk(s') && JoinedOk(s') && ShapeOk(s')
  {
    StatusAfter(s, t, WantsToAdd);
    var s' := StepClient(s, t, false).s;
    assert !IsAdded(s, t) && !IsAdded(s', t) && IsNew(s', t);
    assert t !in s.list && t !in s.freed;
    forall k | 0 <= k < |s.list| ensures s'.list[k] in s'.nodes && s'.nodes[s'.list[k]] == s.nodes[s.list[k]] {
      assert s.list[k] != t;
    }
  }

  lemma LinkKeepsLinked(s: Life, t: Tid)
    requires Linked(s.head, s.nodes, s.list) && t !in s.list && t in s.nodes
    ensures Linked(Some(t), s.nodes[t := s.nodes[t].(next := s.head)], [t] + s.list)
  {
    var list, nodes := [t] + s.list, s.nodes[t := s.nodes[t].(next := s.head)];
    forall k | 0 <= k < |list| ensures list[k] in nodes && nodes[list[k]].next == NodeAt(list, k + 1) {
      if k > 0 {
        assert list[k] == s.list[k - 1];
      }
    }
  }

  lemma LinkingKeeps(s: Life, t: Tid, oom: bool)
    requires AddedOk(s) && FlaggedOk(s) && JoinedOk(s) && ShapeOk(s) && !MainHolds(s.main)
    requires t in s.threads && s.threads[t].Adding? && t in s.nodes
    ensures var s' := StepClient(s, t, oom).s;
            AddedOk(s') && FlaggedOk(s') && JoinedOk(s') && ShapeOk(s')
  {
    StatusAfter(s, t, Added);
    var s' := StepClient(s, t, oom).s;
    assert !IsAdded(s, t) && IsAdded(s', t) && IsNew(s, t) && !IsNew(s', t) && !IsFlagged(s, t) && !IsFlagged(s', t);
    assert t !in s.list && t !in s.freed;
    DistinctMore(s.added, t);
    DistinctMore(s.list, t);
    LinkKeepsLinked(s, t);
  }

  lemma FlagStatus(s: Life, s': Life, t: Tid, oom: bool)
    requires t in s.threads && s.threads[t].Flagging? && StepClient(s, t, oom) == Goes(s')
    ensures forall u :: IsNew(s', u) <==> IsNew(s, u)
    ensures forall u :: IsAdded(s', u) <==> IsAdded(s, u)
    ensures forall u :: IsFlagged(s', u) <==> IsFlagged(s, u) || u == t
    ensures forall u :: IsOver(s', u) <==> IsOver(s, u)
    ensures IsAdded(s, t) && !IsFlagged(s, t)
  {
    StatusAfter(s, t, Flagged);
  }

  lemma FlagKeepsHistory(s: Life, s': Life, t: Tid, oom: bool)
    requires AddedOk(s) && FlaggedOk(s) && JoinedOk(s)
    requires t in s.threads && s.threads[t].Flagging? && StepClient(s, t, oom) == Goes(s')
    ensures AddedOk(s') && FlaggedOk(s') && JoinedOk(s')
  {
    FlagStatus(s, s', t, oom);
    assert t !in s.flagged;
    DistinctMore(s.flagged, t);
  }

  lemma FlagKeepsShape(s: Life, s': Life, t: Tid, oom: bool)
    requires ShapeOk(s) && t in s.threads && s.threads[t].Flagging? && StepClient(s, t, oom) == Goes(s')
    ensures ShapeOk(s')
  {
    FlagKeepsNodes(s, s', t, oom);
    FlagKeepsList(s, s', t, oom);
    FlagKeepsLinked(s, t);
  }

  lemma FlagKeepsNodes(s: Life, s': Life, t: Tid, oom: bool)
    requires NodesOk(s) && t in s.threads && s.threads[t].Flagging? && StepClient(s, t, oom) == Goes(s')
    ensures NodesOk(s')
  {
    FlagStatus(s, s', t, oom);
    assert s'.nodes.Keys == s.nodes.Keys && s'.freed == s.freed;
  }

  lemma FlagKeepsList(s: Life, s': Life, t: Tid, oom: bool)
    requires ListOk(s) && t in s.threads && s.threads[t].Flagging? && StepClient(s, t, oom) == Goes(s')
    ensures ListOk(s')
  {
    FlagStatus(s, s', t, oom);
    assert s'.list == s.list && s'.freed == s.freed && s'.main == s.main;
  }

  lemma FlagKeepsLinked(s: Life, t: Tid)
    requires Linked(s.head, s.nodes, s.list) && t in s.nodes
    ensures Linked(s.head, s.nodes[t := s.nodes[t].(completed := true)], s.list)
  {
    var nodes := s.nodes[t := s.nodes[t].(completed := true)];
    assert forall u :: u in s.nodes ==> nodes[u].next == s.nodes[u].next;
  }

  /** While a thread links in or flags its node, main is not at the list, and the node is there. */
  lemma ClientIsAlone(s: Life, t: Tid)
    requires MutexOk(s) && NodesOk(s) && JoinedOk(s) && t in s.threads && ClientHolds(s.threads[t])
    ensures !MainHolds(s.main) && t in s.nodes
  {
    assert IsNew(s, t) || IsAdded(s, t);
    assert !IsOver(s, t);
    assert t !in s.joined;
    assert t !in s.freed;
  }

  lemma ClientKeepsGood(s: Life, t: Tid, oom: bool)
    requires Good(s) && StepClient(s, t, oom).Goes?
    ensures Good(StepClient(s, t, oom).s)
  {
    ClientKeepsMutex(s, t, oom);
    if IsQuiet(s.threads[t], oom) {
      QuietStep(s, t, oom);
      QuietKeeps(s, StepClient(s, t, oom).s);
    } else if s.threads[t].Allocating? {
      AllocationKeeps(s, t);
    } else {
      ClientIsAlone(s, t);
      if s.threads[t].Adding? {
        LinkingKeeps(s, t, oom);
      } else {
        FlagKeepsHistory(s, StepClient(s, t, oom).s, t, oom);
        FlagKeepsShape(s, StepClient(s, t, oom).s, t, oom);
      }
    }
  }

  // ----- main's steps -----

  lemma MainKeepsHistory(s: Life)
    requires StepMain(s).Goes?
    ensures var s' := StepMain(s).s;
            s'.threads == s.threads && s'.added == s.added && s'.flagged == s.flagged
  {
  }

  lemma MainKeepsMutex(s: Life)
    requires MutexOk(s) && StepMain(s).Goes?
    ensures MutexOk(StepMain(s).s)
  {
  }

  /** A node in main's hands was linked in and not freed, so it is still allocated. */
  lemma HandsAreFull(s: Life, t: Tid)
    requires ListOk(s) && NodesOk(s) && InMainsHands(s.main) == Some(t)
    ensures IsAdded(s, t) && t !in s.freed && t in s.nodes && t !in s.list
  {
  }

  lemma MainKeepsJoined(s: Life)
    requires JoinedOk(s) && ListOk(s) && NodesOk(s) && StepMain(s).Goes?
    ensures JoinedOk(StepMain(s).s)
  {
    match s.main
    case SweepJoin(t, w) => JoinKeepsJoined(s, t, SweepFree(t, w));
    case CleanJoin(t) => JoinKeepsJoined(s, t, CleanFree(t));
    case _ =>
  }

  lemma JoinKeepsJoined(s: Life, t: Tid, next: MainPc)
    requires JoinedOk(s) && ListOk(s) && NodesOk(s) && InMainsHands(s.main) == Some(t) && JoinedOnly(s.main) == []
    requires Join(s, t, next).Goes? && JoinedOnly(next) == [t]
    ensures JoinedOk(Join(s, t, next).s)
  {
    HandsAreFull(s, t);
    EmptyEnds(s.freed);
    DistinctMore(s.joined, t);
    assert s.threads[t] == Exited(true);
  }

  /** Taking out the first node by pointing the head past it. */
  lemma BeheadKeepsLinked(head: Option<Tid>, nodes: map<Tid, Node>, list: seq<Tid>)
    requires Linked(head, nodes, list) && list != []
    ensures Linked(nodes[list[0]].next, nodes, Cut(list, 0))
  {
    var less := Cut(list, 0);
    forall i | 0 <= i < |less| ensures less[i] in nodes && nodes[less[i]].next == NodeAt(less, i + 1) {
      assert less[i] == list[i + 1];
    }
  }

  /** Taking out a later node by pointing its predecessor past it. */
  lemma UnlinkKeepsLinked(head: Option<Tid>, nodes: map<Tid, Node>, list: seq<Tid>, k: nat)
    requires Linked(head, nodes, list) && Distinct(list) && 0 < k < |list|
    ensures var p := list[k - 1];
            Linked(head, nodes[p := nodes[p].(next := nodes[list[k]].next)], Cut(list, k))
  {
    var (p, less) := (list[k - 1], Cut(list, k));
    var nodes' := nodes[p := nodes[p].(next := nodes[list[k]].next)];
    forall i | 0 <= i < |less| ensures less[i] in nodes' && nodes'[less[i]].next == NodeAt(less, i + 1) {
      var j := if i < k then i else i + 1;
      assert less[i] == list[j];
      assert list[j] == p <==> j == k - 1;
    }
  }

  lemma VisitPasses(s: Life, c: Tid)
    requires Linked(s.head, s.nodes, s.list) && WalkOk(s.main, s.list) && s.main.Sweeping?
    requires s.main.w.current == Some(c) && c in s.nodes && !s.nodes[c].completed
    ensures StepMain(s).Goes?
    ensures var (s', w') := (StepMain(s).s, Walk(Some(c), s.nodes[c].next, s.main.w.kept + 1));
            s' == s.(main := Sweeping(w')) && WalkOk(Sweeping(w'), s.list)
  {
    assert c == s.list[s.main.w.kept];
  }

  /** What a visit to a completed node leaves. */
  lemma VisitUnlinks(s: Life, c: Tid)
    requires Linked(s.head, s.nodes, s.list) && WalkOk(s.main, s.list) && Distinct(s.list) && s.main.Sweeping?
    requires s.main.w.current == Some(c) && c in s.nodes && s.nodes[c].completed
    ensures StepMain(s).Goes?
    ensures var s' := StepMain(s).s;
            && s' == s.(main := s'.main, list := Cut(s.list, s.main.w.kept), head := s'.head, nodes := s'.nodes)
            && s'.main == SweepJoin(c, s'.main.w) && s'.main.w.kept == s.main.w.kept
            && SameFlags(s.nodes, s'.nodes)
            && Linked(s'.head, s'.nodes, s'.list) && WalkOk(s'.main, s'.list)
  {
    var k := s.main.w.kept;
    if k == 0 {
      BeheadKeepsLinked(s.head, s.nodes, s.list);
    } else {
      assert s.list[k - 1] in s.nodes;
      UnlinkKeepsLinked(s.head, s.nodes, s.list, k);
    }
  }

  /** The same nodes are allocated, with the same flags. */
  ghost predicate SameFlags(nodes: map<Tid, Node>, nodes': map<Tid, Node>) {
    nodes'.Keys == nodes.Keys && forall t :: t in nodes ==> nodes'[t].completed == nodes[t].completed
  }

  /** Moving the k-th node from the list into main's hands. */
  lemma TakingKeeps(s: Life, s': Life, k: nat)
    requires ListOk(s) && NodesOk(s) && InMainsHands(s.main) == None && k < |s.list|
    requires s' == s.(main := s'.main, list := Cut(s.list, k), head := s'.head, nodes := s'.nodes)
    requires SameFlags(s.nodes, s'.nodes) && InMainsHands(s'.main) == Some(s.list[k])
    requires s'.main.SweepJoin? || s'.main.SweepFree? ==> IsFlagged(s, s.list[k])
    ensures ListOk(s') && NodesOk(s')
  {
    DistinctCut(s.list, k);
    assert s.list[k] in s.list;
    assert forall t :: (IsAdded(s', t) <==> IsAdded(s, t)) && (IsNew(s', t) <==> IsNew(s, t));
    assert forall t :: IsFlagged(s', t) <==> IsFlagged(s, t);
  }

  lemma VisitKeepsShape(s: Life)
    requires ShapeOk(s) && s.main.Sweeping? && StepMain(s).Goes?
    ensures ShapeOk(StepMain(s).s)
  {
    match s.main.w.current
    case None => KeepsWithMain(s, StepMain(s).s);
    case Some(c) =>
      if s.nodes[c].completed {
        VisitUnlinks(s, c);
        TakingKeeps(s, StepMain(s).s, s.main.w.kept);
      } else {
        VisitPasses(s, c);
        KeepsWithMain(s, StepMain(s).s);
      }
  }

  /** Main's place may change while the same node is in its hands. */
  lemma KeepsWithMain(s: Life, s': Life)
    requires ListOk(s) && NodesOk(s) && InMainsHands(s'.main) == InMainsHands(s.main)
    requires s' == s.(main := s'.main, mutex := s'.mutex, joined := s'.joined)
    requires s'.main.SweepJoin? || s'.main.SweepFree? ==> s.main.SweepJoin? || s.main.SweepFree?
    ensures ListOk(s') && NodesOk(s')
  {
    assert forall t :: (IsAdded(s', t) <==> IsAdded(s, t)) && (IsNew(s', t) <==> IsNew(s, t));
    assert forall t :: IsFlagged(s', t) <==> IsFlagged(s, t);
  }

  lemma TakeHeadKeepsShape(s: Life)
    requires ShapeOk(s) && s.main.Cleaning? && StepMain(s).Goes?
    ensures ShapeOk(StepMain(s).s)
  {
    if s.list != [] {
      BeheadKeepsLinked(s.head, s.nodes, s.list);
      TakingKeeps(s, StepMain(s).s, 0);
    } else {
      KeepsWithMain(s, StepMain(s).s);
    }
  }

  lemma FreeKeepsShape(s: Life, t: Tid, next: MainPc)
    requires ListOk(s) && NodesOk(s) && Linked(s.head, s.nodes, s.list) && IsAdded(s, t)
    requires InMainsHands(s.main) == Some(t) && InMainsHands(next) == None && Free(s, t, next).Goes?
    ensures var s' := Free(s, t, next).s;
            ListOk(s') && NodesOk(s') && Linked(s'.head, s'.nodes, s'.list)
  {
    var s' := Free(s, t, next).s;
    assert forall u :: (IsAdded(s', u) <==> IsAdded(s, u)) && (IsNew(s', u) <==> IsNew(s, u));
    assert forall u :: IsFlagged(s', u) <==> IsFlagged(s, u);
    assert forall u :: u in s'.freed <==> u in s.freed || u == t;
  }

  lemma MainKeepsShape(s: Life)
    requires ShapeOk(s) && StepMain(s).Goes?
    ensures ShapeOk(StepMain(s).s)
  {
    match s.main
    case Sweeping(_) => VisitKeepsShape(s);
    case Cleaning => TakeHeadKeepsShape(s);
    case SweepFree(t, w) => HandsAreFull(s, t); FreeKeepsShape(s, t, Sweeping(w));
    case CleanFree(t) => HandsAreFull(s, t); FreeKeepsShape(s, t, Cleaning);
    case Accepting =>
    case Over =>
    case _ => LockAndJoinKeepShape(s);
  }

  lemma LockAndJoinKeepShape(s: Life)
    requires ShapeOk(s) && StepMain(s).Goes?
    requires s.main.WantsToSweep? || s.main.SweepJoin? || s.main.WantsToClean? || s.main.CleanJoin?
    ensures ShapeOk(StepMain(s).s)
  {
    KeepsWithMain(s, StepMain(s).s);
  }

  lemma MainKeepsGood(s: Life)
    requires Good(s) && StepMain(s).Goes?
    ensures Good(StepMain(s).s)
  {
    var s' := StepMain(s).s;
    MainKeepsHistory(s);
    assert forall t :: (IsAdded(s', t) <==> IsAdded(s, t)) && (IsFlagged(s', t) <==> IsFlagged(s, t));
    MainKeepsMutex(s);
    MainKeepsJoined(s);
    MainKeepsShape(s);
  }

  lemma CreateKeepsGood(s: Life, t: Tid)
    requires Good(s) && Step(s, Create(t)).Goes?
    ensures Good(Step(s, Create(t)).s)
  {
    StatusAfter(s, t, Allocating);
    QuietKeeps(s, At(s, t, Allocating));
    KeepsWithMain(At(s, t, Allocating), Step(s, Create(t)).s);
  }

  lemma StepKeepsGood(s: Life, a: Action)
    requires Good(s) && Step(s, a).Goes?
    ensures Good(Step(s, a).s)
  {
    match a
    case Create(t) => CreateKeepsGood(s, t);
    case ShutDown => KeepsWithMain(s, Step(s, a).s);
    case MainMoves => MainKeepsGood(s);
    case ClientMoves(t, oom) => ClientKeepsGood(s, t, oom);
  }

  // ----- whole runs -----

  ghost function Run(s: Life, steps: seq<Action>): Option<Life>
    decreases |steps|
  {
    if steps == [] then Some(s)
    else
      match Step(s, steps[0])
      case Goes(s') => Run(s', steps[1..])
      case _ => None
  }

  lemma {:induction false} EveryRunIsGood(s: Life, steps: seq<Action>)
    requires Good(s) && Run(s, steps).Some?
    ensures Good(Run(s, steps).value)
    decreases |steps|
  {
    if steps != [] {
      StepKeepsGood(s, steps[0]);
      EveryRunIsGood(Step(s, steps[0]).s, steps[1..]);
    }
  }

  /** Some interleaving leads from s to s'. */
  ghost predicate Leads(s: Life, s': Life) {
    exists steps: seq<Action> :: Run(s, steps) == Some(s')
  }

  /** s can be reached from the start by some interleaving. */
  ghost predicate Reachable(s: Life): (r: bool)
    ensures r ==> Good(s)
  {
    if Leads(START, s) then
      var steps: seq<Action> :| Run(START, steps) == Some(s);
      EveryRunIsGood(START, steps);
      true
    else false
  }

  lemma {:induction false} RunThenStep(s: Life, steps: seq<Action>, a: Action)
    requires Run(s, steps).Some? && Step(Run(s, steps).value, a).Goes?
    ensures Run(s, steps + [a]) == Some(Step(Run(s, steps).value, a).s)
    decreases |steps|
  {
    if steps == [] {
      assert [] + [a] == [a];
      assert Run(Step(s, a).s, [a][1..]) == Some(Step(s, a).s);
    } else {
      assert (steps + [a])[1..] == steps[1..] + [a];
      RunThenStep(Step(s, steps[0]).s, steps[1..], a);
    }
  }

  lemma LeadsOn(s: Life, mid: Life, a: Action) returns (s': Life)
    requires Leads(s, mid) && Step(mid, a).Goes?
    ensures s' == Step(mid, a).s && Leads(s, s')
  {
    var steps: seq<Action> :| Run(s, steps) == Some(mid);
    RunThenStep(s, steps, a);
    s' := Step(mid, a).s;
  }

  lemma LeadsToItself(s: Life)
    ensures Leads(s, s)
  {
    assert Run(s, []) == Some(s);
  }

  lemma OneStepLeads(s: Life, a: Action)
    requires Step(s, a).Goes?
    ensures Leads(s, Step(s, a).s)
  {
    LeadsToItself(s);
    var _ := LeadsOn(s, s, a);
  }

  lemma {:induction false} RunThenRun(s: Life, a: seq<Action>, b: seq<Action>)
    requires Run(s, a).Some?
    ensures Run(s, a + b) == Run(Run(s, a).value, b)
    decreases |a|
  {
    if a == [] {
      assert a + b == b;
    } else {
      assert (a + b)[1..] == a[1..] + b;
      RunThenRun(Step(s, a[0]).s, a[1..], b);
    }
  }

  lemma LeadsTransitively(s: Life, mid: Life, s': Life)
    requires Leads(s, mid) && Leads(mid, s')
    ensures Leads(s, s')
  {
    var a: seq<Action> :| Run(s, a) == Some(mid);
    var b: seq<Action> :| Run(mid, b) == Some(s');
    RunThenRun(s, a, b);
  }

  // ----- what it comes to -----

  /** Every node is linked in at most once, flagged at most once, joined at most once and freed at
      most once; it is flagged only after it was linked in, its thread has exited when it is joined,
      and nodes are freed in the order they are joined, at most the last of them not yet. */
  lemma NodeLifecycle(s: Life)
    requires Reachable(s)
    ensures Distinct(s.added) && Distinct(s.flagged) && Distinct(s.joined) && Distinct(s.freed)
    ensures forall t :: t in s.flagged ==> t in s.added
    ensures forall t :: t in s.joined ==> t in s.flagged && t in s.threads && s.threads[t].Exited?
    ensures s.freed <= s.joined && |s.joined| <= |s.freed| + 1
    ensures forall t :: t in s.added ==> t in s.list || t in s.freed || InMainsHands(s.main) == Some(t)
    ensures forall t :: t in s.freed ==> t !in s.nodes
  {
    forall i, j | 0 <= i < j < |s.freed| ensures s.freed[i] != s.freed[j] {
      assert s.joined[i] == s.freed[i] && s.joined[j] == s.freed[j];
    }
    forall t | t in s.freed ensures t !in s.nodes {
      assert t in s.joined;
    }
  }

  /** Only one's own new node changes without the mutex. */
  ghost predicate ChangesAllowed(s: Life, s': Life, a: Action) {
    var client := a.ClientMoves? && s.mutex == Some(Client(a.t));
    var main := a.MainMoves? && s.mutex == Some(Main);
    && (s'.added != s.added || s'.flagged != s.flagged ==> client)
    && (s'.list != s.list || s'.head != s.head ==> client || main)
    && (s'.joined != s.joined || s'.freed != s.freed ==> main)
    && (forall t :: t in s.nodes && (t !in s'.nodes || s'.nodes[t] != s.nodes[t]) ==> client || main)
    && (forall t :: t in s'.nodes && t !in s.nodes ==> a.ClientMoves? && t == a.t && t !in s'.list)
  }

  lemma ClientChanges(s: Life, t: Tid, oom: bool)
    requires MutexOk(s) && ListOk(s) && NodesOk(s) && StepClient(s, t, oom).Goes?
    ensures ChangesAllowed(s, StepClient(s, t, oom).s, ClientMoves(t, oom))
  {
    assert s.threads[t].Allocating? ==> !IsNew(s, t) && !IsAdded(s, t);
  }

  lemma MainChanges(s: Life)
    requires MutexOk(s) && StepMain(s).Goes?
    ensures ChangesAllowed(s, StepMain(s).s, MainMoves)
  {
  }

  /** Linking in, flagging, unlinking, joining and freeing happen while holding the mutex; without
      it, the only node that can change is a new one its thread has just allocated. */
  lemma ChangesUnderTheMutex(s: Life, a: Action)
    requires Reachable(s) && Step(s, a).Goes?
    ensures ChangesAllowed(s, Step(s, a).s, a)
  {
    match a
    case ClientMoves(t, oom) => ClientChanges(s, t, oom);
    case MainMoves => MainChanges(s);
    case _ =>
  }

  /** No step, of a client or of main, reads, writes, joins or frees a node that is not allocated. */
  lemma NoUseAfterFree(s: Life, a: Action)
    requires Reachable(s)
    ensures Step(s, a) != Fault
  {
    match a
    case ClientMoves(t, oom) => ClientFindsNode(s, t, oom);
    case MainMoves => MainFindsNode(s);
    case _ =>
  }

  lemma ClientFindsNode(s: Life, t: Tid, oom: bool)
    requires MutexOk(s) && NodesOk(s) && JoinedOk(s)
    ensures StepClient(s, t, oom) != Fault
  {
    if t in s.threads && ClientHolds(s.threads[t]) {
      ClientIsAlone(s, t);
    }
  }

  lemma MainFindsNode(s: Life)
    requires ShapeOk(s)
    ensures StepMain(s) != Fault
  {
    match s.main
    case Sweeping(w) =>
      assert w.prev.Some? ==> s.list[w.kept - 1] in s.nodes;
      assert w.current.Some? ==> s.list[w.kept] in s.nodes;
    case SweepJoin(t, _) => HandsAreFull(s, t);
    case SweepFree(t, _) => HandsAreFull(s, t);
    case CleanJoin(t) => HandsAreFull(s, t);
    case CleanFree(t) => HandsAreFull(s, t);
    case _ =>
  }

  /** remove_completed_threads never waits for a thread that still has to take the mutex: the
      thread it joins has returned from its last unlock, so the join can always go on. */
  lemma SweepNeverBlocks(s: Life)
    requires Reachable(s) && s.main.SweepJoin?
    ensures var t := s.main.t;
            && t in s.threads
            && (s.threads[t].Returning? || s.threads[t].Exited?)
            && (s.threads[t].Returning? ==> Step(s, ClientMoves(t, false)).Goes?)
            && (s.threads[t].Exited? ==> Step(s, MainMoves).Goes?)
  {
    FlaggedHasReturned(s, s.main.t);
    HandsAreFull(s, s.main.t);
  }

  /** While main holds the mutex, a thread that has flagged its node has returned from its last use
      of the mutex. */
  lemma FlaggedHasReturned(s: Life, t: Tid)
    requires MutexOk(s) && MainHolds(s.main) && IsFlagged(s, t)
    ensures s.threads[t].Returning? || s.threads[t].Exited?
  {
  }

  // ----- what a sweep does -----

  function Unlinked(m: MainPc): seq<Tid> {
    if m.SweepJoin? || m.SweepFree? then [m.t] else []
  }

  /** s is a state in the middle of a sweep that began at s0, with j nodes of the list visited. */
  ghost predicate Swept(s0: Life, s: Life, j: nat) {
    var (list, done) := (s0.list, AsSet(s0.flagged));
    && j <= |list| && Sweeps(s.main)
    && s.flagged == s0.flagged && s.added == s0.added
    && s.list == Without(list, done, j) + list[j..]
    && s.main.w.kept == |Without(list, done, j)|
    && s.freed + Unlinked(s.main) == s0.freed + Among(list, done, j)
  }

  /** What a sweep that began at s0 has done when it is over. */
  ghost predicate SweepDone(s0: Life, s: Life) {
    var (list, done) := (s0.list, AsSet(s0.flagged));
    && s.list == Without(list, done, |list|)
    && s.joined == s0.joined + Among(list, done, |list|)
    && s.freed == s0.freed + Among(list, done, |list|)
    && s.flagged == s0.flagged && s.added == s0.added
  }

  /** The node visited next is the j-th of the list the sweep found. */
  lemma NextVisited(s0: Life, s: Life, j: nat)
    requires Linked(s.head, s.nodes, s.list) && WalkOk(s.main, s.list) && Swept(s0, s, j)
    ensures if j == |s0.list| then s.main.w.current == None && s.list == Without(s0.list, AsSet(s0.flagged), j)
            else s.main.w.current == Some(s0.list[j]) && s0.list[j] in s.nodes && s.main.w.kept < |s.list|
                 && s.list[s.main.w.kept] == s0.list[j]
  {
  }

  /** The list after j visits and one more. */
  lemma OneMoreVisit(list: seq<Tid>, done: set<Tid>, j: nat, freed: seq<Tid>)
    requires j < |list|
    ensures var kept := Without(list, done, j);
            if list[j] in done
            then Cut(kept + list[j..], |kept|) == Without(list, done, j + 1) + list[j + 1..]
                 && freed + Among(list, done, j + 1) == freed + Among(list, done, j) + [list[j]]
                 && Without(list, done, j + 1) == kept
            else kept + list[j..] == Without(list, done, j + 1) + list[j + 1..]
                 && Among(list, done, j + 1) == Among(list, done, j)
                 && |Without(list, done, j + 1)| == |kept| + 1
  {
    assert list[j..] == [list[j]] + list[j + 1..];
  }

  lemma SweepPasses(s0: Life, s: Life, j: nat)
    requires Linked(s.head, s.nodes, s.list) && WalkOk(s.main, s.list) && Swept(s0, s, j) && s.main.Sweeping?
    requires j < |s0.list| && s0.list[j] !in AsSet(s0.flagged)
    requires s0.list[j] in s.nodes ==> !s.nodes[s0.list[j]].completed
    ensures StepMain(s).Goes? && Swept(s0, StepMain(s).s, j + 1)
  {
    NextVisited(s0, s, j);
    OneMoreVisit(s0.list, AsSet(s0.flagged), j, s0.freed);
    VisitPasses(s, s0.list[j]);
  }

  lemma SweepUnlinks(s0: Life, s: Life, j: nat)
    requires Linked(s.head, s.nodes, s.list) && WalkOk(s.main, s.list) && Swept(s0, s, j) && s.main.Sweeping?
    requires Distinct(s.list) && j < |s0.list| && s0.list[j] in AsSet(s0.flagged)
    requires s0.list[j] in s.nodes ==> s.nodes[s0.list[j]].completed
    ensures StepMain(s).Goes? && Swept(s0, StepMain(s).s, j + 1)
  {
    NextVisited(s0, s, j);
    OneMoreVisit(s0.list, AsSet(s0.flagged), j, s0.freed);
    VisitUnlinks(s, s0.list[j]);
    assert s.freed + [] == s.freed;
  }

  lemma SweepEnds(s0: Life, s: Life, j: nat)
    requires Linked(s.head, s.nodes, s.list) && WalkOk(s.main, s.list) && Swept(s0, s, j)
    requires s.main.Sweeping? && j == |s0.list|
    requires s0.joined == s0.freed && s.joined == s.freed
    ensures StepMain(s).Goes? && StepMain(s).s.main == Accepting && SweepDone(s0, StepMain(s).s)
  {
    NextVisited(s0, s, j);
    assert s.freed + [] == s.freed;
  }

  lemma SweepVisits(s0: Life, s: Life, j: nat) returns (j': nat)
    requires Good(s) && Swept(s0, s, j) && s.main.Sweeping? && s0.joined == s0.freed && StepMain(s).Goes?
    ensures var s' := StepMain(s).s;
            if Sweeps(s'.main) then Swept(s0, s', j') else s'.main == Accepting && SweepDone(s0, s')
  {
    j' := j + 1;
    if j == |s0.list| {
      assert s.freed + [] == s.freed;
      SweepEnds(s0, s, j);
    } else {
      var t := s0.list[j];
      assert t in s.nodes ==> (s.nodes[t].completed <==> t in s.flagged);
      assert t in AsSet(s0.flagged) <==> t in s.flagged;
      if t in s.flagged {
        SweepUnlinks(s0, s, j);
      } else {
        SweepPasses(s0, s, j);
      }
    }
  }

  /** Nobody else can change the list or flag a node while main holds the mutex. */
  lemma HolderUndisturbed(s: Life, a: Action)
    requires MutexOk(s) && MainHolds(s.main) && !a.MainMoves? && Step(s, a).Goes?
    ensures var s' := Step(s, a).s;
            && s'.main == s.main && s'.list == s.list && s'.head == s.head && s'.added == s.added
            && s'.flagged == s.flagged && s'.joined == s.joined && s'.freed == s.freed
  {
  }

  lemma SweepStep(s0: Life, s: Life, j: nat, a: Action) returns (j': nat)
    requires Good(s) && Swept(s0, s, j) && s0.joined == s0.freed && Step(s, a).Goes?
    ensures var s' := Step(s, a).s;
            if Sweeps(s'.main) then Swept(s0, s', j') else s'.main == Accepting && SweepDone(s0, s')
  {
    j' := j;
    if !a.MainMoves? {
      HolderUndisturbed(s, a);
    } else if s.main.Sweeping? {
      j' := SweepVisits(s0, s, j);
    } else {
      SweepJoinsAndFrees(s);
    }
  }

  lemma SweepJoinsAndFrees(s: Life)
    requires Sweeps(s.main) && !s.main.Sweeping? && StepMain(s).Goes?
    ensures var s' := StepMain(s).s;
            && Sweeps(s'.main) && s'.main.w == s.main.w
            && s'.flagged == s.flagged && s'.added == s.added && s'.list == s.list
            && s'.freed + Unlinked(s'.main) == s.freed + Unlinked(s.main)
  {
  }

  /** Main sweeps in every state of the run but the last. */
  ghost predicate SweepsThrough(s: Life, steps: seq<Action>)
    decreases |steps|
  {
    steps == [] || (Sweeps(s.main) && Step(s, steps[0]).Goes? && SweepsThrough(Step(s, steps[0]).s, steps[1..]))
  }

  lemma {:induction false} SweepRun(s0: Life, s: Life, j: nat, steps: seq<Action>)
    requires Good(s) && Swept(s0, s, j) && s0.joined == s0.freed
    requires SweepsThrough(s, steps) && Run(s, steps).Some? && Run(s, steps).value.main == Accepting
    ensures SweepDone(s0, Run(s, steps).value)
    decreases |steps|
  {
    var s' := Step(s, steps[0]).s;
    var j' := SweepStep(s0, s, j, steps[0]);
    if Sweeps(s'.main) {
      StepKeepsGood(s, steps[0]);
      SweepRun(s0, s', j', steps[1..]);
    } else {
      assert steps[1..] == [];
    }
  }

  /** From taking the mutex to releasing it, and whatever the clients do meanwhile, a sweep removes
      exactly the nodes flagged before from the list, leaves the others in order, and joins and frees
      the removed ones in list order: what remove_completed_threads does to the linked nodes. */
  lemma SweepRemovesFlagged(s: Life, steps: seq<Action>)
    requires Reachable(s) && s.main == WantsToSweep && s.mutex == None
    requires SweepsThrough(Step(s, MainMoves).s, steps)
    requires Run(Step(s, MainMoves).s, steps).Some?
    requires Run(Step(s, MainMoves).s, steps).value.main == Accepting
    ensures SweepDone(s, Run(Step(s, MainMoves).s, steps).value)
  {
    var s1 := Step(s, MainMoves).s;
    StepKeepsGood(s, MainMoves);
    assert Swept(s, s1, 0) by {
      assert [] + s.list[0..] == s.list;
    }
    SweepRun(s, s1, 0, steps);
  }

  lemma ThreadExits(s: Life, t: Tid)
    requires t in s.threads && s.threads[t].Returning?
    ensures Step(s, ClientMoves(t, false)) == Goes(At(s, t, Exited(s.threads[t].hasNode)))
  {
  }

  lemma LeadsToExit(s: Life, t: Tid) returns (s': Life)
    requires Good(s) && t in s.threads && (s.threads[t].Returning? || s.threads[t].Exited?)
    ensures Good(s') && Leads(s, s') && s' == s.(threads := s'.threads)
    ensures s'.threads.Keys == s.threads.Keys && s'.threads[t].Exited?
  {
    LeadsToItself(s);
    s' := s;
    if s.threads[t].Returning? {
      ThreadExits(s, t);
      ClientKeepsGood(s, t, false);
      s' := LeadsOn(s, s, ClientMoves(t, false));
    }
  }

  /** What is left of a sweep: the nodes to visit, and the one in main's hands. */
  function SweepLeft(s: Life): int {
    if !Sweeps(s.main) then 0
    else 3 * (|s.list| - s.main.w.kept) + if s.main.SweepJoin? then 2 else if s.main.SweepFree? then 1 else 0
  }

  /** Main's next step of a sweep, when it need not wait. */
  lemma SweepGoesOn(s: Life)
    requires ShapeOk(s) && Sweeps(s.main)
    requires s.main.SweepJoin? ==> s.main.t in s.threads && s.threads[s.main.t].Exited?
    ensures StepMain(s).Goes?
    ensures var s' := StepMain(s).s;
            (s'.main == Accepting && s'.mutex == None) || (Sweeps(s'.main) && SweepLeft(s') < SweepLeft(s))
  {
    MainFindsNode(s);
  }

  /** The thread main is about to join can always exit first. */
  lemma SweepReady(s: Life) returns (s': Life)
    requires Good(s) && Sweeps(s.main)
    ensures Good(s') && Leads(s, s') && s' == s.(threads := s'.threads) && s'.threads.Keys == s.threads.Keys
    ensures s'.main.SweepJoin? ==> s'.main.t in s'.threads && s'.threads[s'.main.t].Exited?
  {
    if s.main.SweepJoin? {
      FlaggedHasReturned(s, s.main.t);
      s' := LeadsToExit(s, s.main.t);
    } else {
      LeadsToItself(s);
      s' := s;
    }
  }

  /** From every state inside a sweep some run brings it to its end, with the mutex free. */
  lemma {:induction false} SweepFinishes(s0: Life, s: Life, j: nat) returns (s': Life)
    requires Good(s) && Swept(s0, s, j) && s0.joined == s0.freed
    ensures Good(s') && Leads(s, s') && s'.main == Accepting && s'.mutex == None
    ensures SweepDone(s0, s') && s'.threads.Keys == s.threads.Keys
    decreases SweepLeft(s)
  {
    var ready := SweepReady(s);
    SweepGoesOn(ready);
    var j' := SweepStep(s0, ready, j, MainMoves);
    MainKeepsGood(ready);
    MainKeepsHistory(ready);
    s' := LeadsOn(s, ready, MainMoves);
    if s'.main != Accepting {
      var next := s';
      s' := SweepFinishes(s0, next, j');
      LeadsTransitively(s, next, s');
    }
  }

  lemma SweepAdvances(s: Life) returns (s': Life)
    requires Good(s) && Sweeps(s.main)
    ensures Good(s') && Leads(s, s') && s'.added == s.added && s'.threads.Keys == s.threads.Keys
    ensures (s'.main == Accepting && s'.mutex == None) || (Sweeps(s'.main) && SweepLeft(s') < SweepLeft(s))
  {
    var ready := SweepReady(s);
    SweepGoesOn(ready);
    MainKeepsGood(ready);
    MainKeepsHistory(ready);
    s' := LeadsOn(s, ready, MainMoves);
  }

  /** A sweep can always come to its end, wherever the clients are. */
  lemma {:induction false} SweepCanEnd(s: Life) returns (s': Life)
    requires Good(s) && Sweeps(s.main)
    ensures Good(s') && Leads(s, s') && s'.main == Accepting && s'.mutex == None
    ensures s'.added == s.added && s'.threads.Keys == s.threads.Keys
    decreases SweepLeft(s)
  {
    s' := SweepAdvances(s);
    if s'.main != Accepting {
      var next := s';
      s' := SweepCanEnd(next);
      LeadsTransitively(s, next, s');
    }
  }

  // ----- every thread can be joined and its node freed -----

  function ClientLeft(pc: Pc): nat {
    match pc
    case Allocating => 10
    case WantsToAdd => 9
    case Adding => 8
    case Added => 7
    case Serving => 6
    case WantsToFlag => 5
    case Flagging => 4
    case Flagged => 3
    case ServingWithoutNode => 2
    case Returning(_) => 1
    case Exited(_) => 0
  }

  /** A thread that has the mutex, or can have it, need not wait. */
  lemma ClientGoesOn(s: Life, t: Tid)
    requires MutexOk(s) && NodesOk(s) && JoinedOk(s)
    requires t in s.threads && !s.threads[t].Exited? && (s.mutex == None || s.mutex == Some(Client(t)))
    ensures StepClient(s, t, false).Goes?
    ensures var s' := StepClient(s, t, false).s;
            && t in s'.threads && ClientLeft(s'.threads[t]) < ClientLeft(s.threads[t])
            && (s'.mutex == None || s'.mutex == Some(Client(t)))
            && s'.main == s.main && s.added <= s'.added && s'.threads.Keys == s.threads.Keys
  {
    ClientFindsNode(s, t, false);
  }

  /** Some run takes such a thread to its exit, and leaves the mutex free. */
  lemma {:induction false} ClientCanExit(s: Life, t: Tid) returns (s': Life)
    requires Good(s) && t in s.threads && (s.mutex == None || s.mutex == Some(Client(t)))
    ensures Good(s') && Leads(s, s') && s'.main == s.main && s'.mutex == None
    ensures t in s'.threads && s'.threads[t].Exited? && s.added <= s'.added && s'.threads.Keys == s.threads.Keys
    decreases ClientLeft(s.threads[t])
  {
    if s.threads[t].Exited? {
      LeadsToItself(s);
      s' := s;
    } else {
      ClientGoesOn(s, t);
      ClientKeepsGood(s, t, false);
      OneStepLeads(s, ClientMoves(t, false));
      var next := StepClient(s, t, false).s;
      s' := ClientCanExit(next, t);
      LeadsTransitively(s, next, s');
    }
  }

  /** A thread for whose node there is no memory is served all the same; it never has a node. */
  lemma ServedWithoutNode(s: Life, t: Tid)
    requires Reachable(s) && t in s.threads && s.threads[t].Allocating?
    ensures Step(s, ClientMoves(t, true)) == Goes(s.(threads := s.threads[t := ServingWithoutNode]))
    ensures t !in s.nodes && t !in s.added
  {
    assert !IsNew(s, t) && !IsAdded(s, t);
  }

  /** If a client holds the mutex, some run makes it give the mutex back. */
  lemma ClientsRelease(s: Life) returns (s': Life)
    requires Good(s)
    ensures Good(s') && Leads(s, s') && s'.main == s.main && s.added <= s'.added && s'.threads.Keys == s.threads.Keys
    ensures s'.mutex == None || s'.mutex == Some(Main)
  {
    if s.mutex.Some? && s.mutex.value.Client? {
      s' := ClientCanExit(s, s.mutex.value.t);
    } else {
      LeadsToItself(s);
      s' := s;
    }
  }

  lemma SweepBegins(s: Life)
    requires Good(s) && s.main.WantsToSweep? && s.mutex == None
    ensures StepMain(s).Goes? && Good(StepMain(s).s) && Swept(s, StepMain(s).s, 0)
    ensures StepMain(s).s.added == s.added && StepMain(s).s.threads == s.threads && s.joined == s.freed
  {
    MainKeepsGood(s);
    EmptyEnds(s.list);
    EmptyEnds(s.freed);
    assert s.list[0..] == s.list;
  }

  predicate Attends(m: MainPc) {
    m.Accepting? || m.WantsToSweep? || Sweeps(m)
  }

  /** Some run brings main back to accept, with the mutex free. */
  lemma MainCanAccept(s: Life) returns (s': Life)
    requires Good(s) && Attends(s.main)
    ensures Good(s') && Leads(s, s') && s'.main == Accepting && s'.mutex == None
    ensures s.added <= s'.added && s'.threads.Keys == s.threads.Keys
  {
    s' := ClientsRelease(s);
    if s'.main.WantsToSweep? {
      SweepBegins(s');
      s' := LeadsOn(s, s', MainMoves);
    }
    if Sweeps(s'.main) {
      var sweeping := s';
      s' := SweepCanEnd(sweeping);
      LeadsTransitively(s, sweeping, s');
    }
  }

  /** Main accepts the next client u and sweeps. */
  lemma NextSweep(s: Life) returns (waiting: Life, s': Life)
    requires Good(s) && s.main == Accepting && s.mutex == None
    ensures waiting.list == s.list && waiting.flagged == s.flagged
    ensures Good(s') && Leads(s, s') && s'.main == Accepting && s'.mutex == None
    ensures SweepDone(waiting, s') && s.threads.Keys <= s'.threads.Keys
  {
    var u := FreshNat(s.threads.Keys);
    CreateKeepsGood(s, u);
    OneStepLeads(s, Create(u));
    waiting := Step(s, Create(u)).s;
    SweepBegins(waiting);
    var sweeping := LeadsOn(s, waiting, MainMoves);
    s' := SweepFinishes(waiting, sweeping, 0);
    LeadsTransitively(s, sweeping, s');
  }

  lemma SweptAway(s0: Life, s: Life, t: Tid)
    requires SweepDone(s0, s) && t in s0.list && t in s0.flagged
    ensures t in s.freed
  {
    var i :| 0 <= i < |s0.list| && s0.list[i] == t;
    AmongHas(s0.list, AsSet(s0.flagged), |s0.list|, i);
  }

  /** When main accepts the next client, its sweep can free the node of a thread that has exited. */
  lemma NextSweepFrees(s: Life, t: Tid) returns (s': Life)
    requires Good(s) && s.main == Accepting && s.mutex == None
    requires t in s.threads && s.threads[t].Exited? && t in s.list
    ensures Good(s') && Leads(s, s') && s'.main == Accepting && s'.mutex == None
    ensures t in s'.freed && t in s'.threads
  {
    ListedIsFlagged(s, t);
    var waiting;
    waiting, s' := NextSweep(s);
    SweptAway(waiting, s', t);
  }

  lemma ListedIsFlagged(s: Life, t: Tid)
    requires ListOk(s) && FlaggedOk(s) && t in s.list && t in s.threads && s.threads[t].Exited?
    ensures t in s.flagged
  {
    assert IsAdded(s, t) && IsFlagged(s, t);
  }

  /** The node of an exited thread is in the list, or gone; an exited thread has one only if it was
      linked in. */
  lemma ExitedNode(s: Life, t: Tid)
    requires Good(s) && s.main == Accepting && t in s.threads && s.threads[t].Exited?
    ensures t in s.freed || t !in s.list ==> t !in s.nodes
    ensures t in s.added && t !in s.list ==> t in s.freed
  {
    assert !IsNew(s, t);
    assert t in s.added <==> IsAdded(s, t);
  }

  /** As long as main accepts or sweeps, every thread can be served to its end, joined and its node
      freed: some run leads there, with main accepting again and the mutex free. */
  lemma EveryThreadCanBeReaped(s: Life, t: Tid) returns (s': Life)
    requires Reachable(s) && Attends(s.main) && t in s.threads
    ensures Leads(s, s') && s'.main == Accepting && s'.mutex == None
    ensures t in s'.threads && s'.threads[t].Exited? && t !in s'.nodes
    ensures t in s.list || t in s.added ==> t in s'.freed
  {
    var ready := MainCanAccept(s);
    s' := ClientCanExit(ready, t);
    LeadsTransitively(s, ready, s');
    assert t in s.list ==> t in s.added;
    assert t in s.added ==> t in s'.added;
    ExitedNode(s', t);
    if t in s'.list {
      var exited := s';
      s' := NextSweepFrees(exited, t);
      LeadsTransitively(s, exited, s');
      assert t in s'.joined;
    }
  }

  // ----- shutdown -----

  predicate Cleans(m: MainPc) {
    m.Cleaning? || m.CleanJoin? || m.CleanFree?
  }

  function InHands(m: MainPc): seq<Tid> {
    if m.CleanJoin? || m.CleanFree? then [m.t] else []
  }

  /** s is a state in the middle of a cleanup that began at s0, with j nodes taken off the list. */
  ghost predicate Cleaned(s0: Life, s: Life, j: nat) {
    && j <= |s0.list| && Cleans(s.main)
    && s.list == s0.list[j..]
    && s.freed + InHands(s.main) == s0.freed + s0.list[..j]
  }

  /** What a cleanup that began at s0 has done when it is over. */
  ghost predicate CleanDone(s0: Life, s: Life) {
    && s.main == Over && s.list == [] && s.head == None
    && s.joined == s0.joined + s0.list
    && s.freed == s0.freed + s0.list
  }

  lemma CleanTakes(s0: Life, s: Life, j: nat)
    requires Linked(s.head, s.nodes, s.list) && Cleaned(s0, s, j) && s.main.Cleaning?
    requires s0.joined == s0.freed && s.joined == s.freed
    ensures StepMain(s).Goes?
    ensures if j == |s0.list| then CleanDone(s0, StepMain(s).s) else Cleaned(s0, StepMain(s).s, j + 1)
  {
    EmptyEnds(s.freed);
    if j == |s0.list| {
      assert s0.list[..j] == s0.list;
    } else {
      assert s.list[0] == s0.list[j];
      assert s0.list[..j + 1] == s0.list[..j] + [s0.list[j]];
      Regroup(s0.freed, s0.list[..j], [s0.list[j]]);
    }
  }

  lemma CleanJoinsAndFrees(s: Life)
    requires Cleans(s.main) && !s.main.Cleaning? && StepMain(s).Goes?
    ensures var s' := StepMain(s).s;
            && Cleans(s'.main) && s'.list == s.list
            && s'.freed + InHands(s'.main) == s.freed + InHands(s.main)
  {
    EmptyEnds(s.freed + InHands(s.main));
  }

  lemma CleanStep(s0: Life, s: Life, j: nat, a: Action) returns (j': nat)
    requires Good(s) && Cleaned(s0, s, j) && s0.joined == s0.freed && Step(s, a).Goes?
    ensures var s' := Step(s, a).s;
            if Cleans(s'.main) then Cleaned(s0, s', j') else CleanDone(s0, s')
  {
    j' := j;
    if !a.MainMoves? {
      HolderUndisturbed(s, a);
    } else if s.main.Cleaning? {
      EmptyEnds(s.freed);
      CleanTakes(s0, s, j);
      j' := j + 1;
    } else {
      CleanJoinsAndFrees(s);
    }
  }

  /** Main cleans up in every state of the run but the last. */
  ghost predicate CleansThrough(s: Life, steps: seq<Action>)
    decreases |steps|
  {
    steps == [] || (Cleans(s.main) && Step(s, steps[0]).Goes? && CleansThrough(Step(s, steps[0]).s, steps[1..]))
  }

  lemma {:induction false} CleanRun(s0: Life, s: Life, j: nat, steps: seq<Action>)
    requires Good(s) && Cleaned(s0, s, j) && s0.joined == s0.freed
    requires CleansThrough(s, steps) && Run(s, steps).Some? && Run(s, steps).value.main == Over
    ensures CleanDone(s0, Run(s, steps).value)
    decreases |steps|
  {
    var s' := Step(s, steps[0]).s;
    var j' := CleanStep(s0, s, j, steps[0]);
    if Cleans(s'.main) {
      StepKeepsGood(s, steps[0]);
      CleanRun(s0, s', j', steps[1..]);
    } else {
      assert steps[1..] == [];
    }
  }

  /** A cleanup that comes to its end has joined and freed every node of the list it found, in list
      order, and no other, and has left an empty list, whatever the clients did meanwhile. */
  lemma CleanupFreesAll(s: Life, steps: seq<Action>)
    requires Reachable(s) && s.main == WantsToClean && s.mutex == None
    requires CleansThrough(Step(s, MainMoves).s, steps)
    requires Run(Step(s, MainMoves).s, steps).Some?
    requires Run(Step(s, MainMoves).s, steps).value.main == Over
    ensures CleanDone(s, Run(Step(s, MainMoves).s, steps).value)
  {
    var s1 := Step(s, MainMoves).s;
    StepKeepsGood(s, MainMoves);
    assert Cleaned(s, s1, 0) by {
      assert s.list[0..] == s.list && s.list[..0] == [];
    }
    CleanRun(s, s1, 0, steps);
  }

  /** Some run gets main to the end of its cleanup. */
  ghost predicate CanEnd(s: Life) {
    exists s' :: Leads(s, s') && s'.main == Over
  }

  /** Main waits, or will, for a thread that has not flagged its node and never can. */
  ghost predicate Doomed(s: Life, t: Tid) {
    && Good(s) && t in s.threads && (s.threads[t].Serving? || s.threads[t].WantsToFlag?)
    && match s.main
       case Cleaning => true
       case CleanJoin(_) => true
       case CleanFree(u) => u != t
       case _ => false
  }

  lemma DoomedClientStep(s: Life, t: Tid, u: Tid, oom: bool)
    requires MutexOk(s) && MainHolds(s.main) && StepClient(s, u, oom).Goes?
    requires t in s.threads && (s.threads[t].Serving? || s.threads[t].WantsToFlag?)
    ensures var s' := StepClient(s, u, oom).s;
            && s'.main == s.main
            && t in s'.threads && (s'.threads[t].Serving? || s'.threads[t].WantsToFlag?)
  {
  }

  lemma DoomedMainStep(s: Life, t: Tid)
    requires Doomed(s, t) && StepMain(s).Goes?
    ensures var s' := StepMain(s).s;
            s'.threads == s.threads
            && (s'.main.Cleaning? || s'.main.CleanJoin? || (s'.main.CleanFree? && s'.main.t != t))
  {
    if s.main.Cleaning? {
      assert t in s.added && t !in s.joined && t in s.list;
    }
  }

  lemma DoomedStep(s: Life, t: Tid, a: Action)
    requires Doomed(s, t) && Step(s, a).Goes?
    ensures Doomed(Step(s, a).s, t)
  {
    StepKeepsGood(s, a);
    match a
    case ClientMoves(u, oom) => DoomedClientStep(s, t, u, oom);
    case MainMoves => DoomedMainStep(s, t);
    case _ =>
  }

  lemma {:induction false} DoomedForever(s: Life, t: Tid, steps: seq<Action>)
    requires Doomed(s, t) && Run(s, steps).Some?
    ensures Doomed(Run(s, steps).value, t)
    decreases |steps|
  {
    if steps != [] {
      DoomedStep(s, t, steps[0]);
      DoomedForever(Step(s, steps[0]).s, t, steps[1..]);
    }
  }

  lemma HeadIsTaken(s: Life)
    requires Good(s) && s.main == Cleaning && s.list != [] && s.list[0] in s.flagged
    ensures StepMain(s).Goes? && Good(StepMain(s).s)
    ensures var t, s' := s.list[0], StepMain(s).s;
            && s'.main == CleanJoin(t) && s'.list == s.list[1..] && s'.flagged == s.flagged
            && t in s'.threads && (s'.threads[t].Returning? || s'.threads[t].Exited?)
  {
    MainKeepsGood(s);
    assert s.list[0] in s.nodes && IsFlagged(s, s.list[0]);
    FlaggedHasReturned(s, s.list[0]);
  }

  lemma JoinAndFree(s: Life, t: Tid) returns (s': Life)
    requires Good(s) && s.main == CleanJoin(t) && t in s.threads && s.threads[t].Exited?
    ensures Good(s') && Leads(s, s') && s'.main == Cleaning && s'.list == s.list && s'.flagged == s.flagged
  {
    LeadsToItself(s);
    assert t in s.nodes;
    var s1 := LeadsOn(s, s, MainMoves);
    MainKeepsGood(s);
    s' := LeadsOn(s, s1, MainMoves);
    MainKeepsGood(s1);
  }

  lemma ExitsAndIsFreed(s: Life, t: Tid) returns (s': Life)
    requires Good(s) && s.main == CleanJoin(t) && t in s.threads && (s.threads[t].Returning? || s.threads[t].Exited?)
    ensures Good(s') && Leads(s, s') && s'.main == Cleaning && s'.list == s.list && s'.flagged == s.flagged
  {
    var exited := LeadsToExit(s, t);
    s' := JoinAndFree(exited, t);
    LeadsTransitively(s, exited, s');
  }

  /** One turn of the cleanup loop, when the thread at the head has flagged its node. */
  lemma CleansOne(s: Life) returns (s': Life)
    requires Good(s) && s.main == Cleaning && s.list != [] && s.list[0] in s.flagged
    ensures Good(s') && Leads(s, s') && s'.main == Cleaning
    ensures s'.list == s.list[1..] && s'.flagged == s.flagged
  {
    HeadIsTaken(s);
    OneStepLeads(s, MainMoves);
    s' := ExitsAndIsFreed(StepMain(s).s, s.list[0]);
    LeadsTransitively(s, StepMain(s).s, s');
  }

  lemma {:induction false} CleansAll(s: Life)
    requires Good(s) && s.main == Cleaning && forall t :: t in s.list ==> t in s.flagged
    ensures CanEnd(s)
    decreases |s.list|
  {
    if s.list == [] {
      LeadsToItself(s);
      var s' := LeadsOn(s, s, MainMoves);
    } else {
      var s1 := CleansOne(s);
      CleansAll(s1);
      var s' :| Leads(s1, s') && s'.main == Over;
      LeadsTransitively(s, s1, s');
    }
  }

  /** cleanup_thread_list joins while holding the mutex its clients need to flag themselves.  So,
      once it holds the mutex, it can come to its end exactly when every thread whose node is in the
      list has flagged it; otherwise it never does, whatever runs. */
  lemma CleanupEndsIffAllFlagged(s: Life)
    requires Reachable(s) && s.main == Cleaning
    ensures CanEnd(s) <==> forall t :: t in s.list ==> t in s.flagged
  {
    if forall t :: t in s.list ==> t in s.flagged {
      CleansAll(s);
    } else {
      var t :| t in s.list && t !in s.flagged;
      assert t in s.added && t in s.threads;
      NeverEnds(s, t);
    }
  }

  /** The same, as main can know it before the call: if it gets the mutex now, the call can end
      exactly when every node in the list is flagged now. */
  lemma CleanupBeforeTheCall(s: Life)
    requires Reachable(s) && s.main == WantsToClean && s.mutex == None
    ensures Step(s, MainMoves).Goes?
    ensures CanEnd(Step(s, MainMoves).s) <==> forall t :: t in s.list ==> t in s.flagged
  {
    LeadsToItself(s);
    var s' := LeadsOn(START, s, MainMoves);
    CleanupEndsIffAllFlagged(s');
  }

  /** One client is being served, and main accepts the next. */
  function OneServed(): Life {
    Life(map[0 := Serving], Accepting, None, Some(0), map[0 := Node(None, false)], [0], [0], [], [], [])
  }

  /** Just before, when the client had linked its node in. */
  function OneAdded(): Life {
    OneServed().(threads := map[0 := Added], mutex := Some(Client(0)), main := WantsToSweep)
  }

  lemma OneAddedIsReachable()
    ensures Leads(START, OneAdded())
  {
    LeadsToItself(START);
    var s := LeadsOn(START, START, Create(0));
    s := LeadsOn(START, s, ClientMoves(0, false));
    s := LeadsOn(START, s, ClientMoves(0, false));
    assert s == START.(threads := map[0 := Adding], main := WantsToSweep, mutex := Some(Client(0)),
                       nodes := map[0 := Node(None, false)]);
    s := LeadsOn(START, s, ClientMoves(0, false));
    assert s == OneAdded();
  }

  lemma OneServedIsReachable()
    ensures Reachable(OneServed())
  {
    var one := OneServed();
    OneAddedIsReachable();
    var s := LeadsOn(START, OneAdded(), ClientMoves(0, false));
    assert s == one.(main := WantsToSweep);
    s := LeadsOn(START, s, MainMoves);
    assert s == one.(main := Sweeping(Walk(None, Some(0), 0)), mutex := Some(Main));
    s := LeadsOn(START, s, MainMoves);
    assert s == one.(main := Sweeping(Walk(Some(0), None, 1)), mutex := Some(Main));
    s := LeadsOn(START, s, MainMoves);
    assert s == one;
  }

  /** Main waits for that client, which waits for main. */
  function OneHangs(): Life {
    OneServed().(main := CleanJoin(0), mutex := Some(Main), head := None, list := [])
  }

  lemma OneHangsIsReachable()
    ensures Reachable(OneHangs())
  {
    OneServedIsReachable();
    var s := LeadsOn(START, OneServed(), ShutDown);
    assert s == OneServed().(main := WantsToClean);
    s := LeadsOn(START, s, MainMoves);
    assert s == OneServed().(main := Cleaning, mutex := Some(Main));
    s := LeadsOn(START, s, MainMoves);
    assert s == OneHangs();
  }

  /** A run that hangs: main is told to shut down while a client is being served. */
  lemma CleanupCanHang() returns (s: Life)
    ensures Reachable(s) && s.main == CleanJoin(0) && 0 !in s.flagged
    ensures Step(s, MainMoves) == Blocked && !CanEnd(s)
  {
    OneHangsIsReachable();
    s := OneHangs();
    assert Good(s);
    NeverEnds(s, 0);
  }

  lemma NeverEnds(s: Life, t: Tid)
    requires Doomed(s, t)
    ensures !CanEnd(s)
  {
    forall s' | Leads(s, s') ensures s'.main != Over {
      var steps: seq<Action> :| Run(s, steps) == Some(s');
      DoomedForever(s, t, steps);
    }
  }
}
