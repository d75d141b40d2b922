/** The linked list of client threads that main joins and frees.

    Memory is never reclaimed in Dafny, so the list keeps the set of freed nodes; reading a node,
    writing to it, joining its thread and freeing it all demand a node that is not in that set. */
module ThreadList {
  import opened Threads

  class ThreadNode {
    const thread: Tid
    var next: ThreadNode?
    var completed: bool

    constructor (thread: Tid)
      ensures this.thread == thread && !completed && next == null
    {
      this.thread, next, completed := thread, null, false;
    }
  }

  ghost function Completed(ns: seq<ThreadNode>): set<ThreadNode>
    reads ns`completed
  {
    set x | x in ns && x.completed
  }

  ghost function ThreadsOf(ns: seq<ThreadNode>): seq<Tid> {
    seq(|ns|, i requires 0 <= i < |ns| => ns[i].thread)
  }

  ghost function NodeAt(ns: seq<ThreadNode>, i: nat): ThreadNode? {
    if i < |ns| then ns[i] else null
  }

  /** From its i-th node on, following `next` visits exactly ns and then stops. */
  ghost predicate LinkedFrom(ns: seq<ThreadNode>, i: nat)
    reads ns`next
  {
    forall j {:trigger ns[j].next} :: i <= j < |ns| ==> ns[j].next == NodeAt(ns, j + 1)
  }

  /** The bookkeeping of one joined and freed node. */
  lemma OneMoreGone(gone: seq<ThreadNode>, n: ThreadNode, joined: seq<Tid>, freed: set<ThreadNode>)
    ensures joined + ThreadsOf(gone) + [n.thread] == joined + ThreadsOf(gone + [n])
    ensures freed + AsSet(gone) + {n} == freed + AsSet(gone + [n])
  {
    assert ThreadsOf(gone + [n]) == ThreadsOf(gone) + [n.thread];
  }

  class List {
    var head: ThreadNode?
    ghost var nodes: seq<ThreadNode>
    ghost var joined: seq<Tid>
    ghost var freed: set<ThreadNode>

    /** The list is acyclic, visits `nodes`, and none of them was freed. */
    ghost predicate Valid()
      reads this, nodes`next
    {
      && head == NodeAt(nodes, 0)
      && LinkedFrom(nodes, 0)
      && Distinct(nodes)
      && (forall i :: 0 <= i < |nodes| ==> nodes[i] !in freed)
    }

    constructor ()
      ensures Valid() && nodes == [] && joined == [] && freed == {}
    {
      head, nodes, joined, freed := null, [], [], {};
    }

    // ----- access to nodes -----

    function NextOf(n: ThreadNode): ThreadNode?
      requires n !in freed
      reads this`freed, n`next
    {
      n.next
    }

    function IsCompleted(n: ThreadNode): bool
      requires n !in freed
      reads this`freed, n`completed
    {
      n.completed
    }

    method SetNext(n: ThreadNode, next: ThreadNode?)
      requires n !in freed
      modifies n`next
      ensures n.next == next
    {
      n.next := next;
    }

    method Join(n: ThreadNode)
      requires n !in freed
      modifies this`joined
      ensures joined == old(joined) + [n.thread]
    {
      joined := joined + [n.thread];
    }

    method Free(n: ThreadNode)
      requires n !in freed
      modifies this`freed
      ensures freed == old(freed) + {n}
    {
      freed := freed + {n};
    }

    // ----- operations -----

    /** Puts a new node at the head, unless there is no memory for it. */
    method AddThread(thread: Tid, outOfMemory: bool) returns (node: ThreadNode?)
      requires Valid()
      modifies this`head, this`nodes
      ensures Valid()
      ensures outOfMemory ==> node == null && nodes == old(nodes) && head == old(head)
      ensures !outOfMemory ==>
                node != null && fresh(node) && node.thread == thread && !node.completed
                && nodes == [node] + old(nodes)
    {
      if outOfMemory {
        return null;
      }
      var n := new ThreadNode(thread);
      n.next := head;
      head := n;
      nodes := [n] + nodes;
      forall j | 0 <= j < |nodes| ensures nodes[j].next == NodeAt(nodes, j + 1) {
        if j > 0 {
          assert nodes[j] == old(nodes)[j - 1];
        }
      }
      return n;
    }

    /** In the middle of the walk: `kept` are the linked nodes before `current`, and all[i..] the
        untouched ones from `current` on; none of either was freed. */
    ghost predicate Walking(all: seq<ThreadNode>, i: nat, kept: seq<ThreadNode>,
                            prev: ThreadNode?, current: ThreadNode?)
      reads this, all`next, kept`next
    {
      && i <= |all| && Distinct(all) && Distinct(kept)
      && current == NodeAt(all, i) && LinkedFrom(all, i)
      && prev == (if kept == [] then null else kept[|kept| - 1])
      && head == (if kept == [] then current else kept[0])
      && (forall k {:trigger kept[k].next} :: 0 <= k < |kept| ==>
            kept[k].next == if k + 1 < |kept| then kept[k + 1] else current)
      && (forall k :: 0 <= k < |kept| ==> kept[k] in all && kept[k] !in freed)
      && (forall k, j :: 0 <= k < |kept| && i <= j < |all| ==> kept[k] != all[j])
      && (forall j :: i <= j < |all| ==> all[j] !in freed)
    }

    /** Unlinks the current node, joins its thread and frees it. */
    method Drop(prev: ThreadNode?, node: ThreadNode, ghost all: seq<ThreadNode>, ghost i: nat,
                ghost kept: seq<ThreadNode>)
      returns (next: ThreadNode?)
      requires Walking(all, i, kept, prev, node)
      modifies this`head, this`joined, this`freed, kept`next
      ensures Walking(all, i + 1, kept, prev, next)
      ensures joined == old(joined) + [node.thread] && freed == old(freed) + {node}
    {
      if prev != null {
        SetNext(prev, NextOf(node));
      } else {
        head := NextOf(node);
      }
      next := NextOf(node);
      Join(node);
      Free(node);
    }

    /** Leaves the current node in the list. */
    lemma Keep(prev: ThreadNode?, node: ThreadNode, all: seq<ThreadNode>, i: nat, kept: seq<ThreadNode>)
      requires Walking(all, i, kept, prev, node)
      ensures Walking(all, i + 1, kept + [node], node, node.next)
    {
      var kept' := kept + [node];
      assert node == all[i];
      forall k | 0 <= k < |kept'| ensures kept'[k].next == if k + 1 < |kept'| then kept'[k + 1] else node.next {
        if k < |kept| {
          assert kept'[k] == kept[k];
        }
      }
    }

    lemma WalkDone(prev: ThreadNode?, all: seq<ThreadNode>, i: nat, kept: seq<ThreadNode>)
      requires Walking(all, i, kept, prev, null)
      ensures i == |all| && head == NodeAt(kept, 0) && LinkedFrom(kept, 0)
    {
    }

    /** Unlinks every completed node in place, joins its thread and frees it.  What is left are the
        other nodes in their old order; each completed node was joined and then freed once, in list
        order, and no freed node was touched. */
    method RemoveCompletedThreads()
      requires Valid()
      modifies this, nodes`next
      ensures Valid()
      ensures nodes == Without(old(nodes), old(Completed(nodes)), |old(nodes)|)
      ensures joined == old(joined) + ThreadsOf(Among(old(nodes), old(Completed(nodes)), |old(nodes)|))
      ensures freed == old(freed) + old(Completed(nodes))
    {
      ghost var all, done := nodes, Completed(nodes);
      ghost var i := 0;
      ghost var kept: seq<ThreadNode>, gone: seq<ThreadNode> := [], [];
      var current := head;
      var prev: ThreadNode? := null;
      while current != null
        invariant Walking(all, i, kept, prev, current)
        invariant Completed(all) == done
        invariant kept == Without(all, done, i) && gone == Among(all, done, i)
        invariant joined == old(joined) + ThreadsOf(gone)
        invariant freed == old(freed) + AsSet(gone)
        decreases |all| - i
      {
        assert current == all[i];
        if IsCompleted(current) {
          var toFree := current;
          current := Drop(prev, current, all, i, kept);
          OneMoreGone(gone, toFree, old(joined), old(freed));
          gone := gone + [toFree];
        } else {
          Keep(prev, current, all, i, kept);
          kept := kept + [current];
          prev := current;
          current := NextOf(current);
        }
        i := i + 1;
      }
      WalkDone(prev, all, i, kept);
      AmongIsAll(all, done);
      nodes := kept;
    }

    /** Joins and frees every node, from the head on. */
    method CleanupThreadList()
      requires Valid()
      modifies this
      ensures Valid() && nodes == [] && head == null
      ensures joined == old(joined) + ThreadsOf(old(nodes))
      ensures freed == old(freed) + AsSet(old(nodes))
    {
      ghost var i := 0;
      ghost var all := nodes;
      while head != null
        invariant nodes == all && 0 <= i <= |all|
        invariant head == NodeAt(all, i) && LinkedFrom(all, i)
        invariant forall j :: i <= j < |all| ==> all[j] !in freed
        invariant joined == old(joined) + ThreadsOf(all[..i])
        invariant freed == old(freed) + AsSet(all[..i])
        decreases |all| - i
      {
        var temp := head;
        head := NextOf(head);
        Join(temp);
        Free(temp);
        OneMoreGone(all[..i], temp, old(joined), old(freed));
        assert all[..i] + [temp] == all[..i + 1];
        i := i + 1;
      }
      assert all[..i] == all;
      nodes := [];
    }
  }
}
