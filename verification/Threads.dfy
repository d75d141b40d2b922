/** Threads, and what is left of a list of them or of their nodes when some are taken out. */
module Threads {
  type Tid = nat

  ghost function AsSet<T>(ns: seq<T>): set<T> {
    set n | n in ns
  }

  ghost predicate Distinct<T>(ns: seq<T>) {
    forall i, j :: 0 <= i < j < |ns| ==> ns[i] != ns[j]
  }

  /** The first n nodes without those in `done`, in list order. */
  ghost function Without<T>(ns: seq<T>, done: set<T>, n: nat): seq<T>
    requires n <= |ns|
  {
    if n == 0 then []
    else if ns[n - 1] in done then Without(ns, done, n - 1)
    else Without(ns, done, n - 1) + [ns[n - 1]]
  }

  /** Those of the first n nodes that are in `done`, in list order. */
  ghost function Among<T>(ns: seq<T>, done: set<T>, n: nat): seq<T>
    requires n <= |ns|
  {
    if n == 0 then []
    else if ns[n - 1] in done then Among(ns, done, n - 1) + [ns[n - 1]]
    else Among(ns, done, n - 1)
  }

  // ----- what Without and Among mean -----

  lemma MultisetSnoc<T>(ns: seq<T>, x: T)
    ensures multiset(ns + [x]) == multiset(ns) + multiset{x}
  {
  }

  /** Every node is in exactly one of the two, as often as it is in the list, decided by
      membership in `done`. */
  lemma {:induction false} WithoutAndAmongSplit<T>(ns: seq<T>, done: set<T>, n: nat)
    requires n <= |ns|
    ensures multiset(Without(ns, done, n)) + multiset(Among(ns, done, n)) == multiset(ns[..n])
  {
    if n > 0 {
      var (x, w, a) := (ns[n - 1], Without(ns, done, n - 1), Among(ns, done, n - 1));
      WithoutAndAmongSplit(ns, done, n - 1);
      assert ns[..n] == ns[..n - 1] + [x];
      MultisetSnoc(ns[..n - 1], x);
      MultisetSnoc(a, x);
      MultisetSnoc(w, x);
      OneMoreOf(multiset(w), multiset(a), x);
    }
  }

  lemma OneMoreOf<T>(a: multiset<T>, b: multiset<T>, x: T)
    ensures a + (b + multiset{x}) == a + b + multiset{x}
    ensures (a + multiset{x}) + b == a + b + multiset{x}
  {
  }

  lemma {:induction false} MembersByDone<T>(ns: seq<T>, done: set<T>, n: nat)
    requires n <= |ns|
    ensures forall i :: 0 <= i < |Without(ns, done, n)| ==> Without(ns, done, n)[i] !in done
    ensures forall i :: 0 <= i < |Among(ns, done, n)| ==> Among(ns, done, n)[i] in done
  {
    if n > 0 {
      MembersByDone(ns, done, n - 1);
    }
  }

  /** Every listed element of `done` is in Among. */
  lemma {:induction false} AmongHas<T>(ns: seq<T>, done: set<T>, n: nat, i: nat)
    requires i < n <= |ns| && ns[i] in done
    ensures ns[i] in Among(ns, done, n)
  {
    if i < n - 1 {
      AmongHas(ns, done, n - 1, i);
    }
  }

  /** Both keep the list's order. */
  lemma {:induction false} OrderIsKept<T>(ns: seq<T>, done: set<T>, n: nat)
    requires n <= |ns|
    ensures InOrder(Without(ns, done, n), ns[..n])
    ensures InOrder(Among(ns, done, n), ns[..n])
  {
    if n > 0 {
      var x, before := ns[n - 1], ns[..n - 1];
      OrderIsKept(ns, done, n - 1);
      assert ns[..n] == before + [x];
      if x in done {
        InOrderGrows(Without(ns, done, n - 1), before, x);
        InOrderBoth(Among(ns, done, n - 1), before, x);
      } else {
        InOrderBoth(Without(ns, done, n - 1), before, x);
        InOrderGrows(Among(ns, done, n - 1), before, x);
      }
    }
  }

  lemma AmongIsAll<T>(ns: seq<T>, done: set<T>)
    requires done <= AsSet(ns)
    ensures AsSet(Among(ns, done, |ns|)) == done
  {
    WithoutAndAmongSplit(ns, done, |ns|);
    MembersByDone(ns, done, |ns|);
    assert ns[..|ns|] == ns;
    forall x | x in done ensures x in Among(ns, done, |ns|) {
      assert x in multiset(ns);
      assert x in multiset(Without(ns, done, |ns|)) || x in multiset(Among(ns, done, |ns|));
    }
  }

  /** `part` is what is left of `whole` after striking out some elements. */
  ghost predicate InOrder<T>(part: seq<T>, whole: seq<T>) {
    if part == [] then true
    else if whole == [] then false
    else
      var p, w := part[..|part| - 1], whole[..|whole| - 1];
      (part[|part| - 1] == whole[|whole| - 1] && InOrder(p, w)) || InOrder(part, w)
  }

  lemma InOrderGrows<T>(part: seq<T>, whole: seq<T>, x: T)
    requires InOrder(part, whole)
    ensures InOrder(part, whole + [x])
  {
    assert (whole + [x])[..|whole|] == whole;
  }

  lemma InOrderBoth<T>(part: seq<T>, whole: seq<T>, x: T)
    requires InOrder(part, whole)
    ensures InOrder(part + [x], whole + [x])
  {
    assert (whole + [x])[..|whole|] == whole;
    assert (part + [x])[..|part|] == part;
  }
}
