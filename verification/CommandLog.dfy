/** What the device is for, without ring or memory: every accepted chunk is appended to the
    pending bytes, and the pending bytes become a command as soon as they contain a newline.
    History is never forgotten here; the device shows its last ten commands. */
module CommandLog {
  import opened Bytes
  import opened RingBuffer

  datatype Log = Log(history: seq<bytes>, pending: bytes)

  const EMPTY_LOG := Log([], [])

  function Append(l: Log, chunk: bytes): Log {
    var p := l.pending + chunk;
    if NEWLINE in p then Log(l.history + [p], []) else Log(l.history, p)
  }

  function AppendAll(l: Log, chunks: seq<bytes>): Log
    decreases |chunks|
  {
    if chunks == [] then l else AppendAll(Append(l, chunks[0]), chunks[1..])
  }

  /** The commands the device still shows, and those it has dropped. */
  function Stored(l: Log): seq<bytes> {
    LastN(l.history, MAX_WRITES)
  }

  function Evicted(l: Log): seq<bytes> {
    l.history[..|l.history| - |Stored(l)|]
  }

  function Exposed(l: Log): bytes {
    Concat(Stored(l))
  }

  function AllBytes(l: Log): bytes {
    Concat(Evicted(l)) + Concat(Stored(l)) + l.pending
  }

  lemma {:induction false} AppendAllSnoc(l: Log, chunks: seq<bytes>, chunk: bytes)
    ensures AppendAll(l, chunks + [chunk]) == Append(AppendAll(l, chunks), chunk)
    decreases |chunks|
  {
    if chunks == [] {
      assert chunks + [chunk] == [chunk];
      assert AppendAll(Append(l, chunk), []) == Append(l, chunk);
    } else {
      assert (chunks + [chunk])[1..] == chunks[1..] + [chunk];
      AppendAllSnoc(Append(l, chunks[0]), chunks[1..], chunk);
    }
  }

  lemma AllBytesIsHistoryAndPending(l: Log)
    ensures AllBytes(l) == Concat(l.history) + l.pending
  {
    assert l.history == Evicted(l) + Stored(l);
    ConcatAppend(Evicted(l), Stored(l));
  }

  /** No byte is lost, duplicated or reordered: dropped commands, stored commands and pending
      bytes are together the accepted chunks laid end to end. */
  lemma {:induction false} ByteConservation(l: Log, chunks: seq<bytes>)
    ensures AllBytes(AppendAll(l, chunks)) == AllBytes(l) + Concat(chunks)
    decreases |chunks|
  {
    if chunks != [] {
      var l' := Append(l, chunks[0]);
      AllBytesIsHistoryAndPending(l);
      AllBytesIsHistoryAndPending(l');
      ConcatSnoc(l.history, l.pending + chunks[0]);
      assert AllBytes(l') == AllBytes(l) + chunks[0];
      ByteConservation(l', chunks[1..]);
    }
  }

  lemma ConservationFromStart(chunks: seq<bytes>)
    ensures AllBytes(AppendAll(EMPTY_LOG, chunks)) == Concat(chunks)
  {
    ByteConservation(EMPTY_LOG, chunks);
    assert AllBytes(EMPTY_LOG) == [];
    assert [] + Concat(chunks) == Concat(chunks);
  }

  // ----- which chunks make up which command -----

  ghost predicate Plain(chunks: seq<bytes>) {
    forall i :: 0 <= i < |chunks| ==> NEWLINE !in chunks[i]
  }

  /** Chunks whose first newline is in the last of them. */
  ghost predicate Closes(group: seq<bytes>) {
    group != [] && NEWLINE in group[|group| - 1] && Plain(group[..|group| - 1])
  }

  ghost predicate Form(groups: seq<seq<bytes>>, commands: seq<bytes>) {
    && |groups| == |commands|
    && forall i :: 0 <= i < |groups| ==> Closes(groups[i]) && Concat(groups[i]) == commands[i]
  }

  /** The chunks cut into one group for every command, in order, and a rest without newline: a
      command is its group's chunks laid end to end, so its first newline is in the chunk that
      completed it, and the pending bytes are the rest. */
  ghost predicate GroupedAs(l: Log, chunks: seq<bytes>, groups: seq<seq<bytes>>, rest: seq<bytes>) {
    && Flatten(groups) + rest == chunks
    && Form(groups, l.history)
    && Plain(rest) && Concat(rest) == l.pending
  }

  ghost predicate NewlineRule(l: Log, chunks: seq<bytes>) {
    exists groups: seq<seq<bytes>>, rest: seq<bytes> :: GroupedAs(l, chunks, groups, rest)
  }

  lemma {:induction false} PlainBytes(chunks: seq<bytes>)
    requires Plain(chunks)
    ensures NEWLINE !in Concat(chunks)
  {
    if chunks != [] {
      PlainBytes(chunks[1..]);
    }
  }

  lemma FormSnoc(groups: seq<seq<bytes>>, commands: seq<bytes>, group: seq<bytes>)
    requires Form(groups, commands) && Closes(group)
    ensures Form(groups + [group], commands + [Concat(group)])
  {
  }

  /** One more chunk either joins the rest or closes a new group with it. */
  lemma GroupStep(l: Log, chunks: seq<bytes>, groups: seq<seq<bytes>>, rest: seq<bytes>, chunk: bytes)
    requires GroupedAs(l, chunks, groups, rest)
    ensures NewlineRule(Append(l, chunk), chunks + [chunk])
  {
    PlainBytes(rest);
    ConcatSnoc(rest, chunk);
    var group := rest + [chunk];
    Regroup(Flatten(groups), rest, [chunk]);
    if NEWLINE in chunk {
      assert group[..|rest|] == rest;
      FlattenSnoc(groups, group);
      FormSnoc(groups, l.history, group);
      assert GroupedAs(Append(l, chunk), chunks + [chunk], groups + [group], []);
    } else {
      assert GroupedAs(Append(l, chunk), chunks + [chunk], groups, group);
    }
  }

  lemma {:induction false} RuleOverRun(l: Log, seen: seq<bytes>, chunks: seq<bytes>)
    requires NewlineRule(l, seen)
    ensures NewlineRule(AppendAll(l, chunks), seen + chunks)
    decreases |chunks|
  {
    if chunks == [] {
      assert seen + chunks == seen;
    } else {
      var groups: seq<seq<bytes>>, rest: seq<bytes> :| GroupedAs(l, seen, groups, rest);
      GroupStep(l, seen, groups, rest, chunks[0]);
      RuleOverRun(Append(l, chunks[0]), seen + [chunks[0]], chunks[1..]);
      assert seen + [chunks[0]] + chunks[1..] == seen + chunks;
    }
  }

  lemma {:induction false} AppendAllAppend(l: Log, a: seq<bytes>, b: seq<bytes>)
    ensures AppendAll(l, a + b) == AppendAll(AppendAll(l, a), b)
    decreases |a|
  {
    if a == [] {
      assert a + b == b;
    } else {
      assert (a + b)[1..] == a[1..] + b;
      AppendAllAppend(Append(l, a[0]), a[1..], b);
    }
  }

  lemma {:induction false} PlainOnlyPends(l: Log, rest: seq<bytes>)
    requires NEWLINE !in l.pending && Plain(rest)
    ensures AppendAll(l, rest) == Log(l.history, l.pending + Concat(rest))
    decreases |rest|
  {
    if rest != [] {
      PlainOnlyPends(Append(l, rest[0]), rest[1..]);
      Regroup(l.pending, rest[0], Concat(rest[1..]));
    }
  }

  lemma GroupCommits(l: Log, group: seq<bytes>)
    requires l.pending == [] && Closes(group)
    ensures AppendAll(l, group) == Log(l.history + [Concat(group)], [])
  {
    var before, last := group[..|group| - 1], group[|group| - 1];
    PlainOnlyPends(l, before);
    assert group == before + [last];
    AppendAllSnoc(l, before, last);
    ConcatSnoc(before, last);
    assert [] + Concat(before) + last == Concat(before) + last;
  }

  lemma {:induction false} GroupsCommit(groups: seq<seq<bytes>>)
    requires forall i :: 0 <= i < |groups| ==> Closes(groups[i])
    ensures var l := AppendAll(EMPTY_LOG, Flatten(groups));
            && l.pending == [] && |l.history| == |groups|
            && forall i :: 0 <= i < |groups| ==> l.history[i] == Concat(groups[i])
    decreases |groups|
  {
    if groups != [] {
      var n := |groups| - 1;
      GroupsCommit(groups[..n]);
      AppendAllAppend(EMPTY_LOG, Flatten(groups[..n]), groups[n]);
      GroupCommits(AppendAll(EMPTY_LOG, Flatten(groups[..n])), groups[n]);
    }
  }

  lemma GroupingDetermines(l: Log, chunks: seq<bytes>, groups: seq<seq<bytes>>, rest: seq<bytes>)
    requires GroupedAs(l, chunks, groups, rest)
    ensures l == AppendAll(EMPTY_LOG, chunks)
  {
    GroupsCommit(groups);
    AppendAllAppend(EMPTY_LOG, Flatten(groups), rest);
    PlainOnlyPends(AppendAll(EMPTY_LOG, Flatten(groups)), rest);
    assert [] + Concat(rest) == Concat(rest);
    assert AppendAll(EMPTY_LOG, Flatten(groups)).history == l.history;
  }

  /** The log of a run is the one and only log that groups the run's chunks this way. */
  lemma NewlineInvariant(l: Log, chunks: seq<bytes>)
    ensures l == AppendAll(EMPTY_LOG, chunks) <==> NewlineRule(l, chunks)
  {
    assert GroupedAs(EMPTY_LOG, [], [], []);
    RuleOverRun(EMPTY_LOG, [], chunks);
    assert [] + chunks == chunks;
    if NewlineRule(l, chunks) {
      var groups: seq<seq<bytes>>, rest: seq<bytes> :| GroupedAs(l, chunks, groups, rest);
      GroupingDetermines(l, chunks, groups, rest);
    }
  }

  /** What the rule says of each command and of the pending bytes, with the newline as the byte 10. */
  lemma RuleForCommands(l: Log, chunks: seq<bytes>)
    requires NewlineRule(l, chunks)
    ensures 10 !in l.pending
    ensures forall i :: 0 <= i < |l.history| ==> 10 in l.history[i]
  {
    var groups: seq<seq<bytes>>, rest: seq<bytes> :| GroupedAs(l, chunks, groups, rest);
    PlainBytes(rest);
    forall i | 0 <= i < |l.history| ensures NEWLINE in l.history[i] {
      var g := groups[i];
      assert g == g[..|g| - 1] + [g[|g| - 1]];
      ConcatSnoc(g[..|g| - 1], g[|g| - 1]);
    }
  }
}
