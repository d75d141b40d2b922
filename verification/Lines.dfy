/** When the device's commands are the lines of the byte stream written to it.

    `Split` reads the stream one byte at a time and knows nothing of chunks. */
module Lines {
  import opened Bytes
  import opened CommandLog

  /** The newline-terminated lines of a stream, and the unterminated rest. */
  function Split(s: bytes): Log {
    if s == [] then EMPTY_LOG
    else
      var before := Split(s[..|s| - 1]);
      var b := s[|s| - 1];
      if b == NEWLINE then Log(before.history + [before.pending + [b]], [])
      else Log(before.history, before.pending + [b])
  }

  /** No newline before the last byte. */
  ghost predicate LineAligned(c: bytes) {
    forall i :: 0 <= i < |c| - 1 ==> c[i] != NEWLINE
  }

  ghost predicate IsLine(c: bytes) {
    c != [] && c[|c| - 1] == NEWLINE && LineAligned(c)
  }

  /** A stream cut into lines and an unterminated rest. */
  ghost predicate IsCutOf(l: Log, s: bytes) {
    && Concat(l.history) + l.pending == s
    && (forall i :: 0 <= i < |l.history| ==> IsLine(l.history[i]))
    && NEWLINE !in l.pending
  }

  /** Split really cuts the stream into lines. */
  lemma {:induction false} SplitIsACut(s: bytes)
    ensures IsCutOf(Split(s), s)
  {
    if s != [] {
      var s', b := s[..|s| - 1], s[|s| - 1];
      SplitIsACut(s');
      var before := Split(s');
      assert s == s' + [b];
      if b == NEWLINE {
        ConcatSnoc(before.history, before.pending + [b]);
        assert Concat(before.history) + (before.pending + [b]) == s;
      } else {
        assert Concat(before.history) + (before.pending + [b]) == s;
      }
    }
  }

  /** And no other cut exists. */
  lemma {:induction false} CutIsUnique(s: bytes, l: Log)
    requires IsCutOf(l, s)
    ensures l == Split(s)
  {
    if s == [] {
      if l.history != [] {
        FirstLineNotEmpty(l.history);
      }
    } else {
      var l' := LastByteOff(l, s);
      CutIsUnique(s[..|s| - 1], l');
    }
  }

  lemma FirstLineNotEmpty(lines: seq<bytes>)
    requires lines != [] && IsLine(lines[0])
    ensures Concat(lines) != []
  {
  }

  /** The cut of a stream with its last byte taken off again. */
  lemma LastByteOff(l: Log, s: bytes) returns (l': Log)
    requires s != [] && IsCutOf(l, s)
    ensures IsCutOf(l', s[..|s| - 1])
    ensures s[|s| - 1] == NEWLINE ==> l == Log(l'.history + [l'.pending + [NEWLINE]], [])
    ensures s[|s| - 1] != NEWLINE ==> l == Log(l'.history, l'.pending + [s[|s| - 1]])
  {
    if l.pending != [] {
      var p := l.pending;
      l' := Log(l.history, p[..|p| - 1]);
      assert p == p[..|p| - 1] + [p[|p| - 1]];
      assert Concat(l.history) + p[..|p| - 1] == s[..|s| - 1];
    } else {
      assert l.history != [];
      var n := |l.history| - 1;
      var c := l.history[n];
      assert IsLine(c) && c == c[..|c| - 1] + [NEWLINE];
      l' := Log(l.history[..n], c[..|c| - 1]);
      assert l.history == l.history[..n] + [c];
      ConcatSnoc(l.history[..n], c);
      assert Concat(l.history[..n]) + c[..|c| - 1] == s[..|s| - 1];
    }
  }

  lemma SplitSnoc(s: bytes, b: byte)
    ensures Split(s + [b]) == if b == NEWLINE then Log(Split(s).history + [Split(s).pending + [b]], [])
                              else Log(Split(s).history, Split(s).pending + [b])
  {
    assert (s + [b])[..|s|] == s;
  }

  lemma {:induction false} SplitPlain(s: bytes, c: bytes)
    requires NEWLINE !in c
    ensures Split(s + c) == Log(Split(s).history, Split(s).pending + c)
  {
    if c == [] {
      assert s + c == s;
    } else {
      var c', b := c[..|c| - 1], c[|c| - 1];
      assert c == c' + [b];
      Regroup(s, c', [b]);
      Regroup(Split(s).pending, c', [b]);
      SplitPlain(s, c');
      SplitSnoc(s + c', b);
    }
  }

  lemma AppendLine(s: bytes, c: bytes)
    requires NEWLINE !in c
    ensures Append(Split(s), c + [NEWLINE]) == Split(s + (c + [NEWLINE]))
  {
    Regroup(s, c, [NEWLINE]);
    Regroup(Split(s).pending, c, [NEWLINE]);
    SplitPlain(s, c);
    SplitSnoc(s + c, NEWLINE);
    assert (Split(s).pending + c + [NEWLINE])[|Split(s).pending + c|] == NEWLINE;
  }

  /** An aligned chunk is newline-free, or newline-free up to its last byte. */
  lemma AlignedForms(c: bytes)
    requires LineAligned(c) && NEWLINE in c
    ensures c == c[..|c| - 1] + [NEWLINE] && NEWLINE !in c[..|c| - 1]
  {
    var i :| 0 <= i < |c| && c[i] == NEWLINE;
    assert i == |c| - 1;
  }

  /** One aligned chunk moves the log from the lines of s to the lines of s + c. */
  lemma AppendAligned(s: bytes, c: bytes)
    requires LineAligned(c)
    ensures Append(Split(s), c) == Split(s + c)
  {
    if NEWLINE in c {
      AlignedForms(c);
      AppendLine(s, c[..|c| - 1]);
    } else {
      SplitIsACut(s);
      SplitPlain(s, c);
    }
  }

  lemma {:induction false} AlignedRun(s: bytes, chunks: seq<bytes>)
    requires forall i :: 0 <= i < |chunks| ==> LineAligned(chunks[i])
    ensures AppendAll(Split(s), chunks) == Split(s + Concat(chunks))
    decreases |chunks|
  {
    if chunks == [] {
      assert s + Concat(chunks) == s;
    } else {
      assert LineAligned(chunks[0]);
      AppendAligned(s, chunks[0]);
      AlignedRun(s + chunks[0], chunks[1..]);
      Regroup(s, chunks[0], Concat(chunks[1..]));
    }
  }

  lemma {:induction false} HistoryOnlyGrows(l: Log, chunks: seq<bytes>)
    ensures l.history <= AppendAll(l, chunks).history
    decreases |chunks|
  {
    if chunks != [] {
      HistoryOnlyGrows(Append(l, chunks[0]), chunks[1..]);
    }
  }

  /** A chunk with an interior newline leaves a command that is not a line, for good. */
  lemma {:induction false} UnalignedRun(l: Log, chunks: seq<bytes>, i: nat)
    requires i < |chunks| && !LineAligned(chunks[i])
    ensures exists k :: 0 <= k < |AppendAll(l, chunks).history| && !IsLine(AppendAll(l, chunks).history[k])
    decreases |chunks|
  {
    var l' := Append(l, chunks[0]);
    assert AppendAll(l, chunks) == AppendAll(l', chunks[1..]);
    if i > 0 {
      UnalignedRun(l', chunks[1..], i - 1);
    } else {
      var c := chunks[0];
      var j :| 0 <= j < |c| - 1 && c[j] == NEWLINE;
      var command := l.pending + c;
      assert command[|l.pending| + j] == NEWLINE;
      assert l'.history[|l.history|] == command && !IsLine(command);
      HistoryOnlyGrows(l', chunks[1..]);
      assert AppendAll(l, chunks).history[|l.history|] == command;
    }
  }

  /** However a stream is cut into chunks, the commands are its lines and the pending bytes its
      unterminated rest, exactly when no chunk has a newline before its last byte. */
  lemma ChunkingIndependence(chunks: seq<bytes>)
    ensures AppendAll(EMPTY_LOG, chunks) == Split(Concat(chunks))
            <==> forall i :: 0 <= i < |chunks| ==> LineAligned(chunks[i])
  {
    if forall i :: 0 <= i < |chunks| ==> LineAligned(chunks[i]) {
      AlignedRun([], chunks);
      assert [] + Concat(chunks) == Concat(chunks);
    } else {
      var i :| 0 <= i < |chunks| && !LineAligned(chunks[i]);
      UnalignedRun(EMPTY_LOG, chunks, i);
      SplitIsACut(Concat(chunks));
    }
  }
}
