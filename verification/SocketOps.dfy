/** Transfers that hide short counts and interruptions from their callers. */
module SocketOps {
  import opened Bytes

  /** The size of a client thread's buffer; one byte of it is kept for a terminator. */
  const BUFFER_SIZE: nat := 1024

  datatype Errno = EINTR | OTHER

  /** What became of one write(2) or read(2).  A descriptor records it for every call made. */
  datatype Outcome = Moved | Nothing | Interrupted | Errored

  /** After these a transfer goes on; after the others it must stop. */
  predicate GoesOn(o: Outcome) {
    o.Moved? || o.Interrupted?
  }

  function OutcomeOf(ret: int, errno: Errno): Outcome {
    if ret > 0 then Moved else if ret == 0 then Nothing else if errno == EINTR then Interrupted else Errored
  }

  /** Every call made after those in `was` moved something or was interrupted. */
  ghost predicate AllGoOn(was: seq<Outcome>, now: seq<Outcome>) {
    was <= now && forall i :: |was| <= i < |now| ==> GoesOn(now[i])
  }

  /** Every call made after those in `was` moved something or was interrupted, but for the last,
      which was `o`. */
  ghost predicate EndsWith(was: seq<Outcome>, now: seq<Outcome>, o: Outcome) {
    |was| < |now| && AllGoOn(was, now[..|now| - 1]) && now[|now| - 1] == o
  }

  lemma OneMoreCall(was: seq<Outcome>, now: seq<Outcome>, o: Outcome)
    requires AllGoOn(was, now)
    ensures GoesOn(o) ==> AllGoOn(was, now + [o])
    ensures EndsWith(was, now + [o], o)
  {
    assert (now + [o])[..|now|] == now;
  }

  lemma GoesOnAndOn(was: seq<Outcome>, mid: seq<Outcome>, now: seq<Outcome>, o: Outcome)
    requires AllGoOn(was, mid)
    ensures AllGoOn(mid, now) ==> AllGoOn(was, now)
    ensures EndsWith(mid, now, o) ==> EndsWith(was, now, o)
  {
  }

  /** How a transfer of `count` bytes that returned r must have ended: with everything moved, at a
      call that moved nothing, or at an error.  It goes on after short transfers and interruptions
      and makes no further call after anything else. */
  ghost predicate StopsOnlyFor(was: seq<Outcome>, now: seq<Outcome>, r: int, count: nat) {
    && (r == count ==> AllGoOn(was, now))
    && (r != count ==> EndsWith(was, now, if r >= 0 then Nothing else Errored))
  }

  /** Where write(2) sends bytes.  The environment may take any part of a request, refuse it,
      fail, or interrupt the call, though it interrupts only finitely often.  A descriptor with
      `wholeCalls` never takes a request in part, as the character device does. */
  class Sink {
    const wholeCalls: bool
    var calls: seq<bytes>   // the pieces taken
    ghost var outcomes: seq<Outcome>
    var interruptsLeft: nat

    constructor (wholeCalls: bool, interrupts: nat)
      ensures this.wholeCalls == wholeCalls && calls == [] && outcomes == [] && interruptsLeft == interrupts
    {
      this.wholeCalls := wholeCalls;
      calls, outcomes := [], [];
      interruptsLeft := interrupts;
    }

    ghost function Delivered(): bytes
      reads this
    {
      Concat(calls)
    }

    method Write(data: bytes) returns (ret: int, errno: Errno)
      requires data != []
      modifies this
      ensures ret <= |data|
      ensures calls == if ret > 0 then old(calls) + [data[..ret]] else old(calls)
      ensures outcomes == old(outcomes) + [OutcomeOf(ret, errno)]
      ensures wholeCalls && ret >= 0 ==> ret == |data|
      ensures if ret < 0 && errno == EINTR then interruptsLeft < old(interruptsLeft)
              else interruptsLeft == old(interruptsLeft)
    {
      ret, errno := *, *;
      if ret > |data| || (wholeCalls && 0 <= ret) {
        ret := |data|;
      }
      if ret > 0 {
        calls := calls + [data[..ret]];
      } else if ret < 0 && errno == EINTR {
        if interruptsLeft == 0 {
          errno := OTHER;
        } else {
          interruptsLeft := interruptsLeft - 1;
        }
      }
      outcomes := outcomes + [OutcomeOf(ret, errno)];
    }
  }

  lemma SendsMore(calls: seq<bytes>, sent: bytes, buf: bytes, n: nat, m: nat)
    requires n + m <= |buf| && Concat(calls) == sent + buf[..n]
    ensures Concat(calls + [buf[n..][..m]]) == sent + buf[..n + m]
  {
    ConcatSnoc(calls, buf[n..][..m]);
    Regroup(sent, buf[..n], buf[n..][..m]);
    assert buf[..n] + buf[n..][..m] == buf[..n + m];
  }

  /** Writes all of `buf` unless the descriptor refuses or fails.  What arrives is always a prefix
      of `buf`, of `n` bytes, nothing twice and nothing skipped; a result r >= 0 says exactly how
      many, and anything but |buf| is only returned right after a refused or failed call.  A
      descriptor that takes whole requests receives `buf` in one piece or not at all. */
  method WriteAll(fd: Sink, buf: bytes) returns (r: int, ghost n: nat)
    modifies fd
    ensures n <= |buf| && fd.Delivered() == old(fd.Delivered()) + buf[..n]
    ensures if r >= 0 then r == n else r == -1 && n < |buf|
    ensures StopsOnlyFor(old(fd.outcomes), fd.outcomes, r, |buf|)
    ensures fd.wholeCalls && buf != [] ==>
              if r == |buf| then fd.calls == old(fd.calls) + [buf] else r == -1 && fd.calls == old(fd.calls)
  {
    var bytesWritten := 0;
    ghost var was := fd.outcomes;
    while bytesWritten < |buf|
      invariant 0 <= bytesWritten <= |buf|
      invariant AllGoOn(was, fd.outcomes)
      invariant fd.Delivered() == old(fd.Delivered()) + buf[..bytesWritten]
      invariant fd.wholeCalls ==>
                  || (bytesWritten == 0 && fd.calls == old(fd.calls))
                  || (bytesWritten == |buf| && fd.calls == old(fd.calls) + [buf])
      decreases |buf| - bytesWritten, fd.interruptsLeft
    {
      ghost var before, calls := fd.outcomes, fd.calls;
      var ret, errno := fd.Write(buf[bytesWritten..]);
      OneMoreCall(was, before, OutcomeOf(ret, errno));
      if ret < 0 {
        if errno == EINTR {
          continue;
        }
        return -1, bytesWritten;
      }
      if ret == 0 {
        return bytesWritten, bytesWritten;
      }
      SendsMore(calls, old(fd.Delivered()), buf, bytesWritten, ret);
      assert bytesWritten == 0 && ret == |buf| ==> buf[bytesWritten..][..ret] == buf;
      bytesWritten := bytesWritten + ret;
    }
    return bytesWritten, bytesWritten;
  }

  /** `s` with the elements from `at` on overwritten by `data`. */
  function Overwrite(s: bytes, at: nat, data: bytes): bytes
    requires at + |data| <= |s|
  {
    s[..at] + data + s[at + |data|..]
  }

  /** Where read(2) takes bytes from: those still to come, handed out in pieces of any size. */
  class Source {
    var coming: bytes
    ghost var outcomes: seq<Outcome>
    var interruptsLeft: nat

    constructor (coming: bytes, interrupts: nat)
      ensures this.coming == coming && outcomes == [] && interruptsLeft == interrupts
    {
      this.coming := coming;
      outcomes := [];
      interruptsLeft := interrupts;
    }

    /** Reads at most `max` bytes into buf from index `at` on. */
    method Read(buf: array<byte>, at: nat, max: nat) returns (ret: int, errno: Errno)
      requires 0 < max && at + max <= buf.Length
      modifies this, buf
      ensures ret <= max && ret <= |old(coming)|
      ensures if ret >= 0
              then coming == old(coming)[ret..] && buf[..] == Overwrite(old(buf[..]), at, old(coming)[..ret])
              else coming == old(coming) && buf[..] == old(buf[..])
      ensures outcomes == old(outcomes) + [OutcomeOf(ret, errno)]
      ensures if ret < 0 && errno == EINTR then interruptsLeft < old(interruptsLeft)
              else interruptsLeft == old(interruptsLeft)
    {
      ret, errno := *, *;
      if ret >= 0 {
        ret := if ret <= max then ret else max;
        ret := if ret <= |coming| then ret else |coming|;
        forall i | 0 <= i < ret {
          buf[at + i] := coming[i];
        }
        coming := coming[ret..];
      } else if errno == EINTR {
        if interruptsLeft == 0 {
          errno := OTHER;
        } else {
          interruptsLeft := interruptsLeft - 1;
        }
      }
      outcomes := outcomes + [OutcomeOf(ret, errno)];
    }
  }

  lemma OverwriteMore(s: bytes, src: bytes, n: nat, m: nat)
    requires n + m <= |s| && n + m <= |src|
    ensures Overwrite(Overwrite(s, 0, src[..n]), n, src[n..][..m]) == Overwrite(s, 0, src[..n + m])
  {
    var once := Overwrite(s, 0, src[..n]);
    assert once == src[..n] + s[n..];
    assert once[..n] == src[..n] && once[n + m..] == s[n + m..];
    assert src[..n] + src[n..][..m] == src[..n + m];
  }

  /** n bytes of `src` were put at the start of a buffer that held `buf`, and `coming` is left. */
  ghost predicate Filled(buf: bytes, buf': bytes, src: bytes, coming: bytes, n: nat) {
    && n <= |buf| && n <= |src|
    && coming == src[n..]
    && buf' == Overwrite(buf, 0, src[..n])
  }

  /** The same in the middle of a transfer: no call failed so far. */
  ghost predicate Filling(was: seq<Outcome>, now: seq<Outcome>, buf: bytes, buf': bytes,
                          src: bytes, coming: bytes, n: nat) {
    AllGoOn(was, now) && Filled(buf, buf', src, coming, n)
  }

  /** One call of a transfer; `held` and `src` are what buffer and source were at its beginning. */
  method ReadMore(fd: Source, buf: array<byte>, at: nat, max: nat,
                  ghost was: seq<Outcome>, ghost held: bytes, ghost src: bytes)
    returns (ret: int, errno: Errno)
    requires 0 < max && at + max <= buf.Length
    requires Filling(was, fd.outcomes, held, buf[..], src, fd.coming, at)
    modifies fd, buf
    ensures ret <= max
    ensures if ret > 0 || (ret < 0 && errno == EINTR)
            then Filling(was, fd.outcomes, held, buf[..], src, fd.coming, if ret > 0 then at + ret else at)
            else EndsWith(was, fd.outcomes, if ret == 0 then Nothing else Errored)
                 && Filled(held, buf[..], src, fd.coming, at)
    ensures ret < 0 && errno == EINTR ==> fd.interruptsLeft < old(fd.interruptsLeft)
    ensures ret > 0 ==> fd.interruptsLeft == old(fd.interruptsLeft)
  {
    ghost var before, coming, held' := fd.outcomes, fd.coming, buf[..];
    ret, errno := fd.Read(buf, at, max);
    OneMoreCall(was, before, OutcomeOf(ret, errno));
    if ret >= 0 {
      OverwriteMore(held, src, at, ret);
    }
  }

  /** Fills `buf` up to `count` unless the descriptor ends or fails: the n bytes taken from the
      source are the first n bytes of `buf`, in order, and the rest of `buf` is untouched.  A
      result other than `count` is only returned right after a call that moved nothing or failed. */
  method ReadAll(fd: Source, buf: array<byte>, count: nat) returns (r: int, ghost n: nat)
    requires count <= buf.Length
    modifies fd, buf
    ensures n <= count && Filled(old(buf[..]), buf[..], old(fd.coming), fd.coming, n)
    ensures if r >= 0 then r == n else r == -1 && n < count
    ensures StopsOnlyFor(old(fd.outcomes), fd.outcomes, r, count)
  {
    var bytesRead := 0;
    ghost var was, held, src := fd.outcomes, buf[..], fd.coming;
    while bytesRead < count
      invariant 0 <= bytesRead <= count
      invariant Filling(was, fd.outcomes, held, buf[..], src, fd.coming, bytesRead)
      decreases count - bytesRead, fd.interruptsLeft
    {
      var ret, errno := ReadMore(fd, buf, bytesRead, count - bytesRead, was, held, src);
      if ret < 0 {
        if errno == EINTR {
          continue;
        }
        return -1, bytesRead;
      }
      if ret == 0 {
        return bytesRead, bytesRead;
      }
      bytesRead := bytesRead + ret;
    }
    return bytesRead, bytesRead;
  }
}
