/** The loops of a client thread around the device: write_all into it, and the readback that sends
    its content to the socket. */
module DeviceIo {
  import opened Bytes
  import opened CommandLog
  import opened Driver
  import opened Refinement
  import opened Access
  import opened CharDevice
  import opened SocketOps

  /** How many calls are interrupted before the first that is not. */
  function Interruptions(envs: seq<WriteEnv>): (k: nat)
    ensures k <= |envs|
    ensures k < |envs| ==> !envs[k].interrupted
    ensures forall i :: 0 <= i < k ==> envs[i].interrupted
  {
    if envs == [] || !envs[0].interrupted then 0 else 1 + Interruptions(envs[1..])
  }

  /** write_all on the device; `envs` are the outcomes the kernel picks for its successive calls,
      only finitely many of them interruptions.  Interrupted calls are made again, so the first
      other call decides: if it succeeds the chunk has been appended exactly once, as one write, and
      the result is its length; if not the result is -1 and nothing at all has changed. */
  method WriteAllToDevice(dev: Device, buf: bytes, envs: seq<WriteEnv>, ghost l: Log) returns (r: int)
    requires dev.Idle() && Refines(dev.State(), l) && buf != []
    requires forall i :: 0 <= i < |envs| ==> WriteMay(dev.State(), |buf|, envs[i])
    requires envs != [] && !envs[|envs| - 1].interrupted
    modifies dev, dev.heap, dev.ring, dev.ring.entry
    ensures dev.Idle() && Interruptions(envs) < |envs|
    ensures if Succeeds(Some(buf), envs[Interruptions(envs)])
            then r == |buf| && Refines(dev.State(), Append(l, buf))
            else r == -1 && dev.State() == old(dev.State())
  {
    ghost var d := dev.State();
    var bytesWritten, call := 0, 0;
    while bytesWritten < |buf|
      invariant 0 <= call < |envs| || bytesWritten == |buf|
      invariant !dev.locked && Inv(dev.State())
      invariant || (bytesWritten == 0 && dev.State() == d && call <= Interruptions(envs))
                || (bytesWritten == |buf| && Refines(dev.State(), Append(l, buf))
                    && Interruptions(envs) < |envs| && Succeeds(Some(buf), envs[Interruptions(envs)]))
      decreases |buf| - bytesWritten, |envs| - call
    {
      assert buf[bytesWritten..] == buf;
      WriteRefines(d, l, Some(buf), envs[call]);
      var ret := dev.Write(Some(buf[bytesWritten..]), envs[call]);
      assert !envs[call].interrupted ==> call == Interruptions(envs);
      call := call + 1;
      if ret < 0 {
        if ret == -ERESTARTSYS {
          continue;
        }
        return -1;
      }
      bytesWritten := bytesWritten + ret;  // the device never returns 0 for a non-empty request
    }
    return bytesWritten;
  }

  /** Whether a read call fails, at the end of the device or before it. */
  predicate ReadFails(env: ReadEnv, atEnd: bool) {
    env.interrupted || (env.copyFails && !atEnd)
  }

  /** Where a read of the loop from pos stops: after 1023 bytes, or at the end of the command. */
  function FullRead(commands: seq<bytes>, pos: nat): nat {
    var end := PartEnd(commands, pos);
    if pos + 1023 <= end then pos + 1023 else end
  }

  /** One read of the loop, in terms of the device's content. */
  method ReadNext(dev: Device, f: OpenFile, env: ReadEnv, ghost content: bytes) returns (ret: int, out: bytes)
    requires dev.Idle() && content == Content(dev.State()) && f.fPos <= |content|
    modifies dev`locked, f
    ensures !dev.locked && dev.State() == old(dev.State())
    ensures old(f.fPos) <= f.fPos <= |content| && out == content[old(f.fPos)..f.fPos]
    ensures ret < 0 <==> ReadFails(env, old(f.fPos) == |content|)
    ensures ret > 0 ==> ret == |out|
    ensures ret <= 0 ==> out == []
    ensures ret == 0 ==> f.fPos == |content|
    ensures ret > 0 ==> f.fPos == FullRead(Commands(dev.State()), old(f.fPos))
  {
    ReadDelivers(dev.State(), true, f.fPos, BUFFER_SIZE - 1, env);
    if f.fPos < |content| && !ReadFails(env, false) {
      ReadStopsAt(dev.State(), f.fPos, BUFFER_SIZE - 1, env);
    }
    ret, out := dev.Read(f, true, BUFFER_SIZE - 1, env);
  }

  /** What was sent before, followed by the bytes of c from i up to j. */
  ghost function Then(sent: bytes, c: bytes, i: nat, j: nat): bytes
    requires i <= j <= |c|
  {
    sent + c[i..j]
  }

  datatype Turn = More | EndOfDevice | Stopped

  /** The socket's last call refused or failed, and none before it did. */
  ghost predicate SocketStopped(was: seq<Outcome>, now: seq<Outcome>) {
    EndsWith(was, now, Nothing) || EndsWith(was, now, Errored)
  }

  /** What one turn does from position pos: it ends the loop when the read fails, at the end of the
      device, or when the socket refuses or fails, and only then; otherwise everything read goes
      to the socket.  k bytes were sent. */
  ghost predicate TurnDoes(env: ReadEnv, content: bytes, pos: nat, pos': nat,
                           was: seq<Outcome>, now: seq<Outcome>, turn: Turn, k: nat) {
    && pos + k <= pos' <= |content|
    && if ReadFails(env, pos == |content|) then turn == Stopped && k == 0 && now == was
       else if pos == |content| then turn == EndOfDevice && k == 0 && now == was
       else || (turn == More && 0 < k == pos' - pos && AllGoOn(was, now))
            || (turn == Stopped && SocketStopped(was, now))
  }

  /** One turn of the readback loop: reads the next bytes and passes them to the socket, which gets
      the k bytes of the content from the old position on. */
  method SendNext(dev: Device, f: OpenFile, socket: Sink, env: ReadEnv, ghost content: bytes)
    returns (turn: Turn, ghost k: nat)
    requires dev.Idle() && content == Content(dev.State()) && f.fPos <= |content|
    modifies dev`locked, f, socket
    ensures !dev.locked && dev.State() == old(dev.State())
    ensures TurnDoes(env, content, old(f.fPos), f.fPos, old(socket.outcomes), socket.outcomes, turn, k)
    ensures socket.Delivered() == Then(old(socket.Delivered()), content, old(f.fPos), old(f.fPos) + k)
    ensures turn == More ==> f.fPos == FullRead(Commands(dev.State()), old(f.fPos))
  {
    var bytesReceived, buffer := ReadNext(dev, f, env, content);
    if bytesReceived <= 0 {
      return if bytesReceived == 0 then EndOfDevice else Stopped, 0;
    }
    var sent, n := WriteAll(socket, buffer);
    TakeOfSlice(content, old(f.fPos), f.fPos, n);
    return if sent == bytesReceived then More else Stopped, n;
  }

  lemma SendsOn(sent: bytes, c: bytes, start: nat, pos: nat, k: nat)
    requires start <= pos <= pos + k <= |c|
    ensures Then(Then(sent, c, start, pos), c, pos, pos + k) == Then(sent, c, start, pos + k)
    ensures Then(sent, c, pos, pos) == sent
  {
    assert c[start..pos] + c[pos..pos + k] == c[start..pos + k];
    Regroup(sent, c[start..pos], c[pos..pos + k]);
  }

  /** n bytes were sent by `calls` turns of the loop, at least one by every turn but the last; what
      was sent is everything unless the last read failed or the socket refused or failed. */
  ghost predicate RestSent(was: seq<Outcome>, now: seq<Outcome>, content: bytes, start: nat, envs: seq<ReadEnv>,
                           complete: bool, n: nat, calls: nat) {
    && start + n <= |content|
    && 0 < calls <= |envs| && calls - 1 <= n
    && (forall i :: 0 <= i < calls - 1 ==> !ReadFails(envs[i], false))
    && if complete then start + n == |content| && AllGoOn(was, now) && !ReadFails(envs[calls - 1], true)
       else || SocketStopped(was, now)
            || (AllGoOn(was, now) && ReadFails(envs[calls - 1], start + n == |content|))
  }

  /** After `call` turns that did not end the loop. */
  ghost predicate Halfway(was: seq<Outcome>, now: seq<Outcome>, content: bytes, start: nat, pos: nat,
                          envs: seq<ReadEnv>, call: nat) {
    && start <= pos <= |content|
    && call <= pos - start && call <= |envs|
    && AllGoOn(was, now)
    && forall i :: 0 <= i < call ==> !ReadFails(envs[i], false)
  }

  lemma OneMoreTurn(was: seq<Outcome>, mid: seq<Outcome>, now: seq<Outcome>, content: bytes,
                    start: nat, pos: nat, pos': nat, envs: seq<ReadEnv>, call: nat, turn: Turn, k: nat)
    requires Halfway(was, mid, content, start, pos, envs, call) && call < |envs|
    requires TurnDoes(envs[call], content, pos, pos', mid, now, turn, k)
    ensures if turn == More
            then pos' == pos + k && pos < pos' && Halfway(was, now, content, start, pos', envs, call + 1)
            else RestSent(was, now, content, start, envs, turn == EndOfDevice, pos + k - start, call + 1)
  {
    GoesOnAndOn(was, mid, now, Nothing);
    GoesOnAndOn(was, mid, now, Errored);
  }

  /** The next turn of a loop that started at `start`, when the socket had been given `before`. */
  method SendMore(dev: Device, f: OpenFile, socket: Sink, envs: seq<ReadEnv>, call: nat, ghost content: bytes,
                  ghost before: bytes, ghost was: seq<Outcome>, ghost start: nat)
    returns (turn: Turn, ghost n: nat)
    requires dev.Idle() && content == Content(dev.State()) && call < |envs|
    requires Halfway(was, socket.outcomes, content, start, f.fPos, envs, call)
    requires socket.Delivered() == Then(before, content, start, f.fPos)
    modifies dev`locked, f, socket
    ensures !dev.locked && dev.State() == old(dev.State())
    ensures old(f.fPos) <= f.fPos && start + n <= |content|
    ensures if turn == More then start + n == f.fPos > old(f.fPos)
                                 && Halfway(was, socket.outcomes, content, start, f.fPos, envs, call + 1)
            else RestSent(was, socket.outcomes, content, start, envs, turn == EndOfDevice, n, call + 1)
    ensures socket.Delivered() == Then(before, content, start, start + n)
  {
    ghost var pos, mid := f.fPos, socket.outcomes;
    ghost var k;
    turn, k := SendNext(dev, f, socket, envs[call], content);
    n := pos + k - start;
    OneMoreTurn(was, mid, socket.outcomes, content, start, pos, f.fPos, envs, call, turn, k);
    SendsOn(before, content, start, pos, k);
  }

  /** Sends what lies between the file's position and the end of the device; `envs` are the outcomes
      the kernel picks for the successive reads, enough of them for every read to move one byte.
      What the socket gets is the n bytes from the position on. */
  method SendRest(dev: Device, f: OpenFile, socket: Sink, envs: seq<ReadEnv>, ghost content: bytes)
    returns (complete: bool, ghost n: nat, ghost calls: nat)
    requires dev.Idle() && content == Content(dev.State()) && f.fPos <= |content|
    requires |envs| > |content| - f.fPos
    modifies dev`locked, f, socket
    ensures !dev.locked && dev.State() == old(dev.State())
    ensures RestSent(old(socket.outcomes), socket.outcomes, content, old(f.fPos), envs, complete, n, calls)
    ensures socket.Delivered() == Then(old(socket.Delivered()), content, old(f.fPos), old(f.fPos) + n)
  {
    ghost var start, before, was := f.fPos, socket.Delivered(), socket.outcomes;
    SendsOn(before, content, start, start, 0);
    var call := 0;
    while true
      invariant !dev.locked && dev.State() == old(dev.State())
      invariant Halfway(was, socket.outcomes, content, start, f.fPos, envs, call)
      invariant socket.Delivered() == Then(before, content, start, f.fPos)
      decreases |content| - f.fPos
    {
      var turn;
      turn, n := SendMore(dev, f, socket, envs, call, content, before, was, start);
      call := call + 1;
      if turn != More {
        return turn == EndOfDevice, n, call;
      }
    }
  }
}
