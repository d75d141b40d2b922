/** The flat view of a list of entries: which (entry, offset) pair a byte position denotes.

    Nothing here knows about rings or memory; sizes may be zero. */
module FlatView {
  import opened Bytes

  /** The entry that holds position `pos` when entries of these sizes lie end to end, and the
      offset inside it; None when `pos` is past the last byte. */
  function Locate(sizes: seq<nat>, pos: nat): Option<(nat, nat)> {
    if sizes == [] then None
    else if pos < sizes[0] then Some((0, pos))
    else
      match Locate(sizes[1..], pos - sizes[0])
      case None => None
      case Some((k, o)) => Some((k + 1, o))
  }

  /** The position of byte `off` of entry `cmd`; None when there is no such byte. */
  function PositionOf(sizes: seq<nat>, cmd: nat, off: nat): Option<nat> {
    if cmd < |sizes| && off < sizes[cmd] then Some(Sum(sizes[..cmd]) + off) else None
  }

  lemma {:induction false} LocateSound(sizes: seq<nat>, pos: nat)
    ensures match Locate(sizes, pos)
            case Some((k, o)) => PositionOf(sizes, k, o) == Some(pos)
            case None => Sum(sizes) <= pos
  {
    if sizes != [] && sizes[0] <= pos {
      LocateSound(sizes[1..], pos - sizes[0]);
      match Locate(sizes[1..], pos - sizes[0])
      case None =>
      case Some((k, o)) =>
        assert sizes[..k + 1] == [sizes[0]] + sizes[1..][..k];
    }
  }

  lemma {:induction false} LocateComplete(sizes: seq<nat>, cmd: nat, off: nat)
    requires cmd < |sizes| && off < sizes[cmd]
    ensures Locate(sizes, Sum(sizes[..cmd]) + off) == Some((cmd, off))
  {
    if cmd > 0 {
      assert sizes[..cmd] == [sizes[0]] + sizes[1..][..cmd - 1];
      LocateComplete(sizes[1..], cmd - 1, off);
    }
  }

  /** Locate and PositionOf are inverse to each other, so positions below the total and existing
      (entry, offset) pairs correspond one to one, zero-size entries included. */
  lemma LocateIffPosition(sizes: seq<nat>, pos: nat, cmd: nat, off: nat)
    ensures Locate(sizes, pos) == Some((cmd, off)) <==> PositionOf(sizes, cmd, off) == Some(pos)
    ensures Locate(sizes, pos) == None <==> Sum(sizes) <= pos
  {
    LocateSound(sizes, pos);
    if PositionOf(sizes, cmd, off) == Some(pos) {
      LocateComplete(sizes, cmd, off);
    }
    if Locate(sizes, pos).Some? {
      var (k, o) := Locate(sizes, pos).value;
      SumSplit(sizes, k);
    }
  }

  /** Dropping the bytes before (cmd, off) leaves the rest of that part and all later parts. */
  lemma {:induction false} ConcatFrom(parts: seq<bytes>, cmd: nat, off: nat)
    requires cmd < |parts| && off <= |parts[cmd]|
    ensures Sum(Lengths(parts)[..cmd]) + |parts[cmd]| <= |Concat(parts)|
    ensures Concat(parts)[Sum(Lengths(parts)[..cmd]) + off..] == parts[cmd][off..] + Concat(parts[cmd + 1..])
  {
    var lens := Lengths(parts);
    if cmd == 0 {
      assert lens[..0] == [];
      assert Concat(parts) == parts[0] + Concat(parts[1..]);
    } else {
      assert lens[..cmd] == [lens[0]] + Lengths(parts[1..])[..cmd - 1];
      ConcatFrom(parts[1..], cmd - 1, off);
      assert parts[1..][cmd..] == parts[cmd + 1..];
    }
  }
}
