/** Kernel memory as the driver sees it: a map from the address of each live block to its bytes.

    The allocator is arbitrary: every call is given the outcome the environment picked, which may
    be a failure, any unused address, or (for krealloc) the old address again.  Freeing and
    touching memory demand a live block, so a double free or a use after free cannot be stated. */
module Heap {
  import opened Bytes
  import opened RingBuffer

  type Blocks = map<Ptr, bytes>

  /** The outcome of one allocation; fresh memory holds arbitrary bytes. */
  datatype Alloc = Failed | Got(p: Ptr, junk: bytes)

  predicate KmallocMay(h: Blocks, n: nat, a: Alloc) {
    a.Got? ==> a.p != NULL && a.p !in h && |a.junk| == n
  }

  predicate KreallocMay(h: Blocks, p: Ptr, n: nat, a: Alloc) {
    a.Got? ==> a.p != NULL && (a.p == p || a.p !in h) && |a.junk| == n
  }

  function Kmalloc(h: Blocks, n: nat, a: Alloc): Blocks
    requires KmallocMay(h, n, a)
  {
    match a
    case Failed => h
    case Got(p, junk) => h[p := junk]
  }

  /** Moves or grows block `p`, keeping the bytes that fit; a failure leaves `p` alone. */
  function Krealloc(h: Blocks, p: Ptr, n: nat, a: Alloc): Blocks
    requires p in h && KreallocMay(h, p, n, a)
  {
    match a
    case Failed => h
    case Got(q, junk) =>
      var kept := if |h[p]| <= n then |h[p]| else n;
      (h - {p})[q := h[p][..kept] + junk[kept..]]
  }

  function Kfree(h: Blocks, p: Ptr): Blocks
    requires p == NULL || p in h
  {
    h - {p}
  }

  /** memcpy of `data` into block `p` at offset `at`. */
  function Store(h: Blocks, p: Ptr, at: nat, data: bytes): Blocks
    requires p in h && at + |data| <= |h[p]|
  {
    h[p := h[p][..at] + data + h[p][at + |data|..]]
  }

  // ----- what the allocator promises -----

  /** Block p is as it was. */
  ghost predicate Untouched(h: Blocks, h': Blocks, p: Ptr) {
    (p in h <==> p in h') && (p in h ==> h'[p] == h[p])
  }

  /** An allocation that succeeds adds one block of the size asked for, at an address no live block
      has; one that fails changes nothing.  Freeing the new block at once undoes it. */
  lemma KmallocAdds(h: Blocks, n: nat, a: Alloc)
    requires KmallocMay(h, n, a)
    ensures match a
            case Failed => Kmalloc(h, n, a) == h
            case Got(p, _) =>
              var h' := Kmalloc(h, n, a);
              && h'.Keys == h.Keys + {p} && p !in h && |h'[p]| == n
              && (forall q :: q != p ==> Untouched(h, h', q))
              && Kfree(h', p) == h
  {
    if a.Got? {
      assert Kfree(Kmalloc(h, n, a), a.p) == h;
    }
  }

  /** The bytes of the old block that fit are the start of the new one, wherever it is; if it moved,
      the old address is dead; every other block is as it was; a failure leaves all alone. */
  lemma KreallocKeeps(h: Blocks, p: Ptr, n: nat, a: Alloc)
    requires p in h && KreallocMay(h, p, n, a)
    ensures match a
            case Failed => Krealloc(h, p, n, a) == h
            case Got(q, _) =>
              var h' := Krealloc(h, p, n, a);
              && h'.Keys == h.Keys - {p} + {q} && |h'[q]| == n
              && (if |h[p]| <= n then h[p] <= h'[q] else h'[q] == h[p][..n])
              && (forall r :: r != p && r != q ==> Untouched(h, h', r))
  {
    if a.Got? {
      var h' := Krealloc(h, p, n, a);
      assert |h[p]| > n ==> h'[a.p] == h[p][..n];
    }
  }

  /** The allocator may fail, and may use any address that holds no live block; krealloc may also leave
      the block where it is.  The caller can count on none of this. */
  lemma AnyPlaceIsAllowed(h: Blocks, p: Ptr, q: Ptr, junk: bytes)
    requires p in h && p != NULL && q != NULL && q !in h
    ensures KmallocMay(h, |junk|, Failed) && KmallocMay(h, |junk|, Got(q, junk))
    ensures KreallocMay(h, p, |junk|, Failed)
    ensures KreallocMay(h, p, |junk|, Got(q, junk)) && KreallocMay(h, p, |junk|, Got(p, junk))
  {
  }

  /** Freeing removes the block named and no other; freeing NULL does nothing. */
  lemma KfreeRemovesOne(h: Blocks, p: Ptr)
    requires NULL !in h && (p == NULL || p in h)
    ensures var h' := Kfree(h, p);
            && (p == NULL ==> h' == h)
            && p !in h'
            && (forall q :: q != p ==> Untouched(h, h', q))
  {
  }

  class KernelHeap {
    var blocks: Blocks

    constructor ()
      ensures blocks == map[]
    {
      blocks := map[];
    }

    method Malloc(n: nat, a: Alloc) returns (p: Ptr)
      requires KmallocMay(blocks, n, a)
      modifies this
      ensures blocks == Kmalloc(old(blocks), n, a)
      ensures p == if a.Failed? then NULL else a.p
    {
      if a.Failed? {
        return NULL;
      }
      blocks := blocks[a.p := a.junk];
      return a.p;
    }

    method Realloc(p: Ptr, n: nat, a: Alloc) returns (q: Ptr)
      requires p in blocks && KreallocMay(blocks, p, n, a)
      modifies this
      ensures blocks == Krealloc(old(blocks), p, n, a)
      ensures q == if a.Failed? then NULL else a.p
    {
      if a.Failed? {
        return NULL;
      }
      var kept := if |blocks[p]| <= n then |blocks[p]| else n;
      blocks := (blocks - {p})[a.p := blocks[p][..kept] + a.junk[kept..]];
      return a.p;
    }

    method Free(p: Ptr)
      requires p == NULL || p in blocks
      modifies this
      ensures blocks == Kfree(old(blocks), p)
    {
      blocks := blocks - {p};
    }

    method Memcpy(p: Ptr, at: nat, data: bytes)
      requires p in blocks && at + |data| <= |blocks[p]|
      modifies this
      ensures blocks == Store(old(blocks), p, at, data)
    {
      blocks := blocks[p := blocks[p][..at] + data + blocks[p][at + |data|..]];
    }
  }
}
