/** The allocator object of umalloc.c: headers in memory, freep, and the two loops. */
module Allocator {
  import opened Heap
  import opened Umalloc

  class Malloc {
    const base: int
    var ptr: map<int, int>           // s.ptr of each header
    var size: map<int, int>          // s.size of each header
    var freep: Option<int>           // None is the null pointer before the first call
    // the abstract value
    ghost var ns: seq<Block>         // the cycle from base
    ghost var at: nat                // freep is block `at` of it
    ghost var alloc: map<int, int>   // allocated blocks and their lengths, headers included
    ghost var owned: set<int>        // units obtained from sbrk

    ghost predicate Valid()
      reads this
    {
      if freep == None then ns == [] && alloc == map[] && owned == {}
      else Sound(base, ptr, size, freep.value, ns, at, alloc, owned)
    }

    constructor (base: int)
      ensures Valid() && this.base == base && freep == None
    {
      this.base := base;
      ptr, size, freep := map[], map[], None;
      ns, at, alloc, owned := [], 0, map[], {};
    }

    /** The list before the first call is base alone. */
    ghost function Cycle(): seq<Block>
      reads this
    {
      if freep == None then [Block(base, 0)] else ns
    }

    ghost function Place(): nat
      reads this
    {
      if freep == None then 0 else at
    }

    /** malloc(nbytes): the next fit in the current list; if there is none sbrk is asked once,
        and then the grown list has a fit. Null exactly when sbrk was asked and failed. */
    method Allocate(nbytes: nat, more: Option<int>) returns (r: Option<int>)
      requires Valid() && nbytes < UINT_LIMIT
      requires more.Some? ==> Obtained(Chunk(Units(nbytes))) && base < more.value && forall u :: u in owned ==> u < more.value
      modifies this
      ensures Valid() && freep.Some?
      ensures Outcome(old(Cycle()), old(Place()), old(alloc), old(owned), Units(nbytes), more,
                      r, ns, at, alloc, owned)
    {
      hide Sound, Partition, Ordered, Spaced, Linked, HeaderOk, Apart, Range, Inserted, Took, Scan;
      var n := (nbytes + HEADER - 1) % UINT_LIMIT / HEADER + 1;
      if freep == None {
        Start();
      }
      ghost var ns0, at0, alloc0, owned0 := ns, at, alloc, owned;
      var prevp := freep.value;
      var p := At(ptr, prevp);
      ghost var j: nat, rem: nat := After(ns, at), |ns|;
      ghost var asked := false;
      SearchStarts(base, ptr, size, prevp, ns, at, alloc, owned);
      while true
        invariant Valid() && freep.Some?
        invariant Searching(ns, at, n, prevp, p, j, rem)
        invariant alloc == alloc0
        invariant !asked ==> ns == ns0 && at == at0 && owned == owned0
        invariant asked ==> Grew(ns0, at0, owned0, n, more, ns, at, owned)
        decreases if asked then 0 else 1, rem
      {
        SearchStep(base, ptr, size, freep.value, ns, at, alloc, owned, n, prevp, p, j, rem);
        if At(size, p) >= n {
          var a := TakeBlock(prevp, p, n, j);
          return Some(a);
        }
        if p == freep.value {
          var ok := Morecore(n, more);
          if !ok {
            return None;
          }
          p := freep.value;
          MoreFits(ns0, ns, at, Block(more.value, Chunk(n)), n);
          asked := true;
          j, rem := After(ns, at), |ns|;
          SearchStarts(base, ptr, size, p, ns, at, alloc, owned);
        } else {
          j, rem := After(ns, j), rem - 1;
        }
        prevp := p;
        p := At(ptr, p);
      }
    }

    method Start()
      requires Valid() && freep == None
      modifies this
      ensures Valid() && freep.Some? && ns == [Block(base, 0)] && at == 0 && alloc == map[] && owned == {}
    {
      ptr, size, freep := ptr[base := base], size[base := 0], Some(base);
      ns, at := [Block(base, 0)], 0;
      assert forall u :: !FreeUnit(ns, u);
      assert forall u :: !AllocUnit(alloc, u);
    }

    /** morecore: `more` is what sbrk answers, the old break, or None for its failure. */
    method Morecore(nu: nat, more: Option<int>) returns (ok: bool)
      requires Valid() && freep.Some? && nu >= 1
      requires more.Some? ==> Obtained(Chunk(nu)) && base < more.value && forall u :: u in owned ==> u < more.value
      modifies this`ptr, this`size, this`freep, this`ns, this`at, this`alloc, this`owned
      ensures Valid() && freep.Some? && alloc == old(alloc) && ok == more.Some?
      ensures !ok ==> ns == old(ns) && at == old(at) && owned == old(owned) && freep == old(freep)
      ensures ok ==> Inserted(old(ns), ns, at, Block(more.value, Chunk(nu)))
      ensures ok ==> owned == old(owned) + Range(more.value, Chunk(nu))
    {
      hide Sound, Partition, Ordered, Spaced, Linked, HeaderOk, Apart, Inserted, Range;
      var n := nu;
      if n < MIN_MORE {
        n := MIN_MORE;
      }
      if more == None {
        return false;
      }
      AddChunk(more.value, n);
      Free(more.value);
      ok := true;
      assert old(alloc)[more.value := n] - {more.value} == old(alloc);
    }

    /** The header of the new chunk. */
    method AddChunk(hp: int, n: nat)
      requires Valid() && freep.Some? && n >= 1 && base < hp && forall u :: u in owned ==> u < hp
      modifies this`size, this`alloc, this`owned
      ensures Valid() && hp !in old(alloc) && alloc == old(alloc)[hp := n] && owned == old(owned) + Range(hp, n)
    {
      hide Sound, Partition, Ordered, Spaced, Linked, HeaderOk, Apart, Range;
      ChunkSound(base, ptr, size, freep.value, ns, at, alloc, owned, hp, n);
      size := size[hp := n];
      alloc, owned := alloc[hp := n], owned + Range(hp, n);
    }

    /** The successful branch of malloc, at a block of at least n units. */
    method TakeBlock(prevp: int, p0: int, n: nat, ghost j: nat) returns (r: int)
      requires Valid() && freep.Some? && n >= 1
      requires 1 <= j < |ns| && ns[j].len >= n && prevp == ns[j - 1].at && p0 == ns[j].at
      modifies this`ptr, this`size, this`freep, this`ns, this`at, this`alloc
      ensures Valid() && freep.Some?
      ensures Took(old(ns), old(alloc), j, n, r, ns, at, alloc)
    {
      hide Sound, Took, Take, Partition, Ordered, Spaced, Linked, HeaderOk, Apart;
      ghost var b := ns[j];
      ghost var a := b.at + b.len - n;
      TakeSound(base, ptr, size, freep.value, ns, at, alloc, owned, j, n);
      var p := p0;
      ns, at, alloc := Take(ns, j, n), j - 1, alloc[a := n];
      freep := Some(prevp);
      if At(size, p) == n {
        ptr := ptr[prevp := At(ptr, p)];
        assert p == a;
        return p + 1;
      }
      size := size[p := At(size, p) - n];
      p := p + At(size, p);
      assert p == a;
      size := size[p := n];
      return p + 1;
    }

    /** The search of free: the last block below bp, starting anywhere in the cycle. */
    method FindPlace(bp: int) returns (p: int, ghost k: nat)
      requires Valid() && bp in alloc
      ensures SplitsAt(ns, bp, k) && p == ns[k - 1].at
    {
      assert Apart(ns, Block(bp, alloc[bp]));
      k := PlaceExists(ns, Block(bp, alloc[bp]));
      p := freep.value;
      ghost var i: nat := at;
      hide Apart, Partition;
      while !(bp > p && bp < At(ptr, p)) && !(p >= At(ptr, p) && (bp > p || bp < At(ptr, p)))
        invariant i < |ns| && p == ns[i].at && k <= |ns|
        decreases Dist(ns, i, k - 1)
      {
        assert HeaderOk(ptr, size, ns[i], ns[After(ns, i)].at);
        WrongPlace(ns, bp, k, i);
        p := At(ptr, p);
        i := After(ns, i);
      }
      assert HeaderOk(ptr, size, ns[i], ns[After(ns, i)].at);
      WrongPlace(ns, bp, k, i);
    }

    /** free(ap) with bp == ap - 1: the block joins the list at its place, merged with the
        neighbours it touches, and freep is the block below it. */
    method Free(bp: int)
      requires Valid() && bp in alloc
      modifies this`ptr, this`size, this`freep, this`ns, this`at, this`alloc
      ensures Valid() && freep.Some?
      ensures alloc == old(alloc) - {bp}
      ensures Inserted(old(ns), ns, at, Block(bp, old(alloc)[bp]))
    {
      ghost var b := Block(bp, alloc[bp]);
      var p, k := FindPlace(bp);
      ghost var ptr0, size0 := ptr, size;
      Relink(bp, p, k);
      RelinkedIsInsert(ptr0, size0, ns, k, b, ptr, size);
      FreeKeeps(ns, alloc, owned, k, bp);
      ns, at, alloc := Insert(ns, k, b), k - 1, alloc - {bp};
      freep := Some(p);
    }

    /** The assignments of free, once p is known. */
    method Relink(bp: int, p: int, ghost k: nat)
      requires Valid() && bp in alloc && SplitsAt(ns, bp, k) && p == ns[k - 1].at
      modifies this`ptr, this`size
      ensures Relinked(old(ptr), old(size), ns, k, Block(bp, alloc[bp]), ptr, size)
    {
      ghost var b := Block(bp, alloc[bp]);
      assert Apart(ns, b) && At(size, bp) == b.len;
      ghost var q0 := At(ptr, p);
      RightStep(ptr, size, ns, k, b);
      LeftStep(ptr, size, ns, k, b);
      hide Partition, Linked, Apart, SplitsAt, Ordered, At, Relinked, Valid;
      var q := At(ptr, p);
      if bp + At(size, bp) == q {
        size := size[bp := At(size, bp) + At(size, q)];
        ptr := ptr[bp := At(ptr, q)];
      } else {
        ptr := ptr[bp := q];
      }
      if p + At(size, p) == bp {
        size := size[p := At(size, p) + At(size, bp)];
        ptr := ptr[p := At(ptr, bp)];
      } else {
        ptr := ptr[p := bp];
      }
    }
  }

  /** ns1 is ns0 with b freed into it, and the search pointer is left on the block below b. */
  ghost predicate Inserted(ns0: seq<Block>, ns1: seq<Block>, at1: nat, b: Block) {
    && Ordered(ns0) && Apart(ns0, b)
    && exists k: nat :: SplitsAt(ns0, b.at, k) && at1 == k - 1 && ns1 == Insert(ns0, k, b)
  }

  /** The headers after the first if statement of free. */
  function SizeRight(ptr: map<int, int>, size: map<int, int>, p: int, bp: int): map<int, int> {
    var q := At(ptr, p);
    if bp + At(size, bp) == q then size[bp := At(size, bp) + At(size, q)] else size
  }

  function PtrRight(ptr: map<int, int>, size: map<int, int>, p: int, bp: int): map<int, int> {
    var q := At(ptr, p);
    if bp + At(size, bp) == q then ptr[bp := At(ptr, q)] else ptr[bp := q]
  }

  lemma RightStep(ptr: map<int, int>, size: map<int, int>, ns: seq<Block>, k: nat, b: Block)
    requires Ordered(ns) && Apart(ns, b) && SplitsAt(ns, b.at, k) && Linked(ptr, size, ns) && At(size, b.at) == b.len
    ensures Grown(ns, k, b).at == b.at
    ensures var p := ns[k - 1].at;
      && HeaderOk(PtrRight(ptr, size, p, b.at), SizeRight(ptr, size, p, b.at), Grown(ns, k, b), Behind(ns, k, b))
      && (forall x :: x != b.at ==> At(PtrRight(ptr, size, p, b.at), x) == At(ptr, x))
      && (forall x :: x != b.at ==> At(SizeRight(ptr, size, p, b.at), x) == At(size, x))
  {
    Comparisons(ns, k, b);
    hide Ordered, Apart, SplitsAt;
    assert HeaderOk(ptr, size, ns[k - 1], ns[After(ns, k - 1)].at);
    assert HeaderOk(ptr, size, ns[After(ns, k - 1)], ns[After(ns, After(ns, k - 1))].at);
  }

  lemma LeftStep(ptr: map<int, int>, size: map<int, int>, ns: seq<Block>, k: nat, b: Block)
    requires Ordered(ns) && Apart(ns, b) && SplitsAt(ns, b.at, k) && Linked(ptr, size, ns) && At(size, b.at) == b.len
    ensures var p := ns[k - 1].at;
      var ptr1, size1 := PtrRight(ptr, size, p, b.at), SizeRight(ptr, size, p, b.at);
      if p + At(size1, p) == b.at then
        Relinked(ptr, size, ns, k, b, ptr1[p := At(ptr1, b.at)], size1[p := At(size1, p) + At(size1, b.at)])
      else Relinked(ptr, size, ns, k, b, ptr1[p := b.at], size1)
  {
    hide Ordered, Apart, SplitsAt, Spaced, Distinct, PtrRight, SizeRight, Behind, Grown, Rest, JoinsRight;
    RightStep(ptr, size, ns, k, b);
    Comparisons(ns, k, b);
    assert HeaderOk(ptr, size, ns[k - 1], ns[After(ns, k - 1)].at);
  }

  /** malloc's loop stands at block j with `rem` blocks of the lap left, none before j fitting. */
  ghost predicate Searching(ns: seq<Block>, at: nat, n: nat, prevp: int, p: int, j: nat, rem: nat) {
    && at < |ns| && j < |ns|
    && p == ns[j].at
    && (exists i: nat :: i < |ns| && After(ns, i) == j && prevp == ns[i].at)
    && 1 <= rem && rem == Dist(ns, j, at) + 1
    && Scan(ns, j, rem, n) == NextFit(ns, at, n)
  }

  /** sbrk was asked, its chunk is in the list, and now a fit exists. */
  ghost predicate Grew(ns0: seq<Block>, at0: nat, owned0: set<int>, n: nat, more: Option<int>,
                       ns: seq<Block>, at: nat, owned: set<int>) {
    && more.Some?
    && NextFit(ns0, at0, n) == None
    && Inserted(ns0, ns, at, Block(more.value, Chunk(n)))
    && owned == owned0 + Range(more.value, Chunk(n))
    && NextFit(ns, at, n).Some?
  }

  /** What malloc(n units) does to a list with its search pointer at block at0. */
  ghost predicate Outcome(ns0: seq<Block>, at0: nat, alloc0: map<int, int>, owned0: set<int>, n: nat, more: Option<int>,
                          r: Option<int>, ns: seq<Block>, at: nat, alloc: map<int, int>, owned: set<int>) {
    match NextFit(ns0, at0, n)
    case Some(j) => r.Some? && Took(ns0, alloc0, j, n, r.value, ns, at, alloc) && owned == owned0
    case None =>
      if more == None then r == None && ns == ns0 && at == at0 && alloc == alloc0 && owned == owned0
      else exists ns1, at1, j ::
        Grew(ns0, at0, owned0, n, more, ns1, at1, owned) && NextFit(ns1, at1, n) == Some(j) &&
        r.Some? && Took(ns1, alloc0, j, n, r.value, ns, at, alloc)
  }

  lemma SearchStarts(base: int, ptr: map<int, int>, size: map<int, int>, p: int,
                     ns: seq<Block>, at: nat, alloc: map<int, int>, owned: set<int>)
    requires Sound(base, ptr, size, p, ns, at, alloc, owned)
    ensures forall n: nat :: Searching(ns, at, n, p, At(ptr, p), After(ns, at), |ns|)
  {
    hide Partition;
    assert HeaderOk(ptr, size, ns[at], ns[After(ns, at)].at);
    assert Dist(ns, After(ns, at), at) == |ns| - 1;
  }

  // One pass of malloc's loop: block j fits, or the lap is over, or the search moves on.
  lemma SearchStep(base: int, ptr: map<int, int>, size: map<int, int>, f: int,
                   ns: seq<Block>, at: nat, alloc: map<int, int>, owned: set<int>,
                   n: nat, prevp: int, p: int, j: nat, rem: nat)
    requires Sound(base, ptr, size, f, ns, at, alloc, owned) && n >= 1
    requires Searching(ns, at, n, prevp, p, j, rem)
    ensures At(size, p) >= n ==> 1 <= j < |ns| && ns[j].len >= n && prevp == ns[j - 1].at && p == ns[j].at
    ensures At(size, p) >= n ==> NextFit(ns, at, n) == Some(j)
    ensures At(size, p) < n && p == f ==> NextFit(ns, at, n) == None
    ensures At(size, p) < n && p != f ==> rem >= 2 && Searching(ns, at, n, p, At(ptr, p), After(ns, j), rem - 1)
  {
    assert HeaderOk(ptr, size, ns[j], ns[After(ns, j)].at);
    assert p == f <==> j == at by {
      if j < at {
        assert ns[j].at + ns[j].len < ns[at].at;
      } else if at < j {
        assert ns[at].at + ns[at].len < ns[j].at;
      }
    }
    hide Partition, Linked, Spaced;
    assert ns[0].len == 0;
    if At(size, p) < n && p == f {
      assert Scan(ns, After(ns, j), 0, n) == None;
    }
  }

  // After morecore some block has at least n units, wherever the chunk was merged.
  lemma MoreFits(ns0: seq<Block>, ns: seq<Block>, at: nat, b: Block, n: nat)
    requires Inserted(ns0, ns, at, b) && b.len >= n
    ensures NextFit(ns, at, n).Some?
  {
    var k: nat :| SplitsAt(ns0, b.at, k) && at == k - 1 && ns == Insert(ns0, k, b);
    var j := InsertHolds(ns0, k, b);
    NextFitExact(ns, at, n);
  }

  /** n units went from the end of block j to the caller, who gets the address behind their header. */
  predicate Took(ns: seq<Block>, alloc: map<int, int>, j: nat, n: nat, r: int,
                 ns': seq<Block>, at': nat, alloc': map<int, int>) {
    && 1 <= j < |ns| && ns[j].len >= n
    && r - 1 == ns[j].at + ns[j].len - n
    && r - 1 !in alloc && alloc' == alloc[r - 1 := n]
    && ns' == Take(ns, j, n) && at' == j - 1
  }

  /** What the allocator keeps once it has started: the headers form the list, freep is in
      it, and every unit is accounted for. */
  ghost predicate Sound(base: int, ptr: map<int, int>, size: map<int, int>, p: int,
                        ns: seq<Block>, at: nat, alloc: map<int, int>, owned: set<int>) {
    && Partition(ns, alloc, owned)
    && Linked(ptr, size, ns)
    && ns[0].at == base && at < |ns| && p == ns[at].at
    && (forall a :: a in alloc ==> At(size, a) == alloc[a])
  }

  // A new header is none of those in the list.
  lemma ChunkApart(ns: seq<Block>, alloc: map<int, int>, owned: set<int>, hp: int)
    requires Partition(ns, alloc, owned) && hp in alloc
    ensures forall i :: 0 <= i < |ns| ==> ns[i].at != hp
  {
    assert Apart(ns, Block(hp, alloc[hp]));
    forall i | 0 <= i < |ns| ensures ns[i].at != hp {
    }
  }

  lemma ChunkSound(base: int, ptr: map<int, int>, size: map<int, int>, p: int,
                   ns: seq<Block>, at: nat, alloc: map<int, int>, owned: set<int>, hp: int, n: nat)
    requires Sound(base, ptr, size, p, ns, at, alloc, owned)
    requires n >= 1 && base < hp && forall u :: u in owned ==> u < hp
    ensures hp !in alloc
    ensures Sound(base, ptr, size[hp := n], p, ns, at, alloc[hp := n], owned + Range(hp, n))
  {
    ChunkKeeps(ns, alloc, owned, hp, n);
    ChunkApart(ns, alloc[hp := n], owned + Range(hp, n), hp);
    hide Partition;
    forall i | 0 <= i < |ns| ensures HeaderOk(ptr, size[hp := n], ns[i], ns[After(ns, i)].at) {
      assert HeaderOk(ptr, size, ns[i], ns[After(ns, i)].at);
    }
  }

  // The block taken overlaps no allocated one, and its predecessor stays where it was.
  lemma TakenIsOut(ns: seq<Block>, alloc: map<int, int>, owned: set<int>, j: nat, n: nat)
    requires Partition(ns, alloc, owned) && 1 <= j < |ns| && 1 <= n <= ns[j].len
    ensures forall a :: a in alloc ==> a != ns[j].at && a != ns[j].at + ns[j].len - n
    ensures j - 1 < |Take(ns, j, n)| && Take(ns, j, n)[j - 1] == ns[j - 1] && Take(ns, j, n)[0] == ns[0]
  {
    TakeOrdered(ns, j, n);
    forall a | a in alloc ensures a != ns[j].at && a != ns[j].at + ns[j].len - n {
      assert Apart(ns, Block(a, alloc[a]));
    }
  }

  lemma TakeSound(base: int, ptr: map<int, int>, size: map<int, int>, p: int,
                  ns: seq<Block>, at: nat, alloc: map<int, int>, owned: set<int>, j: nat, n: nat)
    requires Sound(base, ptr, size, p, ns, at, alloc, owned)
    requires 1 <= j < |ns| && 1 <= n <= ns[j].len
    ensures var b := ns[j];
      var a := b.at + b.len - n;
      && At(size, b.at) == b.len && Took(ns, alloc, j, n, a + 1, Take(ns, j, n), j - 1, alloc[a := n])
      && (b.len == n ==>
            Sound(base, ptr[ns[j - 1].at := At(ptr, b.at)], size, ns[j - 1].at, Take(ns, j, n), j - 1, alloc[a := n], owned))
      && (b.len > n ==>
            Sound(base, ptr, size[b.at := b.len - n][a := n], ns[j - 1].at, Take(ns, j, n), j - 1, alloc[a := n], owned))
  {
    assert HeaderOk(ptr, size, ns[j], ns[After(ns, j)].at);
    TakeKeeps(ns, alloc, owned, j, n);
    TakenIsOut(ns, alloc, owned, j, n);
    if ns[j].len == n {
      TakeAll(ptr, size, ns, j, n);
    } else {
      TakeTail(ptr, size, ns, j, n);
    }
    hide Partition, Linked, Take;
  }

  lemma PlaceExists(ns: seq<Block>, b: Block) returns (k: nat)
    requires Ordered(ns) && Apart(ns, b)
    ensures SplitsAt(ns, b.at, k)
  {
    k := 1;
    while k < |ns| && ns[k].at < b.at
      invariant 1 <= k <= |ns|
      invariant forall i :: 0 <= i < k ==> ns[i].at < b.at
    {
      k := k + 1;
    }
    assert k < |ns| ==> forall i :: k < i < |ns| ==> ns[k].at + ns[k].len < ns[i].at;
  }

  // The loop test of free is false exactly away from the place of bp, and moving on gets nearer.
  lemma WrongPlace(ns: seq<Block>, bp: int, k: nat, i: nat)
    requires Ordered(ns) && SplitsAt(ns, bp, k) && i < |ns|
    ensures var p, q := ns[i].at, ns[After(ns, i)].at;
      ((bp > p && bp < q) || (p >= q && (bp > p || bp < q))) <==> i == k - 1
    ensures i != k - 1 ==> Dist(ns, After(ns, i), k - 1) < Dist(ns, i, k - 1)
  {
    if i + 1 < |ns| {
      assert ns[i].at + ns[i].len < ns[i + 1].at;
    }
    assert i != 0 ==> ns[0].at + ns[0].len < ns[i].at;
  }
}
