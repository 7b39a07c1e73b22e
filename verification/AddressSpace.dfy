/** walkpgdir, mappages, setupkvm, allocuvm, deallocuvm, freevm and copyuvm (p2/solution/vm.c) over
    kalloc and kfree (p2/solution/kalloc.c), as loops over addresses and frames in place. */
module AddressSpace {
  import opened PageTable
  import opened FrameSteps
  import opened FrameSpace

  const UINT_LIMIT: int := 0x1_0000_0000
  const KERNBASE: int := 0x8000_0000

  datatype Option<T> = None | Some(value: T)

  /** A pte_t*: a word of a page table frame. */
  datatype Pte = Pte(t: int, i: int)

  /** PGROUNDUP(sz) / PGSIZE. */
  function PageCount(sz: int): int {
    (sz + PGSIZE - 1) / PGSIZE
  }

  function PdIndex(va: int): int {
    va / PGSIZE / NENTRIES
  }

  ghost predicate Walked(s0: Memory, s: Memory, d: int, va: int, alloc: bool, r: Option<Pte>) {
    && Sound(s) && s.flat == s0.flat && s.first == s0.first && s.limit == s0.limit
    && (if r.Some? then r.value.i == va / PGSIZE % NENTRIES && Owns(s.owner, r.value.t, Table(d, PdIndex(va)))
        else s == s0 && !Present(Word(s0.mem, d, PdIndex(va))) && (alloc ==> s0.free == []))
    && (if alloc then Grew(s0, s, d) && Kept(s0, s) else s == s0)
  }

  /** The frames that n pages from v on are to be mapped to, if they are user pages. */
  ghost predicate HeldFor(s: Memory, v: int, n: int, fr: int) {
    forall f :: fr <= f < fr + n && v + (f - fr) < KERNPAGE ==> Owns(s.owner, f, Held)
  }

  /** s is s0 with `done` pages from v on mapped in directory d to frames from fr on. */
  ghost predicate Mapped(s0: Memory, s: Memory, d: int, v: int, done: nat, fr: int, perm: int) {
    && Sound(s) && s.first == s0.first && s.limit == s0.limit && Kept(s0, s)
    && d in s0.flat && s.flat == s0.flat[d := MapRange(s0.flat[d], v, done, fr, perm)]
    && (forall f :: f in s0.owner ==>
          || Owns(s.owner, f, s0.owner[f])
          || (fr <= f < fr + done && v + (f - fr) < KERNPAGE && s0.owner[f] == Held && Owns(s.owner, f, User(d, v + (f - fr)))))
    && (forall f :: f in s.owner && f !in s0.owner ==> Of(s.owner[f], d))
  }

  lemma MappedStart(s: Memory, d: int, v: int, fr: int, perm: int)
    requires Sound(s) && d in s.flat
    ensures Mapped(s, s, d, v, 0, fr, perm)
  {
    hide Sound;
    assert s.flat == s.flat[d := s.flat[d]];
  }

  lemma MappedWalk(s0: Memory, s1: Memory, s2: Memory, d: int, v: int, done: nat, fr: int, perm: int, va: int, r: Option<Pte>)
    requires Mapped(s0, s1, d, v, done, fr, perm) && Walked(s1, s2, d, va, true, r)
    ensures Mapped(s0, s2, d, v, done, fr, perm)
  {
    hide Sound, MapRange;
  }

  lemma MappedPut(s0: Memory, s: Memory, d: int, v: int, done: nat, fr: int, perm: int, t: int)
    requires Mapped(s0, s, d, v, done, fr, perm) && Sound(s0) && 0 <= v && v + done < NPAGES && 0 <= perm < PGSIZE
    requires Owns(s.owner, t, Table(d, (v + done) / NENTRIES)) && v + done !in s0.flat[d]
    requires HeldFor(s0, v, done + 1, fr)
    ensures v + done !in s.flat[d]
    ensures Mapped(s0, MappedPage(s, d, v + done, t, fr + done, perm), d, v, done + 1, fr, perm)
  {
    hide Sound, Entry, Put, FrameOf, Present;
    var s' := MappedPage(s, d, v + done, t, fr + done, perm);
    assert v + done < KERNPAGE ==> Owns(s0.owner, fr + done, Held);
    MapRangeAt(s0.flat[d], v, done, fr, perm, v + done);
    MapPage(s, d, v + done, t, fr + done, perm);
    PutOther(s.mem, t, (v + done) % NENTRIES, Entry(fr + done, perm));
    EntryNotZero(fr + done, perm);
    assert s'.flat == s0.flat[d := MapRange(s0.flat[d], v, done + 1, fr, perm)];
  }

  lemma PutOther(mem: Frames, t: int, i: int, w: int)
    ensures forall f :: f != t ==> Page(Put(mem, t, i, w), f) == Page(mem, f)
  {
  }

  class Kernel {
    const first: int                     // V2P(end) / PGSIZE
    const limit: int                     // PHYSTOP / PGSIZE
    var free: seq<int>
    var mem: Frames
    ghost var owner: map<int, Use>
    ghost var flat: map<int, PageMap>

    ghost function State(): Memory
      reads this
    {
      Memory(first, limit, free, mem, owner, flat)
    }

    /** freerange over the frames of the machine. */
    constructor (first: int, limit: int)
      requires 0 < first <= limit <= NPAGES
      ensures Sound(State()) && this.first == first && this.limit == limit
      ensures owner == map[] && flat == map[] && forall f :: f in free <==> first <= f < limit
    {
      this.first, this.limit := first, limit;
      free, mem, owner, flat := [], map[], map[], map[];
      new;
      var p := first;
      while p < limit
        invariant first <= p <= limit && owner == map[] && flat == map[]
        invariant Distinct(free) && forall f :: f in free <==> first <= f < p
      {
        DistinctConcat([p], free);
        Kfree(p);
        p := p + 1;
      }
    }

    method Kalloc() returns (r: Option<int>)
      modifies this`free
      ensures r == None <==> old(free) == []
      ensures r == None ==> free == old(free)
      ensures r.Some? ==> r.value == old(free)[0] && free == old(free)[1..]
    {
      if free == [] {
        return None;
      }
      r := Some(free[0]);
      free := free[1..];
    }

    /** The requires is the guard of kfree's panic. */
    method Kfree(f: int)
      requires first <= f < limit
      modifies this`free, this`mem
      ensures free == [f] + old(free) && mem == old(mem)[f := Junk()]
    {
      mem := mem[f := Junk()];
      free := [f] + free;
    }

    method Walkpgdir(d: int, va: int, alloc: bool) returns (r: Option<Pte>)
      requires Sound(State()) && d in flat && 0 <= va < UINT_LIMIT
      modifies this`free, this`mem, this`owner
      ensures Walked(old(State()), State(), d, va, alloc, r)
      ensures Spends(old(State()), State(), d, {va / PGSIZE}, 0)
    {
      hide Sound, Put, Entry, FrameOf, Present, Zeroes, Spends;
      ghost var s := State();
      SpendsNothing(s, d, {va / PGSIZE});
      FoundTable(s, d, PdIndex(va));
      var k := va / PGSIZE / NENTRIES;
      var pgtab;
      if Present(mem[d][k]) {
        pgtab := FrameOf(mem[d][k]);
      } else {
        if !alloc {
          return None;
        }
        var f := Kalloc();
        if f == None {
          return None;
        }
        pgtab := f.value;
        AddTable(s, d, k);
        TabledSpends(s, d, va / PGSIZE);
        mem := mem[pgtab := Zeroes()];
        PutEntry(mem, d, k, Entry(pgtab, PTE_W + PTE_U));
        mem := mem[d := mem[d][k := Entry(pgtab, PTE_W + PTE_U)]];
        owner := owner[pgtab := Table(d, k)];
        assert State() == Tabled(s, d, k);
        TabledGrew(s, d, k);
      }
      r := Some(Pte(pgtab, va / PGSIZE % NENTRIES));
    }

    /** mappages; the requires on the pages excludes the "remap" panic. A user page takes over the
        frame its caller holds. */
    method Mappages(d: int, va: int, size: int, pa: int, perm: int) returns (ok: bool, ghost done: nat)
      requires Sound(State()) && d in flat
      requires 0 <= va && 1 <= size && va + size <= UINT_LIMIT && 0 <= perm < PGSIZE
      requires pa % PGSIZE == 0 && 0 <= pa && pa / PGSIZE + ((va + size - 1) / PGSIZE - va / PGSIZE) < NPAGES
      requires forall u :: va / PGSIZE <= u <= (va + size - 1) / PGSIZE ==> u !in flat[d]
      requires HeldFor(State(), va / PGSIZE, (va + size - 1) / PGSIZE - va / PGSIZE + 1, pa / PGSIZE)
      modifies this`free, this`mem, this`owner, this`flat
      ensures Mapped(old(State()), State(), d, va / PGSIZE, done, pa / PGSIZE, perm)
      ensures ok ==> done == (va + size - 1) / PGSIZE - va / PGSIZE + 1
      ensures !ok ==> free == [] && done <= (va + size - 1) / PGSIZE - va / PGSIZE
      ensures !ok ==> !Present(Word(mem, d, (va / PGSIZE + done) / NENTRIES))
      ensures Spends(old(State()), State(), d, Range(va / PGSIZE, va / PGSIZE + done), UserPages(va / PGSIZE, done))
    {
      hide Sound, Mapped, Put, Entry, FrameOf, Present, Remap, MapRange, Spends, Range, Word, UserPages;
      ghost var s0 := State();
      var a := va / PGSIZE * PGSIZE;
      var last := (va + size - 1) % UINT_LIMIT / PGSIZE * PGSIZE;
      var p := pa;
      done := 0;
      MappedStart(s0, d, va / PGSIZE, pa / PGSIZE, perm);
      RangeStart(s0, d, va / PGSIZE);
      while true
        invariant a == (va / PGSIZE + done) * PGSIZE && a <= last && p == (pa / PGSIZE + done) * PGSIZE
        invariant Mapped(s0, State(), d, va / PGSIZE, done, pa / PGSIZE, perm)
        invariant Spends(s0, State(), d, Range(va / PGSIZE, va / PGSIZE + done), UserPages(va / PGSIZE, done))
        decreases last - a
      {
        ghost var s1 := State();
        MappedSound(s0, s1, d, va / PGSIZE, done, pa / PGSIZE, perm);
        var pte := Walkpgdir(d, a, true);
        ghost var s2 := State();
        MappedWalk(s0, s1, s2, d, va / PGSIZE, done, pa / PGSIZE, perm, a, pte);
        if pte == None {
          return false, done;
        }
        PageStep(s0, s1, s2, d, va / PGSIZE, done, pa / PGSIZE, perm, pte.value.t);
        NotPresent(mem[pte.value.t][pte.value.i]);
        assert !Present(mem[pte.value.t][pte.value.i]);         // no "remap" panic
        PutEntry(mem, pte.value.t, pte.value.i, Entry(p / PGSIZE, perm));
        mem := mem[pte.value.t := mem[pte.value.t][pte.value.i := Entry(p / PGSIZE, perm)]];
        flat := Remap(flat, d, a / PGSIZE, Entry(p / PGSIZE, perm));
        owner := if a / PGSIZE < KERNPAGE then owner[p / PGSIZE := User(d, a / PGSIZE)] else owner;
        assert State() == MappedPage(s2, d, va / PGSIZE + done, pte.value.t, pa / PGSIZE + done, perm);
        done := done + 1;
        if a == last {
          return true, done;
        }
        a := a + PGSIZE;
        p := p + PGSIZE;
      }
    }

    /** deallocuvm of a range below KERNBASE: exactly its pages are removed, and their frames freed. */
    method Deallocuvm(d: int, oldsz: int, newsz: int) returns (r: int)
      requires Sound(State()) && d in flat && 0 <= oldsz <= KERNBASE && 0 <= newsz < UINT_LIMIT
      modifies this`free, this`mem, this`owner, this`flat
      ensures newsz >= oldsz ==> r == oldsz && State() == old(State())
      ensures newsz < oldsz ==>
        r == newsz && Sound(State()) && Shrunk(old(State()), State(), d, PageCount(newsz), PageCount(oldsz))
    {
      hide Sound, Shrunk, Put, FrameOf, Present, Remap, Removed, Freed, Junk, Owns;
      ghost var s0, lo, hi := State(), PageCount(newsz), PageCount(oldsz);
      if newsz >= oldsz {
        return oldsz;
      }
      var a := (newsz + PGSIZE - 1) / PGSIZE * PGSIZE;
      ghost var v := lo;
      ShrunkStart(s0, d, lo);
      while a < oldsz
        invariant a % PGSIZE == 0 && lo <= v <= hi && v == (if a / PGSIZE < hi then a / PGSIZE else hi)
        invariant d in flat && Sound(State()) && Shrunk(s0, State(), d, lo, v)
        decreases oldsz - a
      {
        ghost var s1 := State();
        var pte := Walkpgdir(d, a, false);
        if pte == None {
          a := (PdIndex(a) + 1) * NENTRIES * PGSIZE - PGSIZE;
          ghost var next := if a / PGSIZE + 1 < hi then a / PGSIZE + 1 else hi;
          SkipDirectory(s0, s1, d, lo, v, next);
          v := next;
        } else {
          RemovePage(d, v, pte.value.t, pte.value.i);
          ShrunkPage(s0, s1, State(), d, lo, v);
          v := v + 1;
        }
        a := a + PGSIZE;
      }
      r := newsz;
    }

    /** What deallocuvm does at a page table entry. */
    method RemovePage(d: int, ghost v: int, t: int, i: int)
      requires Sound(State()) && d in flat && 0 <= v < KERNPAGE && Owns(owner, t, Table(d, v / NENTRIES)) && i == v % NENTRIES
      modifies this`free, this`mem, this`owner, this`flat
      ensures Sound(State()) && PageGone(old(State()), State(), d, v)
    {
      hide Sound, Put, FrameOf, Present, Remap, Junk;
      ghost var s := State();
      FoundEntry(s, d, v, t);
      PresentThere(s.flat[d], v);
      if Present(mem[t][i]) {
        var pa := FrameOf(mem[t][i]);
        DropPage(s, d, v, t);
        assert pa != 0;                                         // no "kfree" panic
        Kfree(pa);
        PutEntry(mem, t, i, 0);
        mem := mem[t := mem[t][i := 0]];
        owner := owner - {pa};
        flat := Remap(flat, d, v, 0);
        assert State() == Unmapped(s, d, v, t, pa);
      }
    }

    /** freevm: every frame of directory d goes back to the free list, and no other. */
    method Freevm(d: int)
      requires Sound(State()) && d in flat
      modifies this`free, this`mem, this`owner, this`flat
      ensures Sound(State()) && flat == old(flat) - {d} && owner == Without(old(owner), d)
      ensures forall f :: f in owner && (owner[f].User? || owner[f].Held?) ==> Page(mem, f) == Page(old(mem), f)
    {
      hide Sound, Shrunk, FrameOf, Present, Removed, Freed, Junk, Freeing, Without, Kept;
      ghost var s0 := State();
      var r := Deallocuvm(d, KERNBASE, 0);
      ghost var s1 := State();
      NoUserLeft(s0, s1, d);
      ghost var freed: seq<int> := [];
      FreeingStart(s1, d);
      for i := 0 to NENTRIES
        invariant owner == s1.owner && flat == s1.flat && Freeing(s1, free, mem, d, i, freed)
      {
        FreeingWord(s1, free, mem, d, i, freed);
        FreeingStep(s1, free, mem, d, i, freed);
        if Present(mem[d][i]) {
          var v := FrameOf(mem[d][i]);
          freed := [v] + freed;
          Kfree(v);
        }
      }
      FreeingEnd(s1, free, mem, d, freed);
      Kfree(d);
      owner, flat := Without(owner, d), flat - {d};
      FreevmDone(s0, s1, State(), d);
    }
  }

  /** Page v of directory d and its frame are gone, if there was one. */
  ghost predicate PageGone(s: Memory, s': Memory, d: int, v: int) {
    d in s.flat && 0 <= v &&
    if v in s.flat[d] then exists t :: Owns(s.owner, t, Table(d, v / NENTRIES)) && s' == Unmapped(s, d, v, t, FrameOf(s.flat[d][v]))
    else s' == s
  }

  lemma PresentThere(m: PageMap, v: int)
    requires PagesOk(m)
    ensures Present(At(m, v)) <==> v in m
  {
  }

  lemma ShrunkPage(s0: Memory, s: Memory, s': Memory, d: int, lo: int, v: int)
    requires Shrunk(s0, s, d, lo, v) && Sound(s) && lo <= v < KERNPAGE && PageGone(s, s', d, v)
    ensures Shrunk(s0, s', d, lo, v + 1) && d in s'.flat
  {
    hide Sound, Unmapped, FrameOf, Removed, Freed;
    if v in s.flat[d] {
      var t :| Owns(s.owner, t, Table(d, v / NENTRIES)) && s' == Unmapped(s, d, v, t, FrameOf(s.flat[d][v]));
      ShrunkDrop(s0, s, d, lo, v, t);
    } else {
      ShrunkSkip(s0, s, d, lo, v, v + 1);
    }
  }

  lemma SkipDirectory(s0: Memory, s: Memory, d: int, lo: int, v: int, v': int)
    requires Shrunk(s0, s, d, lo, v) && Sound(s) && d in s.flat && 0 <= lo <= v <= v' <= (v / NENTRIES + 1) * NENTRIES && v < NPAGES
    requires !Present(Word(s.mem, d, v / NENTRIES))
    ensures Shrunk(s0, s, d, lo, v')
  {
    hide Sound, Shrunk, Present, Word;
    forall u | v <= u < v' ensures u !in s.flat[d] {
      NothingFound(s, d, v / NENTRIES, u);
    }
    ShrunkSkip(s0, s, d, lo, v, v');
  }

  lemma NoUserLeft(s0: Memory, s: Memory, d: int)
    requires Sound(s) && Shrunk(s0, s, d, 0, KERNPAGE)
    ensures d in s.flat && forall f :: f in s.owner && s.owner[f].User? ==> s.owner[f].d != d
  {
    hide Tables, Shape, Conserved, FrameOf, Freed;
    assert s.flat[d] == Removed(s0.flat[d], 0, KERNPAGE);
    assert PagesOk(s.flat[d]);
  }

  lemma FreevmDone(s0: Memory, s1: Memory, s: Memory, d: int)
    requires Shrunk(s0, s1, d, 0, KERNPAGE) && Sound(s1) && Kept(s1, s)
    requires s.owner == Without(s1.owner, d) && s.flat == s1.flat - {d}
    ensures s.flat == s0.flat - {d} && s.owner == Without(s0.owner, d)
    ensures forall f :: f in s.owner && (s.owner[f].User? || s.owner[f].Held?) ==> Page(s.mem, f) == Page(s0.mem, f)
  {
    hide Sound;
    forall f ensures f in s.owner <==> f in Without(s0.owner, d) {
    }
  }

  lemma NotPresent(w: int)
    ensures w == 0 ==> !Present(w)
  {
  }

  lemma PutEntry(mem: Frames, f: int, i: int, w: int)
    requires f in mem && 0 <= i < |mem[f]|
    ensures Put(mem, f, i, w) == mem[f := mem[f][i := w]]
  {
  }

  // The page that mappages comes to is absent, and mapping it is one more page of the range.
  lemma PageStep(s0: Memory, s1: Memory, s: Memory, d: int, v: int, done: nat, fr: int, perm: int, t: int)
    requires Mapped(s0, s, d, v, done, fr, perm) && Sound(s0) && 0 <= v && v + done < NPAGES && 0 <= perm < PGSIZE
    requires Owns(s.owner, t, Table(d, (v + done) / NENTRIES)) && v + done !in s0.flat[d]
    requires HeldFor(s0, v, done + 1, fr)
    requires Spends(s0, s1, d, Range(v, v + done), UserPages(v, done)) && Spends(s1, s, d, {v + done}, 0)
    ensures t in s.mem && |s.mem[t]| == NENTRIES && s.mem[t][(v + done) % NENTRIES] == 0
    ensures var s' := MappedPage(s, d, v + done, t, fr + done, perm);
      && Mapped(s0, s', d, v, done + 1, fr, perm)
      && Spends(s0, s', d, Range(v, v + done + 1), UserPages(v, done + 1))
  {
    hide Sound, Mapped, Spends, Entry, Put, FrameOf, Present, MappedPage, UserPages, HeldFor, MapRange;
    MappedSound(s0, s, d, v, done, fr, perm);
    MappedPut(s0, s, d, v, done, fr, perm, t);
    FoundEntry(s, d, v + done, t);
    MappedSpends(s, d, v + done, t, fr + done, perm);
    RangeStep(s0, s1, s, MappedPage(s, d, v + done, t, fr + done, perm), d, v, done);
  }

  lemma MappedSound(s0: Memory, s: Memory, d: int, v: int, done: nat, fr: int, perm: int)
    requires Mapped(s0, s, d, v, done, fr, perm)
    ensures Sound(s) && d in s.flat
  {
    hide Sound, MapRange;
  }

  lemma TabledGrew(s: Memory, d: int, k: int)
    requires Sound(s) && s.free != [] && s.free[0] !in s.owner && Owns(s.owner, d, Dir(d))
    ensures Grew(s, Tabled(s, d, k), d) && Kept(s, Tabled(s, d, k))
  {
    hide Sound, Entry, Zeroes;
  }
}
