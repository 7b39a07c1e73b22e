/** The steps of the address space code (p2/solution/vm.c, kalloc.c) on the whole memory: free
    list, frames, their owners and the flat maps, with the invariant that each step keeps. */
module FrameSteps {
  import opened PageTable

  datatype Memory = Memory(first: int, limit: int, free: seq<int>, mem: Frames, owner: map<int, Use>, flat: map<int, PageMap>)

  /** Page tables stand for the flat maps, user pages have frames of their own, and no frame is lost. */
  ghost predicate Sound(s: Memory) {
    && 0 < s.first && s.limit <= NPAGES
    && Trees(s.mem, s.owner, s.flat) && Users(s.owner, s.flat) && Conserved(s.free, s.owner, s.first, s.limit)
  }

  // ---------------------------------------------------------------- kalloc and kfree

  lemma TakeConserved(free: seq<int>, owner: map<int, Use>, first: int, limit: int, u: Use)
    requires Conserved(free, owner, first, limit) && free != []
    ensures free[0] !in owner && Conserved(free[1..], owner[free[0] := u], first, limit)
  {
    assert free == [free[0]] + free[1..];
    forall i | 0 <= i < |free[1..]| ensures free[1..][i] != free[0] {
      assert free[1..][i] == free[i + 1];
    }
    assert free[0] in free;
    assert forall f :: f in free <==> f == free[0] || f in free[1..];
  }

  lemma DistinctConcat(a: seq<int>, b: seq<int>)
    requires Distinct(a) && Distinct(b) && forall f :: f in a ==> f !in b
    ensures Distinct(a + b)
  {
    forall i, j | 0 <= i < j < |a + b| ensures (a + b)[i] != (a + b)[j] {
      if i < |a| <= j {
        assert a[i] in a && b[j - |a|] in b;
      }
    }
  }

  function Page(mem: Frames, f: int): seq<int> {
    if f in mem then mem[f] else []
  }

  lemma GiveConserved(free: seq<int>, owner: map<int, Use>, first: int, limit: int, f: int)
    requires Conserved(free, owner, first, limit) && f in owner
    ensures first <= f < limit && Conserved([f] + free, owner - {f}, first, limit)
  {
  }

  function Taken(s: Memory, page: seq<int>, u: Use): Memory {
    if s.free == [] then s
    else s.(free := s.free[1..], mem := s.mem[s.free[0] := page], owner := s.owner[s.free[0] := u])
  }

  /** A kalloc'd frame, filled by its new holder. */
  lemma HoldFrame(s: Memory, page: seq<int>)
    requires Sound(s) && s.free != [] && |page| == NENTRIES
    ensures s.free[0] !in s.owner && Sound(Taken(s, page, Held))
  {
    hide Tables, Refines, Conserved;
    TakeConserved(s.free, s.owner, s.first, s.limit, Held);
    var s' := Taken(s, page, Held);
    SameTrees(s.mem, s.owner, s'.mem, s'.owner, s.flat);
  }

  function Given(s: Memory, f: int): Memory {
    s.(free := [f] + s.free, mem := s.mem[f := Junk()], owner := s.owner - {f})
  }

  lemma ReleaseFrame(s: Memory, f: int)
    requires Sound(s) && Owns(s.owner, f, Held)
    ensures s.first <= f < s.limit && Sound(Given(s, f))
  {
    hide Tables, Refines, Conserved;
    GiveConserved(s.free, s.owner, s.first, s.limit, f);
    var s' := Given(s, f);
    SameTrees(s.mem, s.owner, s'.mem, s'.owner, s.flat);
  }

  // ---------------------------------------------------------------- walkpgdir and mappages

  function Tabled(s: Memory, d: int, k: int): Memory {
    if s.free == [] then s
    else s.(free := s.free[1..], mem := WithTable(s.mem, d, k, s.free[0]), owner := s.owner[s.free[0] := Table(d, k)])
  }

  lemma AddTable(s: Memory, d: int, k: int)
    requires Sound(s) && s.free != [] && d in s.flat && 0 <= k < NENTRIES && !Present(Word(s.mem, d, k))
    ensures s.free[0] !in s.owner && Sound(Tabled(s, d, k))
  {
    hide Trees, Conserved, WithTable;
    TakeConserved(s.free, s.owner, s.first, s.limit, Table(d, k));
    NewTable(s.mem, s.owner, s.flat, d, k, s.free[0]);
  }

  // The page table walkpgdir finds through a present directory entry.
  lemma FoundTable(s: Memory, d: int, k: int)
    requires Sound(s) && d in s.flat && 0 <= k < NENTRIES
    ensures d in s.mem && |s.mem[d]| == NENTRIES && Owns(s.owner, d, Dir(d))
    ensures Present(Word(s.mem, d, k)) ==> Owns(s.owner, FrameOf(Word(s.mem, d, k)), Table(d, k))
  {
    hide Refines, Users, Conserved, Linked, FrameOf, Present;
    assert Owns(s.owner, d, Dir(d));
    assert TableOk(s.mem, s.owner, d, k);
  }

  lemma FoundEntry(s: Memory, d: int, v: int, t: int)
    requires Sound(s) && d in s.flat && 0 <= v < NPAGES && Owns(s.owner, t, Table(d, v / NENTRIES))
    ensures t in s.mem && |s.mem[t]| == NENTRIES && s.mem[t][v % NENTRIES] == At(s.flat[d], v)
    ensures PagesOk(s.flat[d])
  {
    hide Users, Conserved, FrameOf, Present, PagesOk;
    assert Linked(s.mem, s.flat, t, s.owner[t]);
    assert Lookup(s.mem, d, v) == At(s.flat[d], v);
  }

  lemma NothingFound(s: Memory, d: int, k: int, v: int)
    requires Sound(s) && d in s.flat && 0 <= k < NENTRIES && !Present(Word(s.mem, d, k)) && v / NENTRIES == k
    ensures v !in s.flat[d]
  {
    hide Users, Conserved, FrameOf, Tables, Shape, Word;
    assert PagesOk(s.flat[d]);
    assert Lookup(s.mem, d, v) == At(s.flat[d], v);
  }

  /** One assignment of mappages; a user page takes over its frame. */
  function MappedPage(s: Memory, d: int, v: int, t: int, fr: int, perm: int): Memory {
    s.(mem := Put(s.mem, t, v % NENTRIES, Entry(fr, perm)),
       flat := Remap(s.flat, d, v, Entry(fr, perm)),
       owner := if v < KERNPAGE then s.owner[fr := User(d, v)] else s.owner)
  }

  lemma MapPage(s: Memory, d: int, v: int, t: int, fr: int, perm: int)
    requires Sound(s) && d in s.flat && 0 <= v < NPAGES && Owns(s.owner, t, Table(d, v / NENTRIES))
    requires v !in s.flat[d] && 0 <= perm < PGSIZE && (v < KERNPAGE ==> Owns(s.owner, fr, Held))
    ensures Sound(MappedPage(s, d, v, t, fr, perm))
  {
    hide Tables, Refines, Conserved, Present, Put, Entry, FrameOf;
    EntryParts(fr, perm);
    EntryNotZero(fr, perm);
    SetEntry(s.mem, s.owner, s.flat, d, v, t, Entry(fr, perm));
    var s' := MappedPage(s, d, v, t, fr, perm);
    if v < KERNPAGE {
      SameTrees(s'.mem, s.owner, s'.mem, s'.owner, s'.flat);
      ConservedUse(s.free, s.owner, s.first, s.limit, fr, User(d, v));
    }
    assert Users(s'.owner, s'.flat);
  }

  lemma EntryNotZero(fr: int, perm: int)
    requires 0 <= perm < PGSIZE
    ensures Entry(fr, perm) != 0
  {
  }

  lemma ConservedUse(free: seq<int>, owner: map<int, Use>, first: int, limit: int, f: int, u: Use)
    requires Conserved(free, owner, first, limit) && f in owner
    ensures Conserved(free, owner[f := u], first, limit)
  {
  }

  /** `done` consecutive pages from v on, mapped to frames from fr on. */
  function MapRange(m: PageMap, v: int, done: nat, fr: int, perm: int): PageMap {
    if done == 0 then m else MapRange(m, v, done - 1, fr, perm)[v + done - 1 := Entry(fr + done - 1, perm)]
  }

  /** Exactly the range is added. */
  lemma {:induction false} MapRangeAt(m: PageMap, v: int, done: nat, fr: int, perm: int, u: int)
    ensures u in MapRange(m, v, done, fr, perm) <==> u in m || v <= u < v + done
    ensures v <= u < v + done ==> MapRange(m, v, done, fr, perm)[u] == Entry(fr + (u - v), perm)
    ensures u in m && !(v <= u < v + done) ==> MapRange(m, v, done, fr, perm)[u] == m[u]
  {
    hide Entry;
    if done > 0 {
      MapRangeAt(m, v, done - 1, fr, perm, u);
    }
  }

  /** Contents of user pages and of frames held for other purposes. */
  ghost predicate Kept(s0: Memory, s: Memory) {
    forall f :: f in s0.owner && (s0.owner[f].User? || s0.owner[f].Held?) ==> Page(s.mem, f) == Page(s0.mem, f)
  }

  /** s has every frame of s0 in use as before, and new ones only for directory d. */
  ghost predicate Grew(s0: Memory, s: Memory, d: int) {
    && (forall f :: f in s0.owner ==> Owns(s.owner, f, s0.owner[f]))
    && (forall f :: f in s.owner && f !in s0.owner ==> Of(s.owner[f], d))
  }

  // ---------------------------------------------------------------- deallocuvm

  /** kfree of page v's frame, and *pte = 0. */
  function Unmapped(s: Memory, d: int, v: int, t: int, f: int): Memory {
    s.(free := [f] + s.free, mem := Put(s.mem[f := Junk()], t, v % NENTRIES, 0), owner := s.owner - {f},
       flat := Remap(s.flat, d, v, 0))
  }

  lemma DropPage(s: Memory, d: int, v: int, t: int)
    requires Sound(s) && d in s.flat && 0 <= v < KERNPAGE && v in s.flat[d] && Owns(s.owner, t, Table(d, v / NENTRIES))
    ensures var f := FrameOf(s.flat[d][v]);
      Owns(s.owner, f, User(d, v)) && 0 < s.first <= f < s.limit && Sound(Unmapped(s, d, v, t, f))
  {
    hide Tables, Refines, Conserved, Present, Put, FrameOf;
    var f := FrameOf(s.flat[d][v]);
    assert Owns(s.owner, f, User(d, v));
    GiveConserved(s.free, s.owner, s.first, s.limit, f);
    var s' := Unmapped(s, d, v, t, f);
    PutAside(s.mem, t, v % NENTRIES, 0, f, Junk());
    SetEntry(s.mem, s.owner, s.flat, d, v, t, 0);
    SameTrees(Put(s.mem, t, v % NENTRIES, 0), s.owner, s'.mem, s'.owner, s'.flat);
    assert Users(s'.owner, s'.flat);
  }

  lemma PutAside(mem: Frames, t: int, i: int, w: int, f: int, page: seq<int>)
    requires f != t && t in mem && 0 <= i < |mem[t]|
    ensures Put(mem[f := page], t, i, w) == Put(mem, t, i, w)[f := page]
  {
  }

  /** Pages lo..hi gone. */
  function Removed(m: PageMap, lo: int, hi: int): PageMap {
    map v | v in m && !(lo <= v < hi) :: m[v]
  }

  lemma RemovedOne(m: PageMap, lo: int, v: int)
    requires lo <= v
    ensures Removed(m, lo, v + 1) == Removed(m, lo, v) - {v}
  {
  }

  predicate UserIn(u: Use, d: int, lo: int, hi: int) {
    u.User? && u.d == d && lo <= u.v < hi
  }

  function Freed(owner: map<int, Use>, d: int, lo: int, hi: int): map<int, Use> {
    map f | f in owner && !UserIn(owner[f], d, lo, hi) :: owner[f]
  }

  lemma FreedOn(owner: map<int, Use>, d: int, lo: int, v: int, v': int)
    requires lo <= v <= v'
    ensures Freed(Freed(owner, d, lo, v), d, v, v') == Freed(owner, d, lo, v')
  {
    var a, b := Freed(Freed(owner, d, lo, v), d, v, v'), Freed(owner, d, lo, v');
    forall f ensures f in a <==> f in b {
    }
  }

  lemma FreedNone(owner: map<int, Use>, d: int, lo: int, hi: int)
    requires forall f :: f in owner ==> !UserIn(owner[f], d, lo, hi)
    ensures Freed(owner, d, lo, hi) == owner
  {
    forall f ensures f in Freed(owner, d, lo, hi) <==> f in owner {
    }
  }

  lemma FreedOne(owner: map<int, Use>, d: int, v: int, f: int)
    requires forall g :: g in owner ==> (UserIn(owner[g], d, v, v + 1) <==> g == f)
    ensures Freed(owner, d, v, v + 1) == owner - {f}
  {
    forall g ensures g in Freed(owner, d, v, v + 1) <==> g in owner - {f} {
    }
  }

  /** s is s0 with pages lo..v of directory d removed and their frames free. */
  ghost predicate Shrunk(s0: Memory, s: Memory, d: int, lo: int, v: int) {
    && d in s0.flat && s.first == s0.first && s.limit == s0.limit
    && s.flat == s0.flat[d := Removed(s0.flat[d], lo, v)]
    && s.owner == Freed(s0.owner, d, lo, v)
    && (forall f :: f in s.owner && (s.owner[f].User? || s.owner[f].Held?) ==> Page(s.mem, f) == Page(s0.mem, f))
  }

  lemma ShrunkStart(s: Memory, d: int, lo: int)
    requires Sound(s) && d in s.flat
    ensures Shrunk(s, s, d, lo, lo)
  {
    hide Tables, Refines, Users, Conserved;
    assert Removed(s.flat[d], lo, lo) == s.flat[d];
    assert s.flat[d := s.flat[d]] == s.flat;
    FreedNone(s.owner, d, lo, lo);
  }

  // No page from v up to v' is there, so nothing is to be freed for them.
  lemma ShrunkSkip(s0: Memory, s: Memory, d: int, lo: int, v: int, v': int)
    requires Shrunk(s0, s, d, lo, v) && Sound(s) && lo <= v <= v'
    requires forall u :: v <= u < v' ==> u !in s.flat[d]
    ensures Shrunk(s0, s, d, lo, v')
  {
    hide Trees, Conserved, FrameOf, Freed;
    assert s.flat[d] == Removed(s0.flat[d], lo, v);
    forall u | v <= u < v' ensures u !in s0.flat[d] {
      assert u !in Removed(s0.flat[d], lo, v);
    }
    assert Removed(s0.flat[d], lo, v') == Removed(s0.flat[d], lo, v);
    forall f | f in s.owner ensures !UserIn(s.owner[f], d, v, v') {
      assert s.owner[f].User? ==> s.owner[f].v in s.flat[s.owner[f].d];
    }
    FreedOn(s0.owner, d, lo, v, v');
    FreedNone(s.owner, d, v, v');
  }

  lemma ShrunkDrop(s0: Memory, s: Memory, d: int, lo: int, v: int, t: int)
    requires Shrunk(s0, s, d, lo, v) && Sound(s) && lo <= v < KERNPAGE && 0 <= v && v in s.flat[d]
    requires Owns(s.owner, t, Table(d, v / NENTRIES))
    ensures Shrunk(s0, Unmapped(s, d, v, t, FrameOf(s.flat[d][v])), d, lo, v + 1)
  {
    hide Shape, Tables, Refines, Conserved, FrameOf, Freed, Junk;
    var f := FrameOf(s.flat[d][v]);
    assert Owns(s.owner, f, User(d, v));
    RemovedOne(s0.flat[d], lo, v);
    forall g | g in s.owner ensures UserIn(s.owner[g], d, v, v + 1) <==> g == f {
    }
    FreedOn(s0.owner, d, lo, v, v + 1);
    FreedOne(s.owner, d, v, f);
  }

  // ---------------------------------------------------------------- setupkvm and freevm

  function WithDir(s: Memory): Memory {
    if s.free == [] then s
    else s.(free := s.free[1..], mem := s.mem[s.free[0] := Zeroes()], owner := s.owner[s.free[0] := Dir(s.free[0])],
            flat := s.flat[s.free[0] := map[]])
  }

  lemma AddDir(s: Memory)
    requires Sound(s) && s.free != []
    ensures s.free[0] !in s.owner && s.free[0] !in s.flat && Sound(WithDir(s))
  {
    hide Trees, Conserved, FrameOf;
    TakeConserved(s.free, s.owner, s.first, s.limit, Dir(s.free[0]));
    NewDir(s.mem, s.owner, s.flat, s.free[0]);
    UsersNoDir(s);
  }

  lemma UsersNoDir(s: Memory)
    requires Users(s.owner, s.flat) && s.free != [] && s.free[0] !in s.owner && s.free[0] !in s.flat
    ensures Users(WithDir(s).owner, WithDir(s).flat)
  {
    hide FrameOf;
  }

  predicate TableBelow(u: Use, d: int, i: int) {
    u.Table? && u.d == d && u.k < i
  }

  /** freevm's second loop after i directory entries: `freed` went back to the free list. */
  ghost predicate Freeing(s: Memory, free: seq<int>, mem: Frames, d: int, i: int, freed: seq<int>) {
    && free == freed + s.free && Distinct(freed)
    && (forall f :: f in freed <==> f in s.owner && TableBelow(s.owner[f], d, i))
    && (forall f :: f !in freed && f in s.mem ==> f in mem && mem[f] == s.mem[f])
  }

  lemma FreeingStart(s: Memory, d: int)
    requires Sound(s)
    ensures Freeing(s, s.free, s.mem, d, 0, [])
  {
    hide Users, Conserved, Refines, FrameOf, Present;
    assert s.free == [] + s.free;
    forall f | f in s.owner ensures !TableBelow(s.owner[f], d, 0) {
      assert Linked(s.mem, s.flat, f, s.owner[f]);
    }
  }

  // The directory is still intact while its tables are being freed.
  lemma FreeingWord(s: Memory, free: seq<int>, mem: Frames, d: int, i: int, freed: seq<int>)
    requires Sound(s) && d in s.flat && 0 <= i < NENTRIES && Freeing(s, free, mem, d, i, freed)
    ensures Word(mem, d, i) == Word(s.mem, d, i) && d in mem && |mem[d]| == NENTRIES
    ensures Present(Word(s.mem, d, i)) ==> s.first <= FrameOf(Word(s.mem, d, i)) < s.limit
  {
    hide Users, Refines, FrameOf, Present, Linked, Distinct;
    assert Owns(s.owner, d, Dir(d));
    assert TableOk(s.mem, s.owner, d, i);
  }

  lemma FreeingStep(s: Memory, free: seq<int>, mem: Frames, d: int, i: int, freed: seq<int>)
    requires Sound(s) && d in s.flat && 0 <= i < NENTRIES && Freeing(s, free, mem, d, i, freed)
    ensures var t := FrameOf(Word(s.mem, d, i));
      if Present(Word(s.mem, d, i)) then Freeing(s, [t] + free, mem[t := Junk()], d, i + 1, [t] + freed)
      else Freeing(s, free, mem, d, i + 1, freed)
  {
    hide Users, Conserved, Refines, FrameOf, Present, Junk;
    assert TableOk(s.mem, s.owner, d, i);
    var t := FrameOf(Word(s.mem, d, i));
    forall f | f in s.owner && TableBelow(s.owner[f], d, i + 1) && !TableBelow(s.owner[f], d, i)
      ensures Present(Word(s.mem, d, i)) && f == t
    {
      assert Linked(s.mem, s.flat, f, s.owner[f]);
    }
    assert [t] + free == [t] + freed + s.free;
  }

  /** freevm: directory d, its tables and nothing else went back to the free list. */
  lemma FreeingEnd(s: Memory, free: seq<int>, mem: Frames, d: int, freed: seq<int>)
    requires Sound(s) && d in s.flat && Freeing(s, free, mem, d, NENTRIES, freed)
    requires forall f :: f in s.owner && s.owner[f].User? ==> s.owner[f].d != d
    ensures s.first <= d < s.limit
    ensures var s' := s.(free := [d] + free, mem := mem[d := Junk()], owner := Without(s.owner, d), flat := s.flat - {d});
      Sound(s') && Kept(s, s')
  {
    hide FrameOf, Present, Junk, Refines;
    var s' := s.(free := [d] + free, mem := mem[d := Junk()], owner := Without(s.owner, d), flat := s.flat - {d});
    assert Owns(s.owner, d, Dir(d));
    forall f | f in s.owner ensures Of(s.owner[f], d) <==> f == d || f in freed {
      assert Linked(s.mem, s.flat, f, s.owner[f]);
    }
    DeadDir(s.mem, s.owner, s.flat, d, s'.mem);
    FreeingConserved(s, d, freed);
    assert [d] + free == [d] + freed + s.free;
    DeadUsers(s, d);
  }

  lemma FreeingConserved(s: Memory, d: int, freed: seq<int>)
    requires Conserved(s.free, s.owner, s.first, s.limit) && Distinct(freed) && d in s.owner && d !in freed
    requires forall f :: f in freed ==> f in s.owner
    requires forall f :: f in s.owner ==> (Of(s.owner[f], d) <==> f == d || f in freed)
    ensures Conserved([d] + freed + s.free, Without(s.owner, d), s.first, s.limit)
  {
    DistinctConcat([d], freed);
    DistinctConcat([d] + freed, s.free);
  }

  lemma DeadUsers(s: Memory, d: int)
    requires Users(s.owner, s.flat)
    ensures Users(Without(s.owner, d), s.flat - {d})
  {
    hide FrameOf;
  }

  /** A free list without duplicates holds exactly the frames nobody owns: equal owners, equal lists
      up to order. */
  lemma SameFree(s: Memory, s': Memory)
    requires Sound(s) && Sound(s') && s'.owner == s.owner && s'.first == s.first && s'.limit == s.limit
    ensures multiset(s'.free) == multiset(s.free)
  {
    hide Trees, Users;
    forall f ensures multiset(s'.free)[f] == multiset(s.free)[f] {
      Once(s.free, f);
      Once(s'.free, f);
      assert f in s.free <==> f in s'.free;
    }
  }

  lemma {:induction false} Once(s: seq<int>, f: int)
    requires Distinct(s)
    ensures multiset(s)[f] == if f in s then 1 else 0
  {
    if s != [] {
      assert s == [s[0]] + s[1..];
      Once(s[1..], f);
    }
  }
}
