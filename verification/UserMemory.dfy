/** setupkvm, allocuvm and copyuvm (p2/solution/vm.c): what they build, and that a failure gives
    every frame back. */
module UserMemory {
  import opened PageTable
  import opened FrameSteps
  import opened FrameSpace
  import opened AddressSpace

  const EXTMEM: int := 0x10_0000
  const KERNLINK: int := 0x8010_0000
  const PHYSTOP: int := 0xE00_0000
  const DEVSPACE: int := 0xFE00_0000

  // ---------------------------------------------------------------- growing one directory

  /** s is s0 with more in directory d alone: new frames are d's, or in `held` and not yet mapped. */
  ghost predicate Growing(s0: Memory, s: Memory, d: int, held: set<int>) {
    && Sound(s0) && Sound(s) && s.first == s0.first && s.limit == s0.limit && Kept(s0, s)
    && d in s.flat && s.flat - {d} == s0.flat - {d}
    && (forall f :: f in s0.owner ==> Owns(s.owner, f, s0.owner[f]))
    && (forall f :: f in s.owner && f !in s0.owner ==> Of(s.owner[f], d) || (f in held && s.owner[f] == Held))
  }

  lemma GrowingSame(s: Memory, d: int)
    requires Sound(s) && d in s.flat
    ensures Growing(s, s, d, {})
  {
    hide Sound;
  }

  lemma GrowingDir(s: Memory)
    requires Sound(s) && s.free != []
    ensures Growing(s, WithDir(s), s.free[0], {}) && s.free[0] !in s.owner && s.free[0] !in s.flat
  {
    hide Sound, Zeroes;
    AddDir(s);
  }

  lemma GrowingHeld(s0: Memory, s: Memory, d: int, page: seq<int>)
    requires Growing(s0, s, d, {}) && s.free != [] && |page| == NENTRIES
    ensures var f, s' := s.free[0], Taken(s, page, Held);
      f !in s.owner && Growing(s0, s', d, {f}) && Kept(s, s') && Page(s'.mem, f) == page && Owns(s'.owner, f, Held)
  {
    hide Sound;
    HoldFrame(s, page);
  }

  // Kernel pages, or page tables only.
  lemma GrowingMapped(s0: Memory, s: Memory, s': Memory, d: int, held: set<int>, v: int, done: nat, fr: int, perm: int)
    requires Growing(s0, s, d, held) && Mapped(s, s', d, v, done, fr, perm) && (done == 0 || v >= KERNPAGE)
    ensures Growing(s0, s', d, held) && Kept(s, s')
    ensures done == 0 ==> s'.flat == s.flat && forall f :: f in s.owner ==> Owns(s'.owner, f, s.owner[f])
  {
    hide Sound, FrameOf, MapRange;
    assert done == 0 ==> MapRange(s.flat[d], v, done, fr, perm) == s.flat[d] by {
      NothingMapped(s.flat[d], v, fr, perm);
    }
    assert s'.flat - {d} == s.flat - {d};
    assert forall f :: f in s.owner ==> Owns(s'.owner, f, s.owner[f]);
  }

  lemma NothingMapped(m: PageMap, v: int, fr: int, perm: int)
    ensures MapRange(m, v, 0, fr, perm) == m
  {
  }

  lemma OneMapped(m: PageMap, v: int, fr: int, perm: int)
    ensures MapRange(m, v, 1, fr, perm) == m[v := Entry(fr, perm)]
  {
    assert MapRange(m, v, 0, fr, perm) == m;
  }

  // One user page on the frame held for it.
  lemma GrowingPage(s0: Memory, s: Memory, s': Memory, d: int, v: int, f: int, perm: int)
    requires Growing(s0, s, d, {f}) && f !in s0.owner && Mapped(s, s', d, v, 1, f, perm) && v < KERNPAGE && Owns(s.owner, f, Held)
    requires 0 <= perm < PGSIZE
    ensures Growing(s0, s', d, {}) && Kept(s, s') && s'.flat == s.flat[d := s.flat[d][v := Entry(f, perm)]]
    ensures Owns(s'.owner, f, User(d, v)) && forall g :: g in s.owner && g != f ==> Owns(s'.owner, g, s.owner[g])
  {
    hide Sound, MapRange, FrameOf, Entry;
    OneMapped(s.flat[d], v, f, perm);
    PageOwned(s, s', d, v, f, perm);
    assert s'.flat - {d} == s.flat - {d};
  }

  // A user page that is mapped has its frame.
  lemma PageOwned(s: Memory, s': Memory, d: int, v: int, f: int, perm: int)
    requires Mapped(s, s', d, v, 1, f, perm) && v < KERNPAGE && 0 <= perm < PGSIZE
    requires MapRange(s.flat[d], v, 1, f, perm) == s.flat[d][v := Entry(f, perm)]
    ensures Owns(s'.owner, f, User(d, v))
  {
    hide Trees, Conserved, MapRange, Entry, FrameOf, Present, Kept;
    EntryParts(f, perm);
    assert s'.flat[d][v] == Entry(f, perm);
  }

  lemma GrowingGiven(s0: Memory, s: Memory, d: int, f: int)
    requires Growing(s0, s, d, {f}) && f !in s0.owner && Owns(s.owner, f, Held)
    ensures s.first <= f < s.limit && Growing(s0, Given(s, f), d, {})
  {
    hide Sound, Junk;
    ReleaseFrame(s, f);
  }

  /** Everything is as in s0, but for empty page tables that directory d got, and `held` frames. */
  ghost predicate Restored(s0: Memory, s: Memory, d: int, held: set<int>) {
    && Sound(s) && s.first == s0.first && s.limit == s0.limit && Kept(s0, s)
    && s.flat == s0.flat
    && (forall f :: f in s0.owner ==> Owns(s.owner, f, s0.owner[f]))
    && (forall f :: f in s.owner && f !in s0.owner ==>
          (s.owner[f].Table? && s.owner[f].d == d) || (f in held && s.owner[f] == Held))
  }

  lemma RestoredGiven(s0: Memory, s: Memory, d: int, f: int)
    requires Restored(s0, s, d, {f}) && f !in s0.owner && Owns(s.owner, f, Held)
    ensures s.first <= f < s.limit && Restored(s0, Given(s, f), d, {})
  {
    hide Sound, Junk;
    ReleaseFrame(s, f);
  }

  // A directory that s0 does not know has no frames there.
  lemma NoUse(s: Memory, d: int)
    requires Sound(s) && d !in s.flat
    ensures forall f :: f in s.owner ==> !Of(s.owner[f], d)
  {
    hide Shape, Refines, Conserved, FrameOf, Present;
    forall f | f in s.owner ensures !Of(s.owner[f], d) {
      assert Linked(s.mem, s.flat, f, s.owner[f]);
    }
  }

  /** Freeing a directory built since s0 leads back to s0. */
  lemma BuiltAndFreed(s0: Memory, s: Memory, s': Memory, d: int)
    requires Growing(s0, s, d, {}) && d !in s0.flat
    requires Sound(s') && s'.flat == s.flat - {d} && s'.owner == Without(s.owner, d)
    requires s'.first == s.first && s'.limit == s.limit
    requires forall f :: f in s'.owner && (s'.owner[f].User? || s'.owner[f].Held?) ==> Page(s'.mem, f) == Page(s.mem, f)
    ensures s'.flat == s0.flat && s'.owner == s0.owner && Kept(s0, s') && multiset(s'.free) == multiset(s0.free)
  {
    hide Sound;
    NoUse(s0, d);
    assert s0.flat - {d} == s0.flat;
    forall f ensures f in Without(s.owner, d) <==> f in s0.owner {
      assert f in s0.owner ==> Owns(s.owner, f, s0.owner[f]);
    }
    forall f | f in s0.owner ensures s'.owner[f] == s0.owner[f] {
      assert Owns(s.owner, f, s0.owner[f]);
    }
    assert s'.owner == s0.owner;
    SameFree(s0, s');
  }

  // ---------------------------------------------------------------- the kernel's mappings

  /** One entry of kmap. */
  datatype Region = Region(virt: int, start: int, end: int, perm: int)

  /** kmap, with V2P(data) as a parameter. */
  function Kmap(data: int): (m: seq<Region>)
    ensures |m| == 4
  {
    [Region(KERNBASE, 0, EXTMEM, PTE_W), Region(KERNLINK, KERNLINK - KERNBASE, data, 0),
     Region(KERNBASE + data, data, PHYSTOP, PTE_W), Region(DEVSPACE, DEVSPACE, 0, PTE_W)]
  }

  /** phys_end - phys_start as a uint: the last region ends at 2^32. */
  function RegionSize(r: Region): int {
    (r.end - r.start) % UINT_LIMIT
  }

  predicate DataOk(data: int) {
    EXTMEM < data < PHYSTOP && data % PGSIZE == 0
  }

  function KernelMap(data: int, n: nat): PageMap {
    if n == 0 || n > 4 then map[]
    else
      var r := Kmap(data)[n - 1];
      MapRange(KernelMap(data, n - 1), r.virt / PGSIZE, if RegionSize(r) >= 0 then RegionSize(r) / PGSIZE else 0, r.start / PGSIZE, r.perm)
  }

  /** The kernel part: physical memory at KERNBASE and the devices in place, nothing else; only the
      pages from the end of the first region up to data are read-only. */
  lemma KernelMapAt(data: int, v: int)
    requires DataOk(data)
    ensures v in KernelMap(data, 4) <==> KERNPAGE <= v < (KERNBASE + PHYSTOP) / PGSIZE || DEVSPACE / PGSIZE <= v < NPAGES
    ensures KERNPAGE <= v < (KERNBASE + PHYSTOP) / PGSIZE ==>
      KernelMap(data, 4)[v] == Entry(v - KERNPAGE, if EXTMEM / PGSIZE <= v - KERNPAGE < data / PGSIZE then 0 else PTE_W)
    ensures DEVSPACE / PGSIZE <= v < NPAGES ==> KernelMap(data, 4)[v] == Entry(v, PTE_W)
  {
    hide Entry, MapRange;
    RegionStep(data, 1, v);
    RegionStep(data, 2, v);
    RegionStep(data, 3, v);
    RegionStep(data, 4, v);
  }

  lemma RegionSizes(data: int, n: nat)
    requires DataOk(data) && 1 <= n <= 4
    ensures var r := Kmap(data)[n - 1]; RegionSize(r) >= PGSIZE && RegionSize(r) % PGSIZE == 0
  {
    var r := Kmap(data)[n - 1];
    if n == 4 {
      assert RegionSize(r) == UINT_LIMIT - DEVSPACE;
    } else {
      assert RegionSize(r) == r.end - r.start;
    }
  }

  lemma RegionStep(data: int, n: nat, v: int)
    requires DataOk(data) && 1 <= n <= 4
    ensures var r := Kmap(data)[n - 1]; var lo, k := r.virt / PGSIZE, RegionSize(r) / PGSIZE;
      && RegionSize(r) >= PGSIZE && RegionSize(r) % PGSIZE == 0 && KernelMap(data, n) == MapRange(KernelMap(data, n - 1), lo, k, r.start / PGSIZE, r.perm)
      && (v in KernelMap(data, n) <==> v in KernelMap(data, n - 1) || lo <= v < lo + k)
      && (lo <= v < lo + k ==> KernelMap(data, n)[v] == Entry(r.start / PGSIZE + (v - lo), r.perm))
      && (v in KernelMap(data, n - 1) && !(lo <= v < lo + k) ==> KernelMap(data, n)[v] == KernelMap(data, n - 1)[v])
  {
    hide Entry, MapRange, Kmap, RegionSize;
    RegionSizes(data, n);
    var r := Kmap(data)[n - 1];
    MapRangeAt(KernelMap(data, n - 1), r.virt / PGSIZE, RegionSize(r) / PGSIZE, r.start / PGSIZE, r.perm, v);
  }

  // The regions ascend, so mappages finds the pages of the next one absent.
  lemma KernelMapBelow(data: int, n: nat, v: int)
    requires DataOk(data) && n < 4 && Kmap(data)[n].virt / PGSIZE <= v
    ensures v !in KernelMap(data, n)
  {
    hide Entry, MapRange;
    if n >= 1 { RegionStep(data, 1, v); }
    if n >= 2 { RegionStep(data, 2, v); }
    if n >= 3 { RegionStep(data, 3, v); }
  }

  // ---------------------------------------------------------------- how many frames

  const KERNEL_TABLES: int := 64

  /** The pages of the kernel's mappings: physical memory and the devices. */
  function KernelPages(): set<int> {
    Range(KERNPAGE, (KERNBASE + PHYSTOP) / PGSIZE) + Range(DEVSPACE / PGSIZE, NPAGES)
  }

  /** The page tables that n user pages from address 0 on need. */
  function TableCount(n: int): int {
    (n + NENTRIES - 1) / NENTRIES
  }

  // The kernel's mappings fill 56 page tables of physical memory and 8 of devices.
  lemma SpaceTables(n: int)
    requires 0 <= n <= KERNPAGE
    ensures |TablesOf(KernelPages() + Range(0, n))| == KERNEL_TABLES + TableCount(n)
    ensures (set v | v in KernelPages() + Range(0, n) && v < KERNPAGE) == Range(0, n)
  {
    hide TablesOf, TableCount, Range, KernelPages;
    KernelTables();
    KernelAbove();
    UserTables(n);
    TablesOfUnion(KernelPages(), Range(0, n));
    DisjointSizes(Range(512, 568), Range(1016, 1024), Range(0, TableCount(n)));
    forall v ensures v in KernelPages() + Range(0, n) && v < KERNPAGE <==> v in Range(0, n) {
    }
  }

  lemma KernelAbove()
    ensures forall v :: v in KernelPages() ==> v >= KERNPAGE
  {
  }

  lemma KernelTables()
    ensures TablesOf(KernelPages()) == Range(512, 568) + Range(1016, 1024)
  {
    hide TablesOf, Range;
    TablesOfUnion(Range(KERNPAGE, 0x8_E000), Range(0xF_E000, NPAGES));
    TablesOfRange(KERNPAGE, 0x8_E000);
    TablesOfRange(0xF_E000, NPAGES);
  }

  lemma UserTables(n: int)
    requires 0 <= n <= KERNPAGE
    ensures TablesOf(Range(0, n)) == Range(0, TableCount(n)) && 0 <= TableCount(n) <= 512
  {
    if n > 0 {
      TablesOfRange(0, n);
      assert (n - 1) / NENTRIES + 1 == TableCount(n);
    }
  }

  lemma DisjointSizes(a: set<int>, b: set<int>, c: set<int>)
    requires a !! b && a !! c && b !! c
    ensures |a + b + c| == |a| + |b| + |c|
  {
  }

  // The directory with everything that it is to get.
  lemma SpaceNeeds(s: Memory, n: int)
    requires Sound(s) && s.free != [] && 0 <= n <= KERNPAGE
    ensures Slack(WithDir(s), s.free[0], KernelPages() + Range(0, n)) == |s.free| - 1 - KERNEL_TABLES - TableCount(n) - n
  {
    hide Sound, Slack, KernelPages, TableCount;
    DirSpace(s, KernelPages() + Range(0, n));
    SpaceTables(n);
  }

  lemma RegionPages(data: int, i: nat, done: nat)
    requires DataOk(data) && i < 4 && done <= RegionSize(Kmap(data)[i]) / PGSIZE
    ensures var v := Kmap(data)[i].virt / PGSIZE;
      && Range(v, v + done) <= KernelPages() && (done < RegionSize(Kmap(data)[i]) / PGSIZE ==> v + done in KernelPages())
      && UserPages(v, done) == 0
  {
    assert RegionSize(Kmap(data)[i]) == [EXTMEM, data - EXTMEM, PHYSTOP - data, UINT_LIMIT - DEVSPACE][i];
    assert Kmap(data)[i].virt == [KERNBASE, KERNLINK, KERNBASE + data, DEVSPACE][i];
  }

  // mappages of `done` of the kernel's pages, from page v on.
  lemma RegionSpends(w: Memory, s1: Memory, s2: Memory, d: int, v: int, done: nat, ok: bool)
    requires Spends(w, s1, d, KernelPages(), 0) && Spends(s1, s2, d, Range(v, v + done), UserPages(v, done))
    requires Range(v, v + done) <= KernelPages() && UserPages(v, done) == 0
    requires !ok ==> v + done in KernelPages() && s2.free == [] && !Present(Word(s2.mem, d, (v + done) / NENTRIES))
    ensures Spends(w, s2, d, KernelPages(), 0)
    ensures !ok ==> Slack(w, d, KernelPages()) < 0
  {
    hide KernelPages, Slack, Spends, Present, Word, Range, UserPages;
    SpendsMore(w, s1, s2, d, KernelPages(), KernelPages(), Range(v, v + done), 0, 0);
    if !ok {
      OutOfFrames(s2, d, KernelPages(), v + done);
      SpendsAt(w, s2, d, KernelPages(), KernelPages(), 0);
    }
  }

  lemma SpendsAt(s: Memory, s': Memory, d: int, r: set<int>, p: set<int>, gain: int)
    requires Spends(s, s', d, r, gain) && r <= p
    ensures Slack(s', d, p) == Slack(s, d, p) + gain
  {
  }

  // With all pages there, the frames that are left are what was left over.
  lemma SpaceFits(s0: Memory, s: Memory, d: int, n: int)
    requires Sound(s0) && s0.free != [] && d == s0.free[0] && 0 <= n <= KERNPAGE && Sound(s) && d in s.flat
    requires Slack(s, d, KernelPages() + Range(0, n)) == Slack(WithDir(s0), d, KernelPages() + Range(0, n))
    requires forall v :: v in KernelPages() + Range(0, n) ==> v in s.flat[d]
    ensures |s.free| == |s0.free| - 1 - KERNEL_TABLES - TableCount(n) - n
  {
    hide Sound, Slack, TableCount, WithDir;
    SpaceNeeds(s0, n);
    AllMapped(s, d, KernelPages() + Range(0, n));
  }

  lemma KernelKeys(data: int)
    requires DataOk(data)
    ensures forall v :: v in KernelPages() <==> v in KernelMap(data, 4)
  {
    hide KernelMap;
    forall v ensures v in KernelPages() <==> v in KernelMap(data, 4) {
      KernelMapAt(data, v);
    }
  }

  /** setupkvm's loop after i regions of kmap. */
  ghost predicate Building(s0: Memory, s: Memory, d: int, data: int, i: nat) {
    && Growing(s0, s, d, {}) && s.flat == s0.flat[d := KernelMap(data, i)] && s0.free != [] && d == s0.free[0]
    && d !in s0.flat && Spends(WithDir(s0), s, d, KernelPages(), 0)
  }

  lemma BuildingStart(s0: Memory, data: int)
    requires Sound(s0) && s0.free != []
    ensures Building(s0, WithDir(s0), s0.free[0], data, 0)
  {
    hide Sound, Growing, Slack, KernelPages, Zeroes;
    GrowingDir(s0);
    KernelMapEmpty(data);
    SpendsNothing(WithDir(s0), s0.free[0], KernelPages());
  }

  lemma BuildingSound(s0: Memory, s: Memory, d: int, data: int, i: nat)
    requires Building(s0, s, d, data, i) && DataOk(data) && i < 4
    ensures Sound(s) && d in s.flat && s.flat[d] == KernelMap(data, i)
  {
    hide Sound, KernelMap, Spends, KernelPages;
  }

  // One region more, or the frames have run out.
  lemma BuildingStep(s0: Memory, s1: Memory, s2: Memory, d: int, data: int, i: nat, done: nat, ok: bool)
    requires Building(s0, s1, d, data, i) && DataOk(data) && i < 4 && Sound(s0)
    requires var g := Kmap(data)[i];
      && Mapped(s1, s2, d, g.virt / PGSIZE, done, g.start / PGSIZE, g.perm)
      && Spends(s1, s2, d, Range(g.virt / PGSIZE, g.virt / PGSIZE + done), UserPages(g.virt / PGSIZE, done))
      && (if ok then done == (g.virt + RegionSize(g) - 1) / PGSIZE - g.virt / PGSIZE + 1
          else done <= (g.virt + RegionSize(g) - 1) / PGSIZE - g.virt / PGSIZE && s2.free == [])
      && (!ok ==> !Present(Word(s2.mem, d, (g.virt / PGSIZE + done) / NENTRIES)))
    ensures ok ==> Building(s0, s2, d, data, i + 1)
    ensures !ok ==> Growing(s0, s2, d, {}) && Sound(s2) && d in s2.flat && |s0.free| < 1 + KERNEL_TABLES
  {
    hide Sound, Growing, Mapped, MapRange, Kmap, RegionSize, KernelMap, Spends, KernelPages, Slack, Present, Word, WithDir, Range, UserPages;
    var g := Kmap(data)[i];
    RegionVirt(data, i);
    GrowingMapped(s0, s1, s2, d, {}, g.virt / PGSIZE, done, g.start / PGSIZE, g.perm);
    GrowingSound(s0, s2, d, {});
    RegionPages(data, i, done);
    RegionSpends(WithDir(s0), s1, s2, d, g.virt / PGSIZE, done, ok);
    SpaceNothing(s0);
    if ok {
      RegionDone(data, i, s0, s1, s2, d, done);
    }
  }

  lemma RegionVirt(data: int, i: nat)
    requires DataOk(data) && i < 4
    ensures var g := Kmap(data)[i];
      g.virt / PGSIZE >= KERNPAGE && (g.virt + RegionSize(g) - 1) / PGSIZE - g.virt / PGSIZE + 1 == RegionSize(g) / PGSIZE
  {
    RegionSizes(data, i + 1);
  }

  /** setupkvm: an address space with the kernel's mappings, or everything as before, which happens
      exactly when there are not frames for the directory and its 64 page tables. */
  method Setupkvm(k: Kernel, data: int) returns (r: Option<int>)
    requires Sound(k.State()) && DataOk(data)
    modifies k`free, k`mem, k`owner, k`flat
    ensures r == None ==>
      && Sound(k.State()) && k.flat == old(k.flat) && k.owner == old(k.owner) && Kept(old(k.State()), k.State())
      && multiset(k.free) == multiset(old(k.free))
    ensures r.Some? ==>
      && r.value !in old(k.flat) && k.flat == old(k.flat)[r.value := KernelMap(data, 4)]
      && Growing(old(k.State()), k.State(), r.value, {})
    ensures r == None <==> |old(k.free)| < 1 + KERNEL_TABLES
    ensures r.Some? ==> r.value == old(k.free)[0] && Spends(WithDir(old(k.State())), k.State(), r.value, KernelPages(), 0)
  {
    hide Sound, Growing, Kept, Mapped, Building, Without, Kmap, RegionSize, Zeroes, KernelMap, Spends, KernelPages, Present, Word, FrameOf, Flags, Range, UserPages, HeldFor, Junk, Owns;
    ghost var s0 := k.State();
    var d := k.Kalloc();
    if d == None {
      KeptSame(s0);
      return None;
    }
    var pgdir := d.value;
    k.mem := k.mem[pgdir := Zeroes()];
    k.owner, k.flat := k.owner[pgdir := Dir(pgdir)], k.flat[pgdir := map[]];
    assert k.State() == WithDir(s0);
    BuildingStart(s0, data);
    BuildingEnds(s0, k.State(), pgdir, data, 0);
    var i := 0;
    while i < 4
      invariant 0 <= i <= 4 && Building(s0, k.State(), pgdir, data, i)
    {
      ghost var s1 := k.State();
      BuildingSound(s0, s1, pgdir, data, i);
      var g := Kmap(data)[i];
      RegionReady(data, i, s1, pgdir);
      var ok, done := k.Mappages(pgdir, g.virt, RegionSize(g), g.start, g.perm);
      ghost var s2 := k.State();
      BuildingStep(s0, s1, s2, pgdir, data, i, done, ok);
      if !ok {
        k.Freevm(pgdir);
        BuiltAndFreed(s0, s2, k.State(), pgdir);
        return None;
      }
      i := i + 1;
    }
    BuildingEnds(s0, k.State(), pgdir, data, 4);
    r := Some(pgdir);
  }

  lemma SpaceNothing(s: Memory)
    requires Sound(s) && s.free != []
    ensures Slack(WithDir(s), s.free[0], KernelPages()) == |s.free| - 1 - KERNEL_TABLES
  {
    hide Sound, Slack, WithDir;
    SpaceNeeds(s, 0);
    assert KernelPages() + Range(0, 0) == KernelPages();
  }

  // setupkvm has run to its end.
  lemma BuildingEnds(s0: Memory, s: Memory, d: int, data: int, i: nat)
    requires Building(s0, s, d, data, i) && DataOk(data)
    ensures Growing(s0, s, d, {}) && s.flat == s0.flat[d := KernelMap(data, i)] && d !in s0.flat
    ensures s0.free != [] && d == s0.free[0] && Spends(WithDir(s0), s, d, KernelPages(), 0)
    ensures i == 4 ==> |s0.free| >= 1 + KERNEL_TABLES
  {
    hide Sound, KernelMap, Slack, WithDir, Kept, KernelPages;
    if i == 4 {
      assert KernelPages() + Range(0, 0) == KernelPages();
      assert Slack(s, d, KernelPages()) == Slack(WithDir(s0), d, KernelPages()) + 0;
      KernelKeys(data);
      SpaceFits(s0, s, d, 0);
    }
  }

  lemma KeptSame(s: Memory)
    ensures Kept(s, s)
  {
  }

  lemma KernelMapEmpty(data: int)
    ensures KernelMap(data, 0) == map[]
  {
  }

  lemma GrowingSound(s0: Memory, s: Memory, d: int, held: set<int>)
    requires Growing(s0, s, d, held)
    ensures Sound(s) && d in s.flat && Kept(s0, s)
  {
  }

  lemma RegionReady(data: int, i: nat, s: Memory, d: int)
    requires DataOk(data) && i < 4 && d in s.flat && s.flat[d] == KernelMap(data, i)
    ensures var g := Kmap(data)[i];
      && KERNBASE <= g.virt && g.virt % PGSIZE == 0 && RegionSize(g) >= 1 && g.virt + RegionSize(g) <= UINT_LIMIT && 0 <= g.perm < PGSIZE
      && g.start % PGSIZE == 0 && 0 <= g.start && g.start + RegionSize(g) <= UINT_LIMIT && RegionSize(g) % PGSIZE == 0
      && (forall u :: g.virt / PGSIZE <= u <= (g.virt + RegionSize(g) - 1) / PGSIZE ==> u !in s.flat[d])
      && HeldFor(s, g.virt / PGSIZE, (g.virt + RegionSize(g) - 1) / PGSIZE - g.virt / PGSIZE + 1, g.start / PGSIZE)
  {
    hide MapRange, KernelMap;
    var g := Kmap(data)[i];
    forall u | g.virt / PGSIZE <= u ensures u !in s.flat[d] {
      KernelMapBelow(data, i, u);
    }
  }

  lemma RegionDone(data: int, i: nat, s0: Memory, s1: Memory, s2: Memory, d: int, done: nat)
    requires DataOk(data) && i < 4 && s1.flat == s0.flat[d := KernelMap(data, i)]
    requires var g := Kmap(data)[i];
      && Mapped(s1, s2, d, g.virt / PGSIZE, done, g.start / PGSIZE, g.perm)
      && done == (g.virt + RegionSize(g) - 1) / PGSIZE - g.virt / PGSIZE + 1
    ensures s2.flat == s0.flat[d := KernelMap(data, i + 1)]
  {
    hide MapRange, KernelMap, Sound, Kept;
    RegionStep(data, i + 1, 0);
    var g := Kmap(data)[i];
    assert done == RegionSize(g) / PGSIZE;
    assert s2.flat == s1.flat[d := MapRange(s1.flat[d], g.virt / PGSIZE, done, g.start / PGSIZE, g.perm)];
  }

  // ---------------------------------------------------------------- allocuvm

  /** Pages lo..hi of directory d are new in s: zeroed, writable, for the user. */
  ghost predicate Extended(s0: Memory, s: Memory, d: int, lo: int, hi: int) {
    && d in s0.flat && d in s.flat
    && (forall v :: v in s.flat[d] <==> v in s0.flat[d] || lo <= v < hi)
    && (forall v :: v in s0.flat[d] ==> v in s.flat[d] && s.flat[d][v] == s0.flat[d][v])
    && (forall v :: lo <= v < hi ==> Fresh(s0, s, d, v))
  }

  predicate Fresh(s0: Memory, s: Memory, d: int, v: int) {
    d in s.flat && v in s.flat[d] &&
    var f := FrameOf(s.flat[d][v]);
    Flags(s.flat[d][v]) == PTE_W + PTE_U + 1 && f !in s0.owner && Owns(s.owner, f, User(d, v)) && Page(s.mem, f) == Zeroes()
  }

  lemma ExtendedStart(s: Memory, d: int, lo: int)
    requires d in s.flat
    ensures Extended(s, s, d, lo, lo)
  {
  }

  // kalloc, memset and a successful mappages of page v.
  lemma ExtendedStep(s0: Memory, s: Memory, s1: Memory, s': Memory, d: int, lo: int, v: int, f: int)
    requires Growing(s0, s, d, {}) && Extended(s0, s, d, lo, v) && lo <= v < KERNPAGE && v !in s0.flat[d]
    requires s.free != [] && f == s.free[0] && s1 == Taken(s, Zeroes(), Held)
    requires Mapped(s1, s', d, v, 1, f, PTE_W + PTE_U)
    ensures Growing(s0, s', d, {}) && Extended(s0, s', d, lo, v + 1)
  {
    hide Sound, Mapped, Growing, Entry, FrameOf, Flags, Zeroes, Kept, Extended, Fresh;
    GrowingHeld(s0, s, d, Zeroes());
    GrowingOwners(s0, s, d, {});
    GrowingPage(s0, s1, s', d, v, f, PTE_W + PTE_U);
    EntryParts(f, PTE_W + PTE_U);
    ExtendedPage(s0, s, s1, s', d, lo, v, f);
  }

  lemma GrowingOwners(s0: Memory, s: Memory, d: int, held: set<int>)
    requires Growing(s0, s, d, held)
    ensures d in s.flat && forall f :: f in s0.owner ==> Owns(s.owner, f, s0.owner[f])
  {
  }

  lemma ExtendedPage(s0: Memory, s: Memory, s1: Memory, s': Memory, d: int, lo: int, v: int, f: int)
    requires Extended(s0, s, d, lo, v) && lo <= v && v !in s0.flat[d] && f !in s.owner
    requires s1.flat == s.flat && Kept(s, s1) && Kept(s1, s') && Page(s1.mem, f) == Zeroes() && Owns(s1.owner, f, Held)
    requires forall g :: g in s0.owner ==> g in s.owner
    requires forall g :: g in s.owner ==> Owns(s1.owner, g, s.owner[g])
    requires forall g :: g in s1.owner && g != f ==> Owns(s'.owner, g, s1.owner[g])
    requires Owns(s'.owner, f, User(d, v))
    requires Flags(Entry(f, PTE_W + PTE_U)) == PTE_W + PTE_U + 1 && FrameOf(Entry(f, PTE_W + PTE_U)) == f
    requires s'.flat == s1.flat[d := s1.flat[d][v := Entry(f, PTE_W + PTE_U)]]
    ensures Extended(s0, s', d, lo, v + 1)
  {
    hide Entry, FrameOf, Flags, Zeroes;
    forall u | lo <= u < v + 1 ensures Fresh(s0, s', d, u) {
      if u < v {
        assert Fresh(s0, s, d, u);
        var g := FrameOf(s.flat[d][u]);
        assert g in s.owner && s.owner[g].User?;
        assert g in s1.owner && s1.owner[g].User?;
      }
    }
  }

  lemma ExtendedRemoved(s0: Memory, s: Memory, d: int, lo: int, v: int, hi: int)
    requires Extended(s0, s, d, lo, v) && v <= hi && forall u :: lo <= u < hi ==> u !in s0.flat[d]
    ensures Removed(s.flat[d], lo, hi) == s0.flat[d]
  {
    hide Fresh;
    forall u ensures u in Removed(s.flat[d], lo, hi) <==> u in s0.flat[d] {
    }
  }

  // deallocuvm of the new pages undoes them.
  lemma ExtendedUndone(s0: Memory, s: Memory, s': Memory, d: int, lo: int, v: int, hi: int, held: set<int>)
    requires Growing(s0, s, d, held) && d in s0.flat && Extended(s0, s, d, lo, v) && v <= hi
    requires forall u :: lo <= u < hi ==> u !in s0.flat[d]
    requires Shrunk(s, s', d, lo, hi) && Sound(s')
    ensures Restored(s0, s', d, held)
  {
    hide Shape, Refines, Conserved, FrameOf, Fresh, Present;
    ExtendedRemoved(s0, s, d, lo, v, hi);
    assert s'.flat == s0.flat by {
      assert forall e :: e in s0.flat && e != d ==> e in s0.flat - {d} && e in s.flat - {d};
      assert forall e :: e in s.flat && e != d ==> e in s.flat - {d} && e in s0.flat - {d};
    }
    forall f | f in s0.owner ensures Owns(s'.owner, f, s0.owner[f]) {
      assert Owns(s.owner, f, s0.owner[f]);
    }
    forall f | f in s'.owner && f !in s0.owner
      ensures (s'.owner[f].Table? && s'.owner[f].d == d) || (f in held && s'.owner[f] == Held)
    {
      assert Owns(s.owner, f, s'.owner[f]);
      assert Linked(s'.mem, s'.flat, f, s'.owner[f]);
    }
  }

  lemma PageReady(s0: Memory, s: Memory, s1: Memory, d: int, lo: int, v: int, f: int)
    requires Growing(s0, s, d, {}) && Extended(s0, s, d, lo, v) && v !in s0.flat[d] && s.free != [] && f == s.free[0]
    requires s1 == Taken(s, Zeroes(), Held)
    ensures Sound(s1) && d in s1.flat && v !in s1.flat[d] && 0 <= f < NPAGES && HeldFor(s1, v, 1, f) && Owns(s1.owner, f, Held)
    ensures f !in s0.owner && f !in s.owner
  {
    hide Sound, Zeroes, Fresh;
    HoldFrame(s, Zeroes());
    FrameBounds(s1, f);
  }

  lemma FrameBounds(s: Memory, f: int)
    requires Sound(s) && f in s.owner
    ensures 0 < s.first <= f < s.limit <= NPAGES
  {
    hide Trees, Users;
  }

  // Page tables came, but no page.
  lemma ExtendedKept(s0: Memory, s: Memory, s1: Memory, s': Memory, d: int, lo: int, v: int, f: int)
    requires Extended(s0, s, d, lo, v) && f !in s.owner && s1.flat == s.flat && s'.flat == s.flat && Kept(s, s1) && Kept(s1, s')
    requires forall g :: g in s.owner ==> Owns(s1.owner, g, s.owner[g])
    requires forall g :: g in s1.owner ==> Owns(s'.owner, g, s1.owner[g])
    ensures Extended(s0, s', d, lo, v)
  {
    hide FrameOf, Flags, Zeroes;
    forall u | lo <= u < v ensures Fresh(s0, s', d, u) {
      assert Fresh(s0, s, d, u);
      var g := FrameOf(s.flat[d][u]);
      assert g in s.owner && s.owner[g].User?;
      assert g in s1.owner && s1.owner[g].User?;
    }
  }

  lemma TakenOwners(s: Memory, page: seq<int>)
    requires s.free != [] && s.free[0] !in s.owner
    ensures forall g :: g in s.owner ==> Owns(Taken(s, page, Held).owner, g, s.owner[g])
  {
  }

  lemma ShrunkHeld(s: Memory, s': Memory, d: int, lo: int, hi: int, f: int)
    requires Shrunk(s, s', d, lo, hi) && Owns(s.owner, f, Held)
    ensures Owns(s'.owner, f, Held)
  {
  }

  /** allocuvm; the requires on the pages excludes the "remap" panic. Either the new pages are
      there, or nothing changed but for page tables that stay empty: there were not frames for the
      pages and the page tables that the directory lacks. */
  method Allocuvm(k: Kernel, d: int, oldsz: int, newsz: int) returns (r: int)
    requires Sound(k.State()) && d in k.flat && 0 <= oldsz < UINT_LIMIT && 0 <= newsz < UINT_LIMIT
    requires newsz < KERNBASE ==> forall v :: PageCount(oldsz) <= v < PageCount(newsz) ==> v !in k.flat[d]
    modifies k`free, k`mem, k`owner, k`flat
    ensures newsz >= KERNBASE ==> r == 0 && k.State() == old(k.State())
    ensures newsz < oldsz && newsz < KERNBASE ==> r == oldsz && k.State() == old(k.State())
    ensures oldsz <= newsz < KERNBASE ==>
      || (r == newsz && Growing(old(k.State()), k.State(), d, {})
          && Extended(old(k.State()), k.State(), d, PageCount(oldsz), PageCount(newsz)))
      || (r == 0 && Restored(old(k.State()), k.State(), d, {}))
    ensures oldsz <= newsz < KERNBASE ==>
      var lo, hi := PageCount(oldsz), PageCount(newsz);
      (r == newsz <==> hi - lo + |LackTables(old(k.State()), d, Range(lo, hi))| <= |old(k.free)|)
  {
    hide Sound, GrowingTo, Growing, Extended, Restored, Mapped, Shrunk, Kept, Zeroes, Entry, Spends, Present, Word, LackTables, FrameOf, Flags, Range, UserPages, HeldFor, Junk, Owns;
    ghost var s0, lo, hi := k.State(), PageCount(oldsz), PageCount(newsz);
    if newsz >= KERNBASE {
      return 0;
    }
    if newsz < oldsz {
      return oldsz;
    }
    var a := (oldsz + PGSIZE - 1) / PGSIZE * PGSIZE;
    GrowStarts(s0, d, lo, hi);
    while a < newsz
      invariant a % PGSIZE == 0 && lo <= a / PGSIZE <= hi && GrowingTo(s0, k.State(), d, lo, a / PGSIZE, hi)
    {
      ghost var s := k.State();
      ghost var v := a / PGSIZE;
      GrowSound(s0, s, d, lo, v, hi);
      var f := k.Kalloc();
      if f == None {
        GrowStops(s0, s, d, lo, v, hi);
        var _ := k.Deallocuvm(d, newsz, oldsz);
        GrowUndone(s0, s, k.State(), d, lo, v, hi);
        return 0;
      }
      k.mem := k.mem[f.value := Zeroes()];
      k.owner := k.owner[f.value := Held];
      ghost var s1 := k.State();
      GrowReady(s0, s, s1, d, lo, v, hi, f.value);
      var ok, done := k.Mappages(d, a, PGSIZE, f.value * PGSIZE, PTE_W + PTE_U);
      ghost var s2 := k.State();
      if !ok {
        GrowBack(s0, s, s1, s2, d, lo, v, hi, f.value, done);
        var _ := k.Deallocuvm(d, newsz, oldsz);
        GrowGiven(s0, s2, k.State(), d, lo, v, hi, f.value);
        k.Kfree(f.value);
        k.owner := k.owner - {f.value};
        return 0;
      }
      GrowOn(s0, s, s1, s2, d, lo, v, hi, f.value, done);
      a := a + PGSIZE;
    }
    GrowSound(s0, k.State(), d, lo, hi, hi);
    r := newsz;
  }

  /** allocuvm's loop when it comes to page v. */
  ghost predicate GrowingTo(s0: Memory, s: Memory, d: int, lo: int, v: int, hi: int) {
    && Growing(s0, s, d, {}) && Extended(s0, s, d, lo, v) && Spends(s0, s, d, Range(lo, hi), 0)
    && d in s0.flat && 0 <= lo <= v <= hi <= KERNPAGE && forall u :: lo <= u < hi ==> u !in s0.flat[d]
  }

  lemma GrowStarts(s0: Memory, d: int, lo: int, hi: int)
    requires Sound(s0) && d in s0.flat && 0 <= lo <= hi <= KERNPAGE && forall u :: lo <= u < hi ==> u !in s0.flat[d]
    ensures GrowingTo(s0, s0, d, lo, lo, hi)
  {
    hide Sound, Spends, Range, Growing, Extended;
    GrowingSame(s0, d);
    ExtendedStart(s0, d, lo);
    SpendsNothing(s0, d, Range(lo, hi));
  }

  lemma GrowSound(s0: Memory, s: Memory, d: int, lo: int, v: int, hi: int)
    requires GrowingTo(s0, s, d, lo, v, hi)
    ensures Sound(s) && d in s.flat && Growing(s0, s, d, {}) && Extended(s0, s, d, lo, v)
    ensures v == hi ==> hi - lo + |LackTables(s0, d, Range(lo, hi))| <= |s0.free|
  {
    hide Sound, Spends, Range, Fresh, LackTables;
    if v == hi {
      GrowFits(s0, s, d, lo, hi);
    }
  }

  // kalloc found no frame.
  lemma GrowStops(s0: Memory, s: Memory, d: int, lo: int, v: int, hi: int)
    requires GrowingTo(s0, s, d, lo, v, hi) && v < hi && s.free == []
    ensures |s0.free| < hi - lo + |LackTables(s0, d, Range(lo, hi))|
  {
    hide Sound, Growing, Extended, Spends, Range, TooFew, LackTables;
    GrowingSound(s0, s, d, {});
    NextAbsent(s0, s, d, lo, v);
    NoFrame(s, d, v);
    GrowSpends(s0, s, s, d, lo, v, hi, false);
  }

  lemma GrowUndone(s0: Memory, s: Memory, s': Memory, d: int, lo: int, v: int, hi: int)
    requires GrowingTo(s0, s, d, lo, v, hi) && Shrunk(s, s', d, lo, hi) && Sound(s')
    ensures Restored(s0, s', d, {})
  {
    hide Sound, Growing, Extended, Spends, Range, Shrunk, Restored;
    ExtendedUndone(s0, s, s', d, lo, v, hi, {});
  }

  lemma GrowReady(s0: Memory, s: Memory, s1: Memory, d: int, lo: int, v: int, hi: int, f: int)
    requires GrowingTo(s0, s, d, lo, v, hi) && v < hi && s.free != [] && f == s.free[0] && s1 == Taken(s, Zeroes(), Held)
    ensures Sound(s1) && d in s1.flat && v !in s1.flat[d] && 0 <= f < NPAGES && HeldFor(s1, v, 1, f)
  {
    hide Sound, Growing, Extended, Spends, Range, HeldFor, Taken, Zeroes;
    PageReady(s0, s, s1, d, lo, v, f);
  }

  // mappages found no frame for a page table: the page's own frame is still held.
  lemma GrowBack(s0: Memory, s: Memory, s1: Memory, s2: Memory, d: int, lo: int, v: int, hi: int, f: int, done: nat)
    requires GrowingTo(s0, s, d, lo, v, hi) && v < hi && s.free != [] && f == s.free[0] && s1 == Taken(s, Zeroes(), Held)
    requires Mapped(s1, s2, d, v, done, f, PTE_W + PTE_U) && Spends(s1, s2, d, Range(v, v + done), UserPages(v, done)) && done == 0
    requires s2.free == [] && !Present(Word(s2.mem, d, v / NENTRIES))
    ensures |s0.free| < hi - lo + |LackTables(s0, d, Range(lo, hi))|
    ensures Sound(s2) && d in s2.flat && Growing(s0, s2, d, {f}) && Extended(s0, s2, d, lo, v)
    ensures Owns(s2.owner, f, Held) && f !in s0.owner
  {
    hide Sound, Growing, Extended, Mapped, Kept, Zeroes, Spends, Range, TooFew, UserPages, Present, Word, LackTables;
    GrowingSound(s0, s, d, {});
    NextAbsent(s0, s, d, lo, v);
    GrowingHeld(s0, s, d, Zeroes());
    PageReady(s0, s, s1, d, lo, v, f);
    GrowingMapped(s0, s1, s2, d, {f}, v, done, f, PTE_W + PTE_U);
    PageSpends(s, s2, d, v, Zeroes(), false, done);
    GrowSpends(s0, s, s2, d, lo, v, hi, false);
    TakenOwners(s, Zeroes());
    ExtendedKept(s0, s, s1, s2, d, lo, v, f);
    GrowingSound(s0, s2, d, {f});
  }

  // deallocuvm and the page's own frame given back.
  lemma GrowGiven(s0: Memory, s: Memory, s': Memory, d: int, lo: int, v: int, hi: int, f: int)
    requires Growing(s0, s, d, {f}) && Extended(s0, s, d, lo, v) && Owns(s.owner, f, Held) && f !in s0.owner && d in s0.flat
    requires v <= hi && forall u :: lo <= u < hi ==> u !in s0.flat[d]
    requires Shrunk(s, s', d, lo, hi) && Sound(s')
    ensures s'.first <= f < s'.limit && Restored(s0, Given(s', f), d, {})
  {
    hide Sound, Growing, Extended, Shrunk, Restored, Given;
    ExtendedUndone(s0, s, s', d, lo, v, hi, {f});
    ShrunkHeld(s, s', d, lo, hi, f);
    RestoredGiven(s0, s', d, f);
  }

  lemma GrowOn(s0: Memory, s: Memory, s1: Memory, s2: Memory, d: int, lo: int, v: int, hi: int, f: int, done: nat)
    requires GrowingTo(s0, s, d, lo, v, hi) && v < hi && s.free != [] && f == s.free[0] && s1 == Taken(s, Zeroes(), Held)
    requires Mapped(s1, s2, d, v, done, f, PTE_W + PTE_U) && Spends(s1, s2, d, Range(v, v + done), UserPages(v, done)) && done == 1
    ensures GrowingTo(s0, s2, d, lo, v + 1, hi)
  {
    hide Sound, Growing, Extended, Mapped, Kept, Zeroes, Spends, Range, TooFew, UserPages, LackTables, Taken;
    GrowingSound(s0, s, d, {});
    NextAbsent(s0, s, d, lo, v);
    PageSpends(s, s2, d, v, Zeroes(), true, done);
    GrowSpends(s0, s, s2, d, lo, v, hi, true);
    ExtendedStep(s0, s, s1, s2, d, lo, v, f);
  }

  lemma NextAbsent(s0: Memory, s: Memory, d: int, lo: int, v: int)
    requires Extended(s0, s, d, lo, v) && v !in s0.flat[d]
    ensures d in s.flat && v !in s.flat[d]
  {
    hide Fresh;
  }

  // One page of allocuvm: the frames it took were needed, or there are too few of them.
  lemma GrowSpends(s0: Memory, s1: Memory, s2: Memory, d: int, lo: int, v: int, hi: int, ok: bool)
    requires lo <= v < hi <= KERNPAGE && d in s0.flat && forall u :: lo <= u < hi ==> u !in s0.flat[d]
    requires Spends(s0, s1, d, Range(lo, hi), 0)
    requires if ok then Spends(s1, s2, d, {v}, 0) else TooFew(s1, d, v)
    ensures ok ==> Spends(s0, s2, d, Range(lo, hi), 0)
    ensures !ok ==> |s0.free| < hi - lo + |LackTables(s0, d, Range(lo, hi))|
  {
    hide Slack, LackTables;
    if ok {
      SpendsMore(s0, s1, s2, d, Range(lo, hi), Range(lo, hi), {v}, 0, 0);
    } else {
      NewPages(s0, d, lo, hi);
      SpendsAt(s0, s1, d, Range(lo, hi), Range(lo, hi), 0);
    }
  }

  lemma NewPages(s: Memory, d: int, lo: int, hi: int)
    requires d in s.flat && lo <= hi <= KERNPAGE && forall u :: lo <= u < hi ==> u !in s.flat[d]
    ensures Slack(s, d, Range(lo, hi)) == |s.free| - |LackTables(s, d, Range(lo, hi))| - (hi - lo)
  {
    hide LackTables, Range;
    forall v ensures v in LackPages(s, d, Range(lo, hi)) <==> v in Range(lo, hi) {
    }
    assert LackPages(s, d, Range(lo, hi)) == Range(lo, hi);
  }

  lemma GrowFits(s0: Memory, s: Memory, d: int, lo: int, hi: int)
    requires Growing(s0, s, d, {}) && Extended(s0, s, d, lo, hi) && Spends(s0, s, d, Range(lo, hi), 0)
    requires 0 <= lo <= hi <= KERNPAGE && forall u :: lo <= u < hi ==> u !in s0.flat[d]
    ensures hi - lo + |LackTables(s0, d, Range(lo, hi))| <= |s0.free|
  {
    hide Sound, Slack, LackTables, Range, Kept, Fresh;
    NewPages(s0, d, lo, hi);
    SpendsAt(s0, s, d, Range(lo, hi), Range(lo, hi), 0);
    AllMapped(s, d, Range(lo, hi));
  }

  // ---------------------------------------------------------------- copyuvm

  /** The child's page v: the parent's contents and flags, in a frame of its own. */
  predicate SamePage(s0: Memory, s: Memory, p: int, c: int, v: int) {
    p in s0.flat && v in s0.flat[p] && c in s.flat && v in s.flat[c] &&
    var f := FrameOf(s.flat[c][v]);
    && Flags(s.flat[c][v]) == Flags(s0.flat[p][v]) && f !in s0.owner && Owns(s.owner, f, User(c, v))
    && Page(s.mem, f) == Page(s0.mem, FrameOf(s0.flat[p][v]))
  }

  /** Address space c: the kernel's mappings, and copies of pages 0..n of p. */
  ghost predicate Copied(s0: Memory, s: Memory, p: int, c: int, data: int, n: int) {
    && p in s0.flat && c !in s0.flat && c in s.flat
    && (forall v :: v in s.flat[c] <==> v in KernelMap(data, 4) || 0 <= v < n)
    && (forall v :: v in KernelMap(data, 4) ==> v in s.flat[c] && s.flat[c][v] == KernelMap(data, 4)[v])
    && (forall v :: 0 <= v < n ==> SamePage(s0, s, p, c, v))
  }

  lemma CopiedStart(s0: Memory, s: Memory, p: int, c: int, data: int)
    requires p in s0.flat && c !in s0.flat && s.flat == s0.flat[c := KernelMap(data, 4)]
    ensures Copied(s0, s, p, c, data, 0)
  {
    hide KernelMap;
  }

  lemma UserPageAbsent(s0: Memory, s: Memory, p: int, c: int, data: int, v: int)
    requires Copied(s0, s, p, c, data, v) && DataOk(data) && 0 <= v < KERNPAGE
    ensures v !in s.flat[c]
  {
    hide KernelMap;
    KernelMapAt(data, v);
  }

  lemma CopiedPage(s0: Memory, s: Memory, s1: Memory, s': Memory, p: int, c: int, data: int, v: int, f: int, flags: int)
    requires Copied(s0, s, p, c, data, v) && 0 <= v && v in s0.flat[p] && v !in s.flat[c] && f !in s.owner && f !in s0.owner
    requires s1.flat == s.flat && Kept(s, s1) && Kept(s1, s') && Page(s1.mem, f) == Page(s0.mem, FrameOf(s0.flat[p][v]))
    requires Owns(s1.owner, f, Held) && Owns(s'.owner, f, User(c, v))
    requires forall g :: g in s.owner ==> Owns(s1.owner, g, s.owner[g])
    requires forall g :: g in s1.owner && g != f ==> Owns(s'.owner, g, s1.owner[g])
    requires Flags(Entry(f, flags)) == flags == Flags(s0.flat[p][v]) && FrameOf(Entry(f, flags)) == f
    requires s'.flat == s1.flat[c := s1.flat[c][v := Entry(f, flags)]]
    ensures Copied(s0, s', p, c, data, v + 1)
  {
    hide Entry, FrameOf, Flags, KernelMap;
    forall u | 0 <= u < v + 1 ensures SamePage(s0, s', p, c, u) {
      if u < v {
        assert SamePage(s0, s, p, c, u);
        var g := FrameOf(s.flat[c][u]);
        assert g in s.owner && s.owner[g].User?;
        assert g in s1.owner && s1.owner[g].User?;
      }
    }
    forall u | u in KernelMap(data, 4) ensures u != v && s'.flat[c][u] == KernelMap(data, 4)[u] {
      assert u in s.flat[c];
    }
  }

  // The parent's entry as copyuvm reads it, and the page behind it.
  lemma ParentPage(s0: Memory, s: Memory, p: int, c: int, v: int)
    requires Growing(s0, s, c, {}) && c !in s0.flat && p in s0.flat && v in s0.flat[p] && 0 <= v < KERNPAGE
    ensures p in s.flat && p != c && v in s.flat[p] && s.flat[p][v] == s0.flat[p][v] && Present(s0.flat[p][v])
    ensures var f := FrameOf(s0.flat[p][v]);
      f in s.owner && f in s.mem && |s.mem[f]| == NENTRIES && s.mem[f] == Page(s0.mem, f)
  {
    hide Tables, Refines, Conserved, FrameOf, Present;
    assert s.flat[p] == s0.flat[p] by {
      assert p in s0.flat - {c};
      assert (s0.flat - {c})[p] == (s.flat - {c})[p];
    }
    assert PagesOk(s0.flat[p]) by {
      SoundPages(s0, p);
    }
    assert Owns(s0.owner, FrameOf(s0.flat[p][v]), User(p, v));
  }

  lemma SoundPages(s: Memory, d: int)
    requires Sound(s) && d in s.flat
    ensures PagesOk(s.flat[d])
  {
    hide PagesOk, Shape, Tables, Users, Conserved;
  }

  lemma OddFlags(w: int, f: int)
    requires Present(w)
    ensures 0 <= Flags(w) < PGSIZE && Flags(Entry(f, Flags(w))) == Flags(w) && FrameOf(Entry(f, Flags(w))) == f
  {
    hide Entry, FrameOf;
    EntryParts(f, Flags(w));
    OddPart(w);
  }

  lemma OddPart(w: int)
    ensures w % PGSIZE % 2 == w % 2
  {
    var q, r := w / PGSIZE, w % PGSIZE;
    assert w == 2 * (2048 * q + r / 2) + r % 2;
    assert w % 2 == r % 2 by {
      Parity(2048 * q + r / 2, r % 2);
    }
  }

  lemma Parity(n: int, b: int)
    requires 0 <= b < 2
    ensures (2 * n + b) % 2 == b
  {
  }

  lemma CopyReady(s0: Memory, s: Memory, c: int, page: seq<int>, v: int)
    requires Growing(s0, s, c, {}) && s.free != [] && |page| == NENTRIES && v !in s.flat[c]
    ensures var f, s1 := s.free[0], Taken(s, page, Held);
      && Sound(s1) && c in s1.flat && v !in s1.flat[c] && 0 <= f < NPAGES && HeldFor(s1, v, 1, f) && Owns(s1.owner, f, Held)
      && f !in s0.owner && f !in s.owner
  {
    hide Sound;
    HoldFrame(s, page);
    FrameBounds(Taken(s, page, Held), s.free[0]);
  }

  /** copyuvm; the requires on the pages excludes its panics. Either a whole copy, or everything
      as before with every frame back on the free list, which happens exactly when there are too few:
      for the directory, the page tables of the kernel's mappings and of the copy, and a frame a page. */
  method Copyuvm(k: Kernel, p: int, sz: int, data: int) returns (r: Option<int>)
    requires Sound(k.State()) && p in k.flat && 0 <= sz <= KERNBASE && DataOk(data)
    requires forall v :: 0 <= v < PageCount(sz) ==> v in k.flat[p]
    modifies k`free, k`mem, k`owner, k`flat
    ensures r == None ==>
      && Sound(k.State()) && k.flat == old(k.flat) && k.owner == old(k.owner) && Kept(old(k.State()), k.State())
      && multiset(k.free) == multiset(old(k.free))
    ensures r.Some? ==>
      && Growing(old(k.State()), k.State(), r.value, {})
      && Copied(old(k.State()), k.State(), p, r.value, data, PageCount(sz))
    ensures r == None <==> |old(k.free)| < 1 + KERNEL_TABLES + TableCount(PageCount(sz)) + PageCount(sz)
  {
    hide Sound, Growing, Copied, SamePage, Mapped, Kept, Without, Zeroes, FrameOf, Flags, Entry, Present, KernelMap, Spends, TooFew, KernelPages, WithDir, Slack;
    ghost var s0 := k.State();
    var d := Setupkvm(k, data);
    if d == None {
      return None;
    }
    ghost var all := KernelPages() + Range(0, PageCount(sz));
    SpendsWider(WithDir(s0), k.State(), d.value, KernelPages(), all);
    CopiedStart(s0, k.State(), p, d.value, data);
    var i := 0;
    while i < sz
      invariant i % PGSIZE == 0 && 0 <= i / PGSIZE <= PageCount(sz)
      invariant Growing(s0, k.State(), d.value, {}) && Copied(s0, k.State(), p, d.value, data, i / PGSIZE)
      invariant Spends(WithDir(s0), k.State(), d.value, all, 0)
    {
      ghost var s1 := k.State();
      var ok := CopyPage(k, s0, p, d.value, data, i);
      CopySpends(s0, s1, k.State(), d.value, PageCount(sz), i / PGSIZE, ok);
      if !ok {
        ghost var s := k.State();
        GrowingSound(s0, s, d.value, {});
        k.Freevm(d.value);
        CopiedNew(s0, s, p, d.value, data, i / PGSIZE);
        BuiltAndFreed(s0, s, k.State(), d.value);
        return None;
      }
      i := i + PGSIZE;
    }
    CopyFits(s0, k.State(), p, d.value, data, PageCount(sz));
    r := d;
  }

  lemma SpendsWider(s: Memory, s': Memory, d: int, r: set<int>, r': set<int>)
    requires Spends(s, s', d, r, 0) && r <= r'
    ensures Spends(s, s', d, r', 0)
  {
    hide Slack;
  }

  // One page of copyuvm: the frames it took were needed, or there are too few of them.
  lemma CopySpends(s0: Memory, s1: Memory, s2: Memory, d: int, n: int, v: int, ok: bool)
    requires Sound(s0) && s0.free != [] && d == s0.free[0] && 0 <= v < n <= KERNPAGE
    requires Spends(WithDir(s0), s1, d, KernelPages() + Range(0, n), 0)
    requires if ok then Spends(s1, s2, d, {v}, 0) else TooFew(s1, d, v)
    ensures ok ==> Spends(WithDir(s0), s2, d, KernelPages() + Range(0, n), 0)
    ensures !ok ==> |s0.free| < 1 + KERNEL_TABLES + TableCount(n) + n
  {
    hide Sound, WithDir, KernelPages, Slack, TableCount;
    var all := KernelPages() + Range(0, n);
    assert v in all;
    if ok {
      SpendsMore(WithDir(s0), s1, s2, d, all, all, {v}, 0, 0);
    } else {
      SpaceNeeds(s0, n);
      SpendsAt(WithDir(s0), s1, d, all, all, 0);
    }
  }

  lemma CopyFits(s0: Memory, s: Memory, p: int, d: int, data: int, n: int)
    requires Growing(s0, s, d, {}) && Copied(s0, s, p, d, data, n) && DataOk(data) && s0.free != [] && d == s0.free[0]
    requires Spends(WithDir(s0), s, d, KernelPages() + Range(0, n), 0) && 0 <= n <= KERNPAGE
    ensures |s0.free| >= 1 + KERNEL_TABLES + TableCount(n) + n
  {
    hide Sound, WithDir, KernelPages, Slack, TableCount, SamePage, Kept, KernelMap;
    KernelKeys(data);
    SpendsAt(WithDir(s0), s, d, KernelPages() + Range(0, n), KernelPages() + Range(0, n), 0);
    SpaceFits(s0, s, d, n);
  }

  lemma CopiedNew(s0: Memory, s: Memory, p: int, c: int, data: int, n: int)
    requires Copied(s0, s, p, c, data, n)
    ensures c !in s0.flat && p in s0.flat && c in s.flat
  {
  }

  /** One page of copyuvm; on failure it keeps no frame but page tables of the child. */
  method CopyPage(k: Kernel, ghost s0: Memory, p: int, d: int, data: int, i: int) returns (ok: bool)
    requires DataOk(data) && i % PGSIZE == 0 && 0 <= i / PGSIZE < KERNPAGE
    requires Growing(s0, k.State(), d, {}) && Copied(s0, k.State(), p, d, data, i / PGSIZE)
    requires p in s0.flat && i / PGSIZE in s0.flat[p]
    modifies k`free, k`mem, k`owner, k`flat
    ensures Growing(s0, k.State(), d, {})
    ensures Copied(s0, k.State(), p, d, data, i / PGSIZE + if ok then 1 else 0)
    ensures ok ==> Spends(old(k.State()), k.State(), d, {i / PGSIZE}, 0)
    ensures !ok ==> TooFew(old(k.State()), d, i / PGSIZE)
  {
    hide Sound, Growing, Copied, Mapped, Kept, Zeroes, FrameOf, Flags, Entry, Present, Spends, TooFew, Word, Range, UserPages, HeldFor, Junk;
    ghost var s, v := k.State(), i / PGSIZE;
    CopyStarts(s0, s, p, d, data, v);
    var pte := k.Walkpgdir(p, i, false);
    ParentFound(s, p, v, pte);
    assert pte.Some?;                                           // no "pte should exist" panic
    var w := k.mem[pte.value.t][pte.value.i];
    assert w == s0.flat[p][v] && Present(w);                    // no "page not present" panic
    var f := k.Kalloc();
    if f == None {
      NoFrame(s, d, v);
      return false;
    }
    k.mem := k.mem[f.value := k.mem[FrameOf(w)]];
    k.owner := k.owner[f.value := Held];
    ghost var s1 := k.State();
    CopyHolds(s0, s, s1, p, d, data, v, f.value, w);
    ghost var done;
    ok, done := k.Mappages(d, i, PGSIZE, f.value * PGSIZE, Flags(w));
    ghost var s2 := k.State();
    if !ok {
      CopyBack(s0, s, s1, s2, p, d, data, v, f.value, w, done);
      k.Kfree(f.value);
      k.owner := k.owner - {f.value};
    } else {
      CopyOn(s0, s, s1, s2, p, d, data, v, f.value, w, done);
    }
  }

  // What copyuvm finds of the parent and the child when it comes to page v.
  lemma CopyStarts(s0: Memory, s: Memory, p: int, d: int, data: int, v: int)
    requires DataOk(data) && 0 <= v < KERNPAGE && Growing(s0, s, d, {}) && Copied(s0, s, p, d, data, v)
    requires p in s0.flat && v in s0.flat[p]
    ensures Sound(s) && d in s.flat && v !in s.flat[d] && p in s.flat && v in s.flat[p] && s.flat[p][v] == s0.flat[p][v]
    ensures var w := s0.flat[p][v];
      Present(w) && FrameOf(w) in s.mem && |s.mem[FrameOf(w)]| == NENTRIES && s.mem[FrameOf(w)] == Page(s0.mem, FrameOf(w))
  {
    hide Sound, Growing, Copied, FrameOf, Present, KernelMap;
    GrowingSound(s0, s, d, {});
    CopiedNew(s0, s, p, d, data, v);
    ParentPage(s0, s, p, d, v);
    UserPageAbsent(s0, s, p, d, data, v);
  }

  lemma CopyHolds(s0: Memory, s: Memory, s1: Memory, p: int, d: int, data: int, v: int, f: int, w: int)
    requires DataOk(data) && 0 <= v < KERNPAGE && Growing(s0, s, d, {}) && Copied(s0, s, p, d, data, v)
    requires p in s0.flat && v in s0.flat[p] && w == s0.flat[p][v]
    requires s.free != [] && f == s.free[0] && FrameOf(w) in s.mem && s1 == Taken(s, s.mem[FrameOf(w)], Held)
    ensures Sound(s1) && d in s1.flat && v !in s1.flat[d] && 0 <= f < NPAGES && HeldFor(s1, v, 1, f) && 0 <= Flags(w) < PGSIZE
    ensures Growing(s0, s1, d, {f}) && Kept(s, s1) && s1.flat == s.flat && f !in s0.owner && f !in s.owner
    ensures Owns(s1.owner, f, Held) && forall g :: g in s.owner ==> Owns(s1.owner, g, s.owner[g])
    ensures Page(s1.mem, f) == Page(s0.mem, FrameOf(w))
  {
    hide Sound, Growing, Copied, FrameOf, Present, Kept, HeldFor, Flags, Entry;
    CopyStarts(s0, s, p, d, data, v);
    OddFlags(w, f);
    GrowingHeld(s0, s, d, s.mem[FrameOf(w)]);
    CopyReady(s0, s, d, s.mem[FrameOf(w)], v);
    TakenOwners(s, s.mem[FrameOf(w)]);
  }

  lemma CopyBack(s0: Memory, s: Memory, s1: Memory, s2: Memory, p: int, d: int, data: int, v: int, f: int, w: int, done: nat)
    requires DataOk(data) && 0 <= v < KERNPAGE && Growing(s0, s, d, {}) && Copied(s0, s, p, d, data, v)
    requires p in s0.flat && v in s0.flat[p] && w == s0.flat[p][v]
    requires s.free != [] && f == s.free[0] && FrameOf(w) in s.mem && s1 == Taken(s, s.mem[FrameOf(w)], Held)
    requires Mapped(s1, s2, d, v, done, f, Flags(w)) && Spends(s1, s2, d, Range(v, v + done), UserPages(v, done)) && done == 0
    requires s2.free == [] && !Present(Word(s2.mem, d, v / NENTRIES))
    ensures s2.first <= f < s2.limit && Growing(s0, Given(s2, f), d, {}) && Copied(s0, Given(s2, f), p, d, data, v)
    ensures TooFew(s, d, v)
  {
    hide Sound, Growing, Copied, FrameOf, Present, Kept, HeldFor, Flags, Mapped, Spends, Range, UserPages, TooFew, Word, Given;
    CopyStarts(s0, s, p, d, data, v);
    CopyHolds(s0, s, s1, p, d, data, v, f, w);
    GrowingMapped(s0, s1, s2, d, {f}, v, done, f, Flags(w));
    GrowingGiven(s0, s2, d, f);
    CopiedKept(s0, s, s1, s2, p, d, data, v, f);
    PageSpends(s, s2, d, v, s.mem[FrameOf(w)], false, done);
  }

  lemma CopyOn(s0: Memory, s: Memory, s1: Memory, s2: Memory, p: int, d: int, data: int, v: int, f: int, w: int, done: nat)
    requires DataOk(data) && 0 <= v < KERNPAGE && Growing(s0, s, d, {}) && Copied(s0, s, p, d, data, v)
    requires p in s0.flat && v in s0.flat[p] && w == s0.flat[p][v]
    requires s.free != [] && f == s.free[0] && FrameOf(w) in s.mem && s1 == Taken(s, s.mem[FrameOf(w)], Held)
    requires Mapped(s1, s2, d, v, done, f, Flags(w)) && Spends(s1, s2, d, Range(v, v + done), UserPages(v, done)) && done == 1
    ensures Growing(s0, s2, d, {}) && Copied(s0, s2, p, d, data, v + 1) && Spends(s, s2, d, {v}, 0)
  {
    hide Sound, Growing, Copied, FrameOf, Present, Kept, HeldFor, Flags, Mapped, Spends, Range, UserPages, TooFew, Entry;
    CopyStarts(s0, s, p, d, data, v);
    CopyHolds(s0, s, s1, p, d, data, v, f, w);
    OddFlags(w, f);
    GrowingPage(s0, s1, s2, d, v, f, Flags(w));
    CopiedPage(s0, s, s1, s2, p, d, data, v, f, Flags(w));
    PageSpends(s, s2, d, v, s.mem[FrameOf(w)], true, done);
  }

  lemma ParentFound(s: Memory, p: int, v: int, pte: Option<Pte>)
    requires Walked(s, s, p, v * PGSIZE, false, pte) && 0 <= v < NPAGES && p in s.flat && v in s.flat[p]
    ensures pte.Some? && pte.value.t in s.mem && 0 <= pte.value.i < |s.mem[pte.value.t]|
    ensures s.mem[pte.value.t][pte.value.i] == s.flat[p][v]
  {
    hide Sound, Word, Present;
    assert v * PGSIZE / PGSIZE == v;
    if pte == None {
      NothingFound(s, p, v / NENTRIES, v);
    } else {
      FoundEntry(s, p, v, pte.value.t);
    }
  }

  lemma CopiedKept(s0: Memory, s: Memory, s1: Memory, s2: Memory, p: int, c: int, data: int, v: int, f: int)
    requires Copied(s0, s, p, c, data, v) && f !in s.owner && s1.flat == s.flat && s2.flat == s.flat && Kept(s, s1) && Kept(s1, s2)
    requires forall g :: g in s.owner ==> Owns(s1.owner, g, s.owner[g])
    requires forall g :: g in s1.owner ==> Owns(s2.owner, g, s1.owner[g])
    ensures Copied(s0, Given(s2, f), p, c, data, v)
  {
    hide FrameOf, Flags, KernelMap, Junk;
    var s' := Given(s2, f);
    forall u | 0 <= u < v ensures SamePage(s0, s', p, c, u) {
      assert SamePage(s0, s, p, c, u);
      var g := FrameOf(s.flat[c][u]);
      assert g in s.owner && s.owner[g].User?;
      assert g in s1.owner && s1.owner[g].User?;
    }
  }
}
