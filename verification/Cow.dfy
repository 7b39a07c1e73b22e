/** Copy-on-write fork (vm.c, trap.c, kalloc.c of p5) as a machine whose steps are the
    pieces the kernel runs under its locks, against a machine whose fork copies at once. */
module Cow {

  const NPROC: nat := 64
  const CHAR_MAX: nat := 127                 // the largest ref_count
  const USER_PAGES: nat := 0x8_0000          // KERNBASE / PGSIZE
  const NPTENTRIES: nat := 1024

  datatype Option<T> = None | Some(value: T)

  datatype Page = Page(bytes: seq<int>)

  const ZERO_PAGE: Page := Page([0])         // stands for a page of zeroes
  const JUNK_PAGE: Page := Page([1])         // what kfree fills a page with

  /** A present entry; absent entries are absent from the map. */
  datatype Pte = Pte(frame: nat, w: bool, u: bool, cow: bool)

  /** An entry of process `pid`: user page `vpn` below USER_PAGES, above it the directory. */
  datatype Va = Va(pid: nat, vpn: nat)

  /** The directory entry for the page table that covers user page vpn. */
  function DirSlot(a: Va): Va {
    Va(a.pid, USER_PAGES + a.vpn / NPTENTRIES)
  }

  /** The frame of the directory itself. */
  function RootSlot(pid: nat): Va {
    Va(pid, USER_PAGES + NPTENTRIES)
  }

  /** copyuvm has reached page `next`. */
  datatype Fork = Fork(parent: nat, next: nat)

  datatype Vm = Vm(free: seq<nat>, refs: map<nat, int>, mem: map<nat, Page>, ptes: map<Va, Pte>,
                   procs: set<nat>, forking: map<nat, Fork>, failures: nat)

  function Ref(vm: Vm, f: nat): int {
    if f in vm.refs then vm.refs[f] else 0
  }

  function Content(vm: Vm, f: nat): Page {
    if f in vm.mem then vm.mem[f] else JUNK_PAGE
  }

  /** Storing n into a signed char, as ref_count does. */
  function AsChar(n: int): int {
    (n + 128) % 256 - 128
  }

  /** The entries that name frame f. */
  ghost function Mappings(vm: Vm, f: nat): set<Va> {
    set a | a in vm.ptes && vm.ptes[a].frame == f
  }

  // ---------------------------------------------------------------- kalloc and kfree

  function Kalloc(vm: Vm): Option<(Vm, nat)> {
    if vm.free == [] then None
    else
      var f := vm.free[0];
      Some((vm.(free := vm.free[1..], refs := vm.refs[f := 1], mem := vm.mem[f := ZERO_PAGE]), f))
  }

  /** None stands for the "kfree: ref_count underflow" panic. */
  function Kfree(vm: Vm, f: nat): Option<Vm> {
    if Ref(vm, f) < 0 then None
    else if Ref(vm, f) == 0 then Some(vm.(free := [f] + vm.free, mem := vm.mem[f := JUNK_PAGE]))
    else
      var less := vm.(refs := vm.refs[f := Ref(vm, f) - 1]);
      if Ref(vm, f) == 1 then Some(less.(free := [f] + vm.free, mem := vm.mem[f := JUNK_PAGE]))
      else Some(less)
  }

  // ---------------------------------------------------------------- the invariant

  ghost predicate FreeOk(vm: Vm) {
    && (forall i, j :: 0 <= i < j < |vm.free| ==> vm.free[i] != vm.free[j])
    && (forall f :: f in vm.free ==> Ref(vm, f) == 0 && Mappings(vm, f) == {})
  }

  /** A frame is shared only at one user page number, and never while an entry can write it. */
  predicate SharingOk(vm: Vm) {
    && (forall a :: a in vm.ptes && a.vpn >= USER_PAGES ==> vm.ptes[a].w)
    && (forall a, b :: a in vm.ptes && b in vm.ptes && a != b && vm.ptes[a].frame == vm.ptes[b].frame ==>
          a.vpn == b.vpn && !vm.ptes[a].w)
  }

  /** Not counting k references to frame f that are about to become entries, the counts
      cover the entries and exceed them by no more than the failed forks. */
  ghost predicate CountsBut(vm: Vm, f: nat, k: nat) {
    forall g :: |Mappings(vm, g)| <= Ref(vm, g) - (if g == f then k else 0) <= |Mappings(vm, g)| + vm.failures
  }

  ghost predicate CountsOk(vm: Vm) {
    CountsBut(vm, 0, 0)
  }

  predicate ForksOk(vm: Vm) {
    && |vm.procs| <= NPROC
    && (forall a :: a in vm.ptes ==> a.pid in vm.procs)
    && (forall c :: c in vm.forking ==> (
          c in vm.procs && vm.forking[c].parent in vm.procs && vm.forking[c].parent !in vm.forking))
    && (forall a :: a in vm.ptes && a.pid in vm.forking && a.vpn < USER_PAGES ==> a.vpn < vm.forking[a.pid].next)
  }

  ghost predicate Safe(vm: Vm) {
    FreeOk(vm) && SharingOk(vm) && CountsOk(vm) && ForksOk(vm)
  }

  // ---------------------------------------------------------------- the pieces of the kernel's operations

  /** A fresh frame holding `data` is entered writable at a: a page of allocuvm, a page table of walkpgdir. */
  function MapFresh(vm: Vm, a: Va, data: Page): Option<Vm> {
    match Kalloc(vm)
    case None => None
    case Some((v, f)) => Some(v.(ptes := v.ptes[a := Pte(f, true, true, false)], mem := v.mem[f := data]))
  }

  /** One iteration of deallocuvm or of freevm's loop, on a present entry. */
  function Unmap(vm: Vm, a: Va): Option<Vm>
    requires a in vm.ptes
  {
    match Kfree(vm, vm.ptes[a].frame)
    case None => None
    case Some(v) => Some(v.(ptes := v.ptes - {a}))
  }

  function MarkCow(p: Pte): Pte {
    p.(w := false, cow := true)
  }

  /** copyuvm on a present page of the parent: count it, protect the parent's entry. */
  function CountShared(vm: Vm, a: Va): Vm
    requires a in vm.ptes
  {
    var p := vm.ptes[a];
    vm.(refs := vm.refs[p.frame := AsChar(Ref(vm, p.frame) + 1)],
        ptes := vm.ptes[a := if p.w then MarkCow(p) else p])
  }

  /** The copy-on-write branch of the page-fault handler. */
  function CowCopy(vm: Vm, a: Va): Option<Vm>
    requires a in vm.ptes
  {
    var f := vm.ptes[a].frame;
    match Kalloc(vm)
    case None => None
    case Some((v, n)) =>
      Some(v.(mem := v.mem[n := Content(v, f)],
              refs := v.refs[f := AsChar(Ref(v, f) - 1)],
              ptes := v.ptes[a := Pte(n, true, true, false)]))
  }

  // ---------------------------------------------------------------- each piece keeps the invariant

  // The mappings of a frame after one entry was set.
  lemma MappingsSet(vm: Vm, v: Vm, a: Va, p: Pte, g: nat)
    requires v.ptes == vm.ptes[a := p]
    ensures Mappings(v, g) == if p.frame == g then Mappings(vm, g) + {a} else Mappings(vm, g) - {a}
  {
  }

  lemma MappingsRemove(vm: Vm, v: Vm, a: Va, g: nat)
    requires v.ptes == vm.ptes - {a}
    ensures Mappings(v, g) == Mappings(vm, g) - {a}
  {
  }

  // Setting entry a to p keeps sharing in order if p agrees with the other entries of its frame.
  lemma SharingSet(vm: Vm, v: Vm, a: Va, p: Pte)
    requires SharingOk(vm) && v.ptes == vm.ptes[a := p]
    requires a.vpn >= USER_PAGES ==> p.w
    requires forall b :: b in vm.ptes && b != a && vm.ptes[b].frame == p.frame ==>
      a.vpn == b.vpn && !p.w && !vm.ptes[b].w
    ensures SharingOk(v)
  {
  }

  lemma SharingRemove(vm: Vm, v: Vm, a: Va)
    requires SharingOk(vm) && v.ptes == vm.ptes - {a}
    ensures SharingOk(v)
  {
  }

  lemma FreshFrame(vm: Vm)
    requires FreeOk(vm) && vm.free != []
    ensures forall b :: b in vm.ptes ==> vm.ptes[b].frame != vm.free[0]
    ensures vm.free[0] !in vm.free[1..]
    ensures Mappings(vm, vm.free[0]) == {}
    ensures Ref(vm, vm.free[0]) == 0
  {
    var f := vm.free[0];
    assert f in vm.free;
    forall b | b in vm.ptes ensures vm.ptes[b].frame != f {
      assert b in Mappings(vm, vm.ptes[b].frame);
    }
  }

  // The pool after its first frame went to entry a, whose old frame keeps its other mappings.
  lemma FreeTaken(vm: Vm, v: Vm, a: Va, p: Pte)
    requires FreeOk(vm) && vm.free != [] && v.free == vm.free[1..]
    requires v.ptes == vm.ptes[a := p] && p.frame == vm.free[0]
    requires forall g :: g in v.free ==> Ref(v, g) == Ref(vm, g)
    ensures FreeOk(v)
  {
    FreshFrame(vm);
    forall g | g in v.free ensures Ref(v, g) == 0 && Mappings(v, g) == {} {
      assert g in vm.free && g != p.frame;
      MappingsSet(vm, v, a, p, g);
    }
  }

  lemma MapFreshCounts(vm: Vm, a: Va, data: Page, f: nat, k: nat)
    requires FreeOk(vm) && CountsBut(vm, f, k) && vm.free != [] && a !in vm.ptes
    requires k != 0 ==> f != vm.free[0]
    ensures CountsBut(MapFresh(vm, a, data).value, f, k)
  {
    var v := MapFresh(vm, a, data).value;
    FreshFrame(vm);
    hide FreeOk;
    forall g
      ensures |Mappings(v, g)| <= Ref(v, g) - (if g == f then k else 0) <= |Mappings(v, g)| + v.failures
    {
      MappingsSet(vm, v, a, v.ptes[a], g);
      assert a !in Mappings(vm, g);
      assert |Mappings(vm, g)| <= Ref(vm, g) - (if g == f then k else 0) <= |Mappings(vm, g)| + vm.failures;
    }
  }

  lemma MapFreshSafe(vm: Vm, a: Va, data: Page)
    requires Safe(vm) && MapFresh(vm, a, data).Some? && a !in vm.ptes && a.pid in vm.procs
    requires a.pid in vm.forking && a.vpn < USER_PAGES ==> a.vpn < vm.forking[a.pid].next
    ensures Safe(MapFresh(vm, a, data).value)
  {
    hide FreeOk, CountsBut, SharingOk;
    var v := MapFresh(vm, a, data).value;
    FreshFrame(vm);
    FreeTaken(vm, v, a, v.ptes[a]);
    SharingSet(vm, v, a, v.ptes[a]);
    MapFreshCounts(vm, a, data, 0, 0);
  }

  lemma CowCopyCounts(vm: Vm, a: Va)
    requires FreeOk(vm) && CountsOk(vm) && vm.free != [] && a in vm.ptes
    requires Ref(vm, vm.ptes[a].frame) <= CHAR_MAX
    ensures CountsOk(CowCopy(vm, a).value)
  {
    var v := CowCopy(vm, a).value;
    FreshFrame(vm);
    hide FreeOk;
    forall g ensures |Mappings(v, g)| <= Ref(v, g) <= |Mappings(v, g)| + v.failures {
      MappingsSet(vm, v, a, v.ptes[a], g);
      assert a in Mappings(vm, g) <==> g == vm.ptes[a].frame;
      assert |Mappings(vm, g)| <= Ref(vm, g) <= |Mappings(vm, g)| + vm.failures;
    }
  }

  lemma CowCopySafe(vm: Vm, a: Va)
    requires Safe(vm) && a in vm.ptes && CowCopy(vm, a).Some? && Ref(vm, vm.ptes[a].frame) <= CHAR_MAX
    ensures Safe(CowCopy(vm, a).value)
  {
    hide FreeOk, CountsBut, SharingOk;
    var v := CowCopy(vm, a).value;
    FreshFrame(vm);
    assert FreeOk(v) by {
      NotFree(vm, a);
      FreeTaken(vm, v, a, v.ptes[a]);
    }
    SharingSet(vm, v, a, v.ptes[a]);
    CowCopyCounts(vm, a);
  }

  lemma NotFree(vm: Vm, a: Va)
    requires FreeOk(vm) && a in vm.ptes
    ensures vm.ptes[a].frame !in vm.free
  {
    assert a in Mappings(vm, vm.ptes[a].frame);
  }

  // ---- unmapping

  lemma UnmapRuns(vm: Vm, a: Va)
    requires CountsOk(vm) && a in vm.ptes
    ensures Ref(vm, vm.ptes[a].frame) >= 1 && Unmap(vm, a).Some?
    ensures Ref(vm, vm.ptes[a].frame) == 1 ==> Mappings(vm, vm.ptes[a].frame) == {a}
  {
    var f := vm.ptes[a].frame;
    assert a in Mappings(vm, f);
    assert |Mappings(vm, f)| <= Ref(vm, f) - 0;
    if Ref(vm, f) == 1 {
      assert |Mappings(vm, f) - {a}| == 0;
    }
  }

  lemma UnmapFree(vm: Vm, a: Va)
    requires FreeOk(vm) && CountsOk(vm) && a in vm.ptes
    ensures Unmap(vm, a).Some? && FreeOk(Unmap(vm, a).value)
  {
    UnmapRuns(vm, a);
    NotFree(vm, a);
    hide CountsOk, CountsBut;
    var v, f := Unmap(vm, a).value, vm.ptes[a].frame;
    forall g | g in v.free ensures Ref(v, g) == 0 && Mappings(v, g) == {} {
      MappingsRemove(vm, v, a, g);
      assert g == f || g in vm.free;
    }
  }

  lemma UnmapCounts(vm: Vm, a: Va)
    requires CountsOk(vm) && a in vm.ptes
    ensures Unmap(vm, a).Some? && CountsOk(Unmap(vm, a).value)
  {
    UnmapRuns(vm, a);
    var v, f := Unmap(vm, a).value, vm.ptes[a].frame;
    forall g ensures |Mappings(v, g)| <= Ref(v, g) <= |Mappings(v, g)| + v.failures {
      MappingsRemove(vm, v, a, g);
      assert a in Mappings(vm, g) <==> g == f;
      assert |Mappings(vm, g)| <= Ref(vm, g) - 0 <= |Mappings(vm, g)| + vm.failures;
    }
  }

  lemma UnmapSafe(vm: Vm, a: Va)
    requires Safe(vm) && a in vm.ptes
    ensures Unmap(vm, a).Some? && Safe(Unmap(vm, a).value)
  {
    hide FreeOk, CountsOk, SharingOk;
    UnmapFree(vm, a);
    UnmapCounts(vm, a);
    SharingRemove(vm, Unmap(vm, a).value, a);
  }

  // ---- one page of a fork

  datatype Shared = Shared(vm: Vm, ok: bool)

  /** One iteration of copyuvm: the page at which the fork of `child` stands. On failure
      the child keeps what it has so far, and freevm's unmapping follows. */
  function ForkPage(vm: Vm, child: nat): Shared
    requires child in vm.forking
  {
    var Fork(parent, next) := vm.forking[child];
    var a, b := Va(parent, next), Va(child, next);
    var on := vm.forking[child := Fork(parent, next + 1)];
    if a !in vm.ptes then Shared(vm.(forking := on), true)
    else
      var counted := CountShared(vm, a);
      var entry := MarkCow(vm.ptes[a]);
      match (if DirSlot(b) in vm.ptes then Some(counted) else MapFresh(counted, DirSlot(b), ZERO_PAGE))
      case None => Shared(counted.(forking := vm.forking - {child}, failures := vm.failures + 1), false)
      case Some(v) => Shared(v.(ptes := v.ptes[b := entry], forking := on), true)
  }

  lemma CountSharedFree(vm: Vm, a: Va)
    requires FreeOk(vm) && a in vm.ptes
    ensures FreeOk(CountShared(vm, a))
    ensures vm.ptes[a].frame !in vm.free
  {
    var v := CountShared(vm, a);
    NotFree(vm, a);
    forall g | g in v.free ensures Ref(v, g) == 0 && Mappings(v, g) == {} {
      MappingsSet(vm, v, a, v.ptes[a], g);
    }
  }

  lemma CountSharedCounts(vm: Vm, a: Va)
    requires CountsOk(vm) && a in vm.ptes && Ref(vm, vm.ptes[a].frame) < CHAR_MAX
    ensures CountsBut(CountShared(vm, a), vm.ptes[a].frame, 1)
  {
    var v, f := CountShared(vm, a), vm.ptes[a].frame;
    forall g
      ensures |Mappings(v, g)| <= Ref(v, g) - (if g == f then 1 else 0) <= |Mappings(v, g)| + v.failures
    {
      MappingsSet(vm, v, a, v.ptes[a], g);
      assert a in Mappings(vm, g) <==> g == f;
      assert |Mappings(vm, g)| <= Ref(vm, g) - 0 <= |Mappings(vm, g)| + vm.failures;
    }
  }

  lemma ShareCounts(vm: Vm, v: Vm, b: Va, p: Pte)
    requires CountsBut(vm, p.frame, 1) && b !in vm.ptes
    requires v.ptes == vm.ptes[b := p] && v.refs == vm.refs && v.failures == vm.failures
    ensures CountsOk(v)
  {
    forall g ensures |Mappings(v, g)| <= Ref(v, g) <= |Mappings(v, g)| + v.failures {
      MappingsSet(vm, v, b, p, g);
      assert b !in Mappings(vm, g);
      assert |Mappings(vm, g)| <= Ref(vm, g) - (if g == p.frame then 1 else 0) <= |Mappings(vm, g)| + vm.failures;
    }
  }

  lemma CountSharedSharing(vm: Vm, a: Va)
    requires SharingOk(vm) && a in vm.ptes && a.vpn < USER_PAGES
    ensures SharingOk(CountShared(vm, a))
    ensures forall b :: b in vm.ptes && vm.ptes[b].frame == vm.ptes[a].frame ==> 
      b.vpn == a.vpn && !CountShared(vm, a).ptes[b].w
  {
    SharingSet(vm, CountShared(vm, a), a, CountShared(vm, a).ptes[a]);
  }

  lemma FreeSet(vm: Vm, v: Vm, b: Va, p: Pte)
    requires FreeOk(vm) && p.frame !in vm.free
    requires v.ptes == vm.ptes[b := p] && v.refs == vm.refs && v.free == vm.free
    ensures FreeOk(v)
  {
    forall g | g in v.free ensures Ref(v, g) == 0 && Mappings(v, g) == {} {
      MappingsSet(vm, v, b, p, g);
    }
  }

  lemma {:induction false} AtOnePage(s: set<Va>, pids: set<nat>, vpn: nat)
    requires forall a :: a in s ==> a.pid in pids && a.vpn == vpn
    ensures |s| <= |pids|
  {
    if s != {} {
      var a :| a in s;
      AtOnePage(s - {a}, pids - {a.pid}, vpn);
    }
  }

  /** A frame has at most one entry per process. */
  lemma MappingsBound(vm: Vm, f: nat, pids: set<nat>)
    requires SharingOk(vm) && ForksOk(vm)
    requires forall a :: a in Mappings(vm, f) ==> a.pid in pids
    ensures |Mappings(vm, f)| <= |pids|
  {
    if Mappings(vm, f) != {} {
      var a :| a in Mappings(vm, f);
      forall b | b in Mappings(vm, f) ensures b.vpn == a.vpn {
      }
      AtOnePage(Mappings(vm, f), pids, a.vpn);
    }
  }

  /** While few forks failed, a count never leaves the range of a signed char. */
  lemma CountInRange(vm: Vm, f: nat)
    requires Safe(vm)
    ensures Ref(vm, f) <= NPROC + vm.failures
  {
    hide FreeOk, SharingOk;
    assert |Mappings(vm, f)| <= NPROC by {
      MappingsBound(vm, f, vm.procs);
    }
    assert Ref(vm, f) - 0 <= |Mappings(vm, f)| + vm.failures;
  }

  lemma ForkPageCountInRange(vm: Vm, child: nat)
    requires Safe(vm) && child in vm.forking
    requires var Fork(parent, next) := vm.forking[child]; Va(parent, next) in vm.ptes && next < USER_PAGES
    ensures var Fork(parent, next) := vm.forking[child];
      Ref(vm, vm.ptes[Va(parent, next)].frame) < NPROC + vm.failures
  {
    hide FreeOk;
    var Fork(parent, next) := vm.forking[child];
    var f := vm.ptes[Va(parent, next)].frame;
    assert |Mappings(vm, f)| <= |vm.procs - {child}| by {
      hide CountsOk;
      forall a | a in Mappings(vm, f) ensures a.pid in vm.procs - {child} {
        assert a.vpn == next;
      }
      MappingsBound(vm, f, vm.procs - {child});
    }
    assert |vm.procs - {child}| == |vm.procs| - 1;
    hide SharingOk;
    assert Ref(vm, f) - 0 <= |Mappings(vm, f)| + vm.failures;
  }

  // The last statement of an iteration: the child's entry joins those of its frame.
  lemma ShareSafe(vm: Vm, b: Va, p: Pte, on: map<nat, Fork>)
    requires FreeOk(vm) && SharingOk(vm) && CountsBut(vm, p.frame, 1)
    requires Shareable(vm, p.frame, b.vpn) && !p.w && b !in vm.ptes && b.vpn < USER_PAGES
    ensures var v := vm.(ptes := vm.ptes[b := p], forking := on);
      FreeOk(v) && SharingOk(v) && CountsOk(v)
  {
    hide FreeOk, SharingOk, CountsBut;
    var v := vm.(ptes := vm.ptes[b := p], forking := on);
    FreeSet(vm, v, b, p);
    SharingSet(vm, v, b, p);
    ShareCounts(vm, v, b, p);
  }

  // What holds after the parent's entry was counted, and still after a table was taken.
  predicate Shareable(vm: Vm, f: nat, vpn: nat) {
    && f !in vm.free
    && (forall c :: c in vm.ptes && vm.ptes[c].frame == f ==> c.vpn == vpn && !vm.ptes[c].w)
  }

  lemma CountSharedSafe(vm: Vm, a: Va)
    requires Safe(vm) && a in vm.ptes && a.vpn < USER_PAGES && Ref(vm, vm.ptes[a].frame) < CHAR_MAX
    ensures var v := CountShared(vm, a);
      && FreeOk(v) && SharingOk(v) && ForksOk(v)
      && CountsBut(v, vm.ptes[a].frame, 1)
      && Shareable(v, vm.ptes[a].frame, a.vpn)
  {
    hide FreeOk, SharingOk, CountsBut;
    CountSharedFree(vm, a);
    CountSharedCounts(vm, a);
    CountSharedSharing(vm, a);
    var v, f := CountShared(vm, a), vm.ptes[a].frame;
    forall c | c in v.ptes && v.ptes[c].frame == f ensures c.vpn == a.vpn && !v.ptes[c].w {
      assert c in vm.ptes && vm.ptes[c].frame == f;
    }
  }

  lemma TableDuringFork(vm: Vm, d: Va, f: nat, vpn: nat)
    requires FreeOk(vm) && SharingOk(vm) && CountsBut(vm, f, 1) && Shareable(vm, f, vpn)
    requires d !in vm.ptes && d.vpn >= USER_PAGES && vm.free != []
    ensures var v := MapFresh(vm, d, ZERO_PAGE).value;
      FreeOk(v) && SharingOk(v) && CountsBut(v, f, 1) && Shareable(v, f, vpn)
  {
    hide FreeOk, SharingOk, CountsBut;
    var v := MapFresh(vm, d, ZERO_PAGE).value;
    FreshFrame(vm);
    assert vm.free[0] in vm.free;
    FreeTaken(vm, v, d, v.ptes[d]);
    SharingSet(vm, v, d, v.ptes[d]);
    MapFreshCounts(vm, d, ZERO_PAGE, f, 1);
  }

  lemma ForkPageForks(vm: Vm, child: nat)
    requires ForksOk(vm) && child in vm.forking
    ensures ForksOk(ForkPage(vm, child).vm)
  {
    hide MarkCow, Ref, AsChar;
  }

  lemma ForkPageEntry(vm: Vm, child: nat)
    requires Safe(vm) && child in vm.forking && vm.forking[child].next < USER_PAGES
    requires Va(vm.forking[child].parent, vm.forking[child].next) in vm.ptes
    requires Ref(vm, vm.ptes[Va(vm.forking[child].parent, vm.forking[child].next)].frame) < CHAR_MAX
    ensures var v := ForkPage(vm, child).vm;
      FreeOk(v) && SharingOk(v) && CountsOk(v)
  {
    hide FreeOk, SharingOk, CountsBut;
    var Fork(parent, next) := vm.forking[child];
    var a, b := Va(parent, next), Va(child, next);
    var v := ForkPage(vm, child).vm;
    CountSharedSafe(vm, a);
    var counted, f := CountShared(vm, a), vm.ptes[a].frame;
    assert b !in counted.ptes && DirSlot(b) != b && DirSlot(b) != a;
    assert DirSlot(b) in counted.ptes <==> DirSlot(b) in vm.ptes;
    hide ForksOk, CountShared, Ref, Shareable;
    if DirSlot(b) in vm.ptes {
      ShareSafe(counted, b, MarkCow(vm.ptes[a]), v.forking);
    } else if counted.free != [] {
      TableDuringFork(counted, DirSlot(b), f, next);
      ShareSafe(MapFresh(counted, DirSlot(b), ZERO_PAGE).value, b, MarkCow(vm.ptes[a]), v.forking);
    } else {
      AbandonedSafe(counted, v, f);
    }
  }

  lemma ForkPageSafe(vm: Vm, child: nat)
    requires Safe(vm) && child in vm.forking && vm.forking[child].next < USER_PAGES
    requires Va(vm.forking[child].parent, vm.forking[child].next) in vm.ptes ==>
      Ref(vm, vm.ptes[Va(vm.forking[child].parent, vm.forking[child].next)].frame) < CHAR_MAX
    ensures Safe(ForkPage(vm, child).vm)
  {
    hide FreeOk, SharingOk, CountsBut, ForksOk;
    ForkPageForks(vm, child);
    if Va(vm.forking[child].parent, vm.forking[child].next) in vm.ptes {
      ForkPageEntry(vm, child);
    } else {
      OnlyForking(vm, ForkPage(vm, child).vm);
    }
  }

  lemma AbandonedSafe(vm: Vm, v: Vm, f: nat)
    requires FreeOk(vm) && SharingOk(vm) && CountsBut(vm, f, 1)
    requires v == vm.(forking := v.forking, failures := vm.failures + 1)
    ensures FreeOk(v) && SharingOk(v) && CountsOk(v)
  {
    forall g ensures Mappings(v, g) == Mappings(vm, g) && Ref(v, g) == Ref(vm, g) {
    }
    forall g ensures |Mappings(v, g)| <= Ref(v, g) <= |Mappings(v, g)| + v.failures {
      assert |Mappings(vm, g)| <= Ref(vm, g) - (if g == f then 1 else 0) <= |Mappings(vm, g)| + vm.failures;
    }
  }

  // Bookkeeping that touches neither entries nor counts.
  lemma OnlyForking(vm: Vm, v: Vm)
    requires FreeOk(vm) && SharingOk(vm) && CountsOk(vm)
    requires v == vm.(forking := v.forking, procs := v.procs, mem := v.mem)
    ensures FreeOk(v) && SharingOk(v) && CountsOk(v)
  {
    forall g ensures Mappings(v, g) == Mappings(vm, g) && Ref(v, g) == Ref(vm, g) {
    }
    forall g ensures |Mappings(v, g)| <= Ref(v, g) - 0 <= |Mappings(v, g)| + v.failures {
      assert |Mappings(vm, g)| <= Ref(vm, g) - 0 <= |Mappings(vm, g)| + vm.failures;
    }
  }

  /** The signed count is exactly what limits sharing: one more reference to a counted
      frame is safe if and only if its count was below CHAR_MAX. */
  lemma ForkPageExact(vm: Vm, child: nat)
    requires Safe(vm) && child in vm.forking && vm.forking[child].next < USER_PAGES
    requires Va(vm.forking[child].parent, vm.forking[child].next) in vm.ptes
    ensures var a := Va(vm.forking[child].parent, vm.forking[child].next);
      var f := vm.ptes[a].frame;
      && (Ref(vm, f) <= CHAR_MAX ==> (Safe(ForkPage(vm, child).vm) <==> Ref(vm, f) < CHAR_MAX))
      && (Ref(vm, f) == CHAR_MAX ==> Unmap(ForkPage(vm, child).vm, a).None?)
  {
    var Fork(parent, next) := vm.forking[child];
    var f := vm.ptes[Va(parent, next)].frame;
    if Ref(vm, f) < CHAR_MAX {
      ForkPageSafe(vm, child);
    } else if Ref(vm, f) == CHAR_MAX {
      NotFree(vm, Va(parent, next));
      var v := ForkPage(vm, child).vm;
      assert Ref(v, f) == -128;
      assert !(|Mappings(v, f)| <= Ref(v, f) - 0);
    }
  }
}
