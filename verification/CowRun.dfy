/** Interleavings of forks, writes, faults and teardowns, run beside a machine in which
    fork copies every page at once, as the eager copyuvm does. */
module CowRun {
  import opened Cow

  datatype Step =
    | BeginFork(parent: nat, child: nat)   // the child's directory
    | CopyPage(child: nat)                 // one iteration of copyuvm
    | EndFork(child: nat)
    | Write(a: Va, data: Page)             // a store the hardware permits
    | Fault(a: Va)                         // a store it does not, on a copy-on-write page
    | Grow(a: Va, data: Page)              // allocuvm, or a page of a mapping filled lazily
    | Table(a: Va)                         // a page table for the directory
    | Drop(a: Va)                          // one entry of deallocuvm or freevm
    | Reap(pid: nat)                       // the process slot is free again

  /** pid runs: it is neither inside fork nor being made by one. */
  predicate Runs(vm: Vm, pid: nat) {
    pid !in vm.forking && forall c :: c in vm.forking ==> vm.forking[c].parent != pid
  }

  predicate Can(vm: Vm, s: Step) {
    match s
    case BeginFork(parent, child) =>
      parent in vm.procs && Runs(vm, parent) && child !in vm.procs && |vm.procs| < NPROC
    case CopyPage(child) =>
      child in vm.forking && vm.forking[child].next < USER_PAGES
    case EndFork(child) => child in vm.forking && vm.forking[child].next == USER_PAGES
    case Write(a, _) => a in vm.ptes && a.vpn < USER_PAGES && vm.ptes[a].w && Runs(vm, a.pid)
    case Fault(a) =>
      a in vm.ptes && a.vpn < USER_PAGES && vm.ptes[a].cow && Runs(vm, a.pid)
    case Grow(a, _) =>
      a.vpn < USER_PAGES && a !in vm.ptes && a.pid in vm.procs && DirSlot(a) in vm.ptes && Runs(vm, a.pid)
    case Table(a) => a.vpn >= USER_PAGES && a !in vm.ptes && a.pid in vm.procs
    case Drop(a) =>
      a in vm.ptes && Runs(vm, a.pid) &&
      (a.vpn >= USER_PAGES ==> forall b :: b in vm.ptes && b.pid == a.pid ==> b.vpn >= USER_PAGES)
    case Reap(pid) => Runs(vm, pid) && forall b :: b in vm.ptes ==> b.pid != pid
  }

  function OrSame(r: Option<Vm>, vm: Vm): Vm {
    match r
    case None => vm
    case Some(v) => v
  }

  function Enrolled(vm: Vm, parent: nat, child: nat): Vm {
    vm.(procs := vm.procs + {child}, forking := vm.forking[child := Fork(parent, 0)])
  }

  /** None stands for a kernel panic; running out of frames leaves the state as it was. */
  function Do(vm: Vm, s: Step): Option<Vm>
    requires Can(vm, s)
  {
    match s
    case BeginFork(parent, child) =>
      Some(OrSame(MapFresh(Enrolled(vm, parent, child), RootSlot(child), ZERO_PAGE), vm))
    case CopyPage(child) => Some(ForkPage(vm, child).vm)
    case EndFork(child) => Some(vm.(forking := vm.forking - {child}))
    case Write(a, data) => Some(vm.(mem := vm.mem[vm.ptes[a].frame := data]))
    case Fault(a) => Some(OrSame(CowCopy(vm, a), vm))
    case Grow(a, data) => Some(OrSame(MapFresh(vm, a, data), vm))
    case Table(a) => Some(OrSame(MapFresh(vm, a, ZERO_PAGE), vm))
    case Drop(a) => Unmap(vm, a)
    case Reap(pid) => Some(vm.(procs := vm.procs - {pid}))
  }

  // ---------------------------------------------------------------- the range of a signed char

  /** The page of the parent that the fork of child comes to next. */
  function NextPage(vm: Vm, child: nat): Va
    requires child in vm.forking
  {
    Va(vm.forking[child].parent, vm.forking[child].next)
  }

  /** copyuvm counts one more reference to a frame that has as many as a signed char holds. */
  predicate Overflows(vm: Vm, s: Step)
    requires Can(vm, s)
  {
    s.CopyPage? && NextPage(vm, s.child) in vm.ptes && Ref(vm, vm.ptes[NextPage(vm, s.child)].frame) == CHAR_MAX
  }

  ghost predicate InRange(vm: Vm) {
    forall f :: Ref(vm, f) <= CHAR_MAX
  }

  /** Whatever the kernel does, a count is a signed char. */
  lemma RangeStep(vm: Vm, s: Step)
    requires InRange(vm) && Can(vm, s) && Do(vm, s).Some?
    ensures InRange(Do(vm, s).value)
  {
    hide Content, DirSlot, RootSlot, MarkCow, Runs;
    var v := Do(vm, s).value;
    forall f ensures Ref(v, f) <= CHAR_MAX {
      assert Ref(vm, f) <= CHAR_MAX;
    }
  }

  // ---------------------------------------------------------------- safety of every step

  lemma StepSafe(vm: Vm, s: Step)
    requires Safe(vm) && InRange(vm) && Can(vm, s) && !Overflows(vm, s)
    ensures Do(vm, s).Some? && Safe(Do(vm, s).value) && InRange(Do(vm, s).value)
  {
    StepStaysSafe(vm, s);
    hide Safe, InRange, Do, Can;
    RangeStep(vm, s);
  }

  lemma StepStaysSafe(vm: Vm, s: Step)
    requires Safe(vm) && InRange(vm) && Can(vm, s) && !Overflows(vm, s)
    ensures Do(vm, s).Some? && Safe(Do(vm, s).value)
  {
    match s
    case BeginFork(parent, child) => BeginForkSafe(vm, parent, child);
    case CopyPage(child) =>
      var a := NextPage(vm, child);
      assert a in vm.ptes ==> Ref(vm, vm.ptes[a].frame) <= CHAR_MAX;
      ForkPageSafe(vm, child);
    case Fault(a) =>
      if CowCopy(vm, a).Some? {
        CowCopySafe(vm, a);
      }
    case Grow(a, data) =>
      if MapFresh(vm, a, data).Some? {
        MapFreshSafe(vm, a, data);
      }
    case Table(a) =>
      if MapFresh(vm, a, ZERO_PAGE).Some? {
        MapFreshSafe(vm, a, ZERO_PAGE);
      }
    case Drop(a) => UnmapSafe(vm, a);
    case EndFork(child) => BookkeepingSafe(vm, s);
    case Write(a, _) => BookkeepingSafe(vm, s);
    case Reap(pid) => BookkeepingSafe(vm, s);
  }

  lemma BookkeepingSafe(vm: Vm, s: Step)
    requires Safe(vm) && Can(vm, s) && (s.EndFork? || s.Write? || s.Reap?)
    ensures Safe(Do(vm, s).value)
  {
    hide FreeOk, SharingOk, CountsOk;
    OnlyForking(vm, Do(vm, s).value);
    if s.Reap? {
      assert |vm.procs - {s.pid}| <= |vm.procs|;
    }
  }

  lemma BeginForkSafe(vm: Vm, parent: nat, child: nat)
    requires Safe(vm) && Can(vm, BeginFork(parent, child))
    ensures Safe(Do(vm, BeginFork(parent, child)).value)
  {
    hide FreeOk, SharingOk, CountsOk;
    var e := Enrolled(vm, parent, child);
    OnlyForking(vm, e);
    assert ForksOk(e);
    if MapFresh(e, RootSlot(child), ZERO_PAGE).Some? {
      MapFreshSafe(e, RootSlot(child), ZERO_PAGE);
    }
  }

  // ---------------------------------------------------------------- the eager machine

  /** Contents of every user page of every process. */
  type Eager = imap<Va, Page>

  /** fork in the eager machine: all of the parent's pages, at once. */
  ghost function CopyAll(m: Eager, parent: nat, child: nat): Eager {
    m + imap b: Va | b.pid == child && Va(parent, b.vpn) in m :: m[Va(parent, b.vpn)]
  }

  /** A fork that fails at page next leaves its child without the pages from there on. */
  ghost function Abandon(m: Eager, child: nat, next: nat): Eager {
    imap a | a in m && !(a.pid == child && a.vpn >= next) :: m[a]
  }

  ghost function EagerDo(vm: Vm, m: Eager, s: Step): Eager
    requires Can(vm, s)
  {
    match s
    case BeginFork(parent, child) => if vm.free == [] then m else CopyAll(m, parent, child)
    case CopyPage(child) =>
      if ForkPage(vm, child).ok then m else Abandon(m, child, vm.forking[child].next)
    case Write(a, data) => m[a := data]
    case Grow(a, data) => if vm.free == [] then m else m[a := data]
    case Drop(a) => m - {a}
    case _ => m
  }

  /** Page a belongs to a child whose fork has not reached it yet. */
  predicate Pending(vm: Vm, a: Va) {
    && a.pid in vm.forking
    && vm.forking[a.pid].next <= a.vpn
    && Va(vm.forking[a.pid].parent, a.vpn) in vm.ptes
  }

  /** Mapped pages have their eager contents. */
  ghost predicate MappedOk(vm: Vm, m: Eager) {
    forall a :: a in vm.ptes && a.vpn < USER_PAGES ==> a in m && m[a] == Content(vm, vm.ptes[a].frame)
  }

  /** The eager machine has no other pages than the mapped and the pending ones. */
  ghost predicate KeysOk(vm: Vm, m: Eager) {
    forall a :: a in m ==> a.vpn < USER_PAGES && (a in vm.ptes || Pending(vm, a))
  }

  /** Pending pages are still equal to the parent's. */
  ghost predicate PendingOk(vm: Vm, m: Eager) {
    forall a: Va :: a.vpn < USER_PAGES && Pending(vm, a) ==>
      a in m && ParentPage(vm, a) in m && m[a] == m[ParentPage(vm, a)]
  }

  function ParentPage(vm: Vm, a: Va): Va {
    if a.pid in vm.forking then Va(vm.forking[a.pid].parent, a.vpn) else a
  }

  ghost predicate Refines(vm: Vm, m: Eager) {
    MappedOk(vm, m) && KeysOk(vm, m) && PendingOk(vm, m)
  }

  // ---------------------------------------------------------------- every step refines its eager step

  lemma FreshContent(vm: Vm, a: Va, data: Page)
    requires FreeOk(vm) && vm.free != []
    ensures var v := MapFresh(vm, a, data).value;
      && (forall b :: b in vm.ptes ==> Content(v, vm.ptes[b].frame) == Content(vm, vm.ptes[b].frame))
      && Content(v, vm.free[0]) == data
  {
    FreshFrame(vm);
  }

  // A step that adds, drops or rewrites page a and no other page of either machine.
  lemma ShapeKept(vm: Vm, v: Vm, m: Eager, m': Eager, a: Va)
    requires KeysOk(vm, m) && PendingOk(vm, m) && v.forking == vm.forking
    requires Runs(vm, a.pid) || a.vpn >= USER_PAGES
    requires forall b :: b != a && b.vpn < USER_PAGES ==> (b in v.ptes <==> b in vm.ptes)
    requires forall b :: b != a ==> (b in m' <==> b in m)
    requires forall b :: b != a && b in m ==> m'[b] == m[b]
    requires a in m' ==> a.vpn < USER_PAGES && a in v.ptes
    ensures KeysOk(v, m') && PendingOk(v, m')
  {
    forall b: Va | b.vpn < USER_PAGES && Pending(v, b)
      ensures b in m' && ParentPage(v, b) in m' && m'[b] == m'[ParentPage(v, b)]
    {
      assert Pending(vm, b);
    }
    forall b | b in m' ensures b.vpn < USER_PAGES && (b in v.ptes || Pending(v, b)) {
      assert b == a || b in vm.ptes || Pending(vm, b);
    }
  }

  lemma WriteRefines(vm: Vm, m: Eager, a: Va, data: Page)
    requires SharingOk(vm) && Refines(vm, m) && Can(vm, Write(a, data))
    ensures Refines(Do(vm, Write(a, data)).value, m[a := data])
  {
    var v, m' := Do(vm, Write(a, data)).value, m[a := data];
    assert MappedOk(v, m') by {
      forall b | b in v.ptes && b.vpn < USER_PAGES
        ensures b in m' && m'[b] == Content(v, v.ptes[b].frame)
      {
        if b != a {
          assert vm.ptes[b].frame != vm.ptes[a].frame;
        }
      }
    }
    hide MappedOk, KeysOk, PendingOk, SharingOk;
    ShapeKept(vm, v, m, m', a);
  }

  lemma FaultRefines(vm: Vm, m: Eager, a: Va)
    requires FreeOk(vm) && Refines(vm, m) && Can(vm, Fault(a)) && vm.free != []
    ensures Refines(CowCopy(vm, a).value, m)
  {
    var v := CowCopy(vm, a).value;
    FreshFrame(vm);
    hide FreeOk;
    assert MappedOk(v, m);
    assert a in m;
    hide MappedOk, KeysOk, PendingOk, Content;
    ShapeKept(vm, v, m, m, a);
  }

  lemma GrowMapped(vm: Vm, m: Eager, a: Va, data: Page)
    requires FreeOk(vm) && MappedOk(vm, m) && a !in vm.ptes && vm.free != []
    ensures MappedOk(MapFresh(vm, a, data).value, m[a := data])
  {
    FreshContent(vm, a, data);
    hide FreeOk, Content;
  }

  lemma GrowRefines(vm: Vm, m: Eager, a: Va, data: Page)
    requires FreeOk(vm) && Refines(vm, m) && Can(vm, Grow(a, data)) && vm.free != []
    ensures Refines(MapFresh(vm, a, data).value, m[a := data])
  {
    var v, m' := MapFresh(vm, a, data).value, m[a := data];
    FreshContent(vm, a, data);
    GrowMapped(vm, m, a, data);
    hide MappedOk, KeysOk, PendingOk, Content, FreeOk;
    ShapeKept(vm, v, m, m', a);
  }

  lemma TableRefines(vm: Vm, m: Eager, a: Va)
    requires FreeOk(vm) && Refines(vm, m) && a.vpn >= USER_PAGES && a !in vm.ptes && vm.free != []
    ensures Refines(MapFresh(vm, a, ZERO_PAGE).value, m)
  {
    var v := MapFresh(vm, a, ZERO_PAGE).value;
    FreshContent(vm, a, ZERO_PAGE);
    hide FreeOk;
    assert MappedOk(v, m);
    hide MappedOk, PendingOk, Content;
    assert a !in m;
    ShapeKept(vm, v, m, m, a);
  }

  lemma DropRefines(vm: Vm, m: Eager, a: Va)
    requires CountsOk(vm) && Refines(vm, m) && Can(vm, Drop(a))
    ensures Unmap(vm, a).Some? && Refines(Unmap(vm, a).value, m - {a})
  {
    UnmapRuns(vm, a);
    hide CountsOk, CountsBut;
    var v, m' := Unmap(vm, a).value, m - {a};
    assert MappedOk(v, m') by {
      forall b | b in v.ptes && b.vpn < USER_PAGES
        ensures b in m' && m'[b] == Content(v, v.ptes[b].frame)
      {
        if vm.ptes[b].frame == vm.ptes[a].frame {
          assert b in Mappings(vm, vm.ptes[a].frame);
        }
      }
    }
    hide MappedOk, KeysOk, PendingOk, Content, Mappings;
    ShapeKept(vm, v, m, m', a);
  }

  lemma CopyAllAt(m: Eager, parent: nat, child: nat)
    requires forall a :: a in m ==> a.pid != child
    ensures var m' := CopyAll(m, parent, child);
      && (forall a :: a in m ==> a in m' && m'[a] == m[a])
      && (forall a :: a in m' && a !in m ==> a.pid == child && Va(parent, a.vpn) in m && m'[a] == m[Va(parent, a.vpn)])
      && (forall a :: a in m && a.pid == parent ==> Va(child, a.vpn) in m')
  {
  }

  lemma EagerPids(vm: Vm, m: Eager, pid: nat)
    requires ForksOk(vm) && KeysOk(vm, m) && pid !in vm.procs
    ensures forall a :: a in m ==> a.pid != pid
  {
    forall a | a in m ensures a.pid != pid {
      assert a in vm.ptes || Pending(vm, a);
    }
  }

  lemma BeginForkMapped(vm: Vm, m: Eager, parent: nat, child: nat)
    requires FreeOk(vm) && ForksOk(vm) && MappedOk(vm, m) && KeysOk(vm, m)
    requires Can(vm, BeginFork(parent, child)) && vm.free != []
    ensures MappedOk(Do(vm, BeginFork(parent, child)).value, CopyAll(m, parent, child))
  {
    FreshContent(vm, RootSlot(child), ZERO_PAGE);
    EagerPids(vm, m, child);
    CopyAllAt(m, parent, child);
    hide FreeOk, CopyAll, KeysOk;
  }

  lemma BeginForkKeys(vm: Vm, m: Eager, parent: nat, child: nat)
    requires ForksOk(vm) && KeysOk(vm, m) && Can(vm, BeginFork(parent, child)) && vm.free != []
    ensures KeysOk(Do(vm, BeginFork(parent, child)).value, CopyAll(m, parent, child))
  {
    var v, m' := Do(vm, BeginFork(parent, child)).value, CopyAll(m, parent, child);
    EagerPids(vm, m, child);
    CopyAllAt(m, parent, child);
    hide CopyAll, ForksOk;
    forall a | a in m' ensures a.vpn < USER_PAGES && (a in v.ptes || Pending(v, a)) {
      if a in m {
        assert a in vm.ptes || Pending(vm, a);
      } else {
        assert Va(parent, a.vpn) in m;
      }
    }
  }

  lemma BeginForkPending(vm: Vm, m: Eager, parent: nat, child: nat)
    requires ForksOk(vm) && Refines(vm, m) && Can(vm, BeginFork(parent, child)) && vm.free != []
    ensures PendingOk(Do(vm, BeginFork(parent, child)).value, CopyAll(m, parent, child))
  {
    var v, m' := Do(vm, BeginFork(parent, child)).value, CopyAll(m, parent, child);
    EagerPids(vm, m, child);
    CopyAllAt(m, parent, child);
    hide CopyAll, KeysOk;
    forall a: Va | a.vpn < USER_PAGES && Pending(v, a)
      ensures a in m' && ParentPage(v, a) in m' && m'[a] == m'[ParentPage(v, a)]
    {
      if a.pid == child {
        assert Va(parent, a.vpn) in m;
        assert a !in m;
      } else {
        assert Pending(vm, a);
      }
    }
  }

  lemma BeginForkRefines(vm: Vm, m: Eager, parent: nat, child: nat)
    requires FreeOk(vm) && ForksOk(vm) && Refines(vm, m) && Can(vm, BeginFork(parent, child)) && vm.free != []
    ensures Refines(Do(vm, BeginFork(parent, child)).value, CopyAll(m, parent, child))
  {
    hide FreeOk, ForksOk, MappedOk, KeysOk, PendingOk, CopyAll;
    BeginForkMapped(vm, m, parent, child);
    BeginForkKeys(vm, m, parent, child);
    BeginForkPending(vm, m, parent, child);
  }

  // What one iteration of copyuvm does to the user entries and the contents under them.
  ghost predicate PageCopied(vm: Vm, v: Vm, a: Va, b: Va) {
    && (forall c :: c in vm.ptes && c.vpn < USER_PAGES ==>
          c in v.ptes && Content(v, v.ptes[c].frame) == Content(vm, vm.ptes[c].frame))
    && (forall c :: c in v.ptes && c.vpn < USER_PAGES && c != b ==> c in vm.ptes)
    && (b in v.ptes ==> a in vm.ptes && Content(v, v.ptes[b].frame) == Content(vm, vm.ptes[a].frame))
  }

  lemma CountSharedContents(vm: Vm, a: Va)
    requires a in vm.ptes
    ensures var v := CountShared(vm, a);
      && v.ptes.Keys == vm.ptes.Keys
      && (forall c :: c in vm.ptes ==> v.ptes[c].frame == vm.ptes[c].frame)
      && v.mem == vm.mem && v.free == vm.free
  {
  }

  lemma TableContents(vm: Vm, d: Va)
    requires FreeOk(vm) && vm.free != [] && d !in vm.ptes && d.vpn >= USER_PAGES
    ensures var v := MapFresh(vm, d, ZERO_PAGE).value;
      && v.ptes.Keys == vm.ptes.Keys + {d}
      && (forall c :: c in vm.ptes ==> v.ptes[c] == vm.ptes[c])
      && (forall c :: c in vm.ptes ==> Content(v, vm.ptes[c].frame) == Content(vm, vm.ptes[c].frame))
  {
    FreshContent(vm, d, ZERO_PAGE);
  }

  // Which entries and which forks there are after an iteration for `child`.
  predicate PageShape(vm: Vm, v: Vm, child: nat, ok: bool)
    requires child in vm.forking
  {
    var Fork(parent, next) := vm.forking[child];
    var a, b := Va(parent, next), Va(child, next);
    && (ok ==> (b in v.ptes <==> a in vm.ptes) && v.forking == vm.forking[child := Fork(parent, next + 1)])
    && (!ok ==> b !in v.ptes && v.forking == vm.forking - {child})
  }

  lemma ForkPageShape(vm: Vm, child: nat)
    requires Can(vm, CopyPage(child)) && Va(child, vm.forking[child].next) !in vm.ptes
    ensures PageShape(vm, ForkPage(vm, child).vm, child, ForkPage(vm, child).ok)
  {
    hide Content, Ref, AsChar, MarkCow;
  }

  // w has the contents of vm, and its frame under entry `a`; the entry is copied to b.
  lemma EntryContents(vm: Vm, w: Vm, a: Va, b: Va, entry: Pte, on: map<nat, Fork>)
    requires a in vm.ptes && entry.frame == vm.ptes[a].frame && a.vpn < USER_PAGES
    requires PageCopied(vm, w, a, b) && b !in vm.ptes && a in w.ptes && w.ptes[a].frame == vm.ptes[a].frame
    ensures PageCopied(vm, w.(ptes := w.ptes[b := entry], forking := on), a, b)
  {
  }

  lemma TableCopied(vm: Vm, w: Vm, a: Va, b: Va)
    requires FreeOk(w) && w.free != [] && DirSlot(b) !in w.ptes
    requires PageCopied(vm, w, a, b) && a in w.ptes && b !in w.ptes && b.vpn < USER_PAGES
    ensures var v := MapFresh(w, DirSlot(b), ZERO_PAGE).value;
      PageCopied(vm, v, a, b) && a in v.ptes && v.ptes[a] == w.ptes[a]
  {
    TableContents(w, DirSlot(b));
    hide FreeOk, MapFresh, Content;
  }

  lemma NextUnmapped(vm: Vm, child: nat)
    requires ForksOk(vm) && Can(vm, CopyPage(child))
    ensures Va(child, vm.forking[child].next) !in vm.ptes
  {
  }

  lemma ForkPageContents(vm: Vm, child: nat)
    requires Safe(vm) && Can(vm, CopyPage(child))
    ensures Va(child, vm.forking[child].next) !in vm.ptes
    ensures PageCopied(vm, ForkPage(vm, child).vm, Va(vm.forking[child].parent, vm.forking[child].next),
                       Va(child, vm.forking[child].next))
  {
    hide SharingOk, CountsBut, ForksOk, Runs;
    var Fork(parent, next) := vm.forking[child];
    var a, b := Va(parent, next), Va(child, next);
    var v := ForkPage(vm, child).vm;
    NextUnmapped(vm, child);
    if a in vm.ptes {
      var counted, d := CountShared(vm, a), DirSlot(b);
      CountSharedContents(vm, a);
      CountSharedFree(vm, a);
      hide CountShared, FreeOk;
      assert PageCopied(vm, counted, a, b);
      if d in vm.ptes {
        hide PageCopied;
        EntryContents(vm, counted, a, b, MarkCow(vm.ptes[a]), v.forking);
      } else if counted.free != [] {
        TableCopied(vm, counted, a, b);
        hide PageCopied;
        EntryContents(vm, MapFresh(counted, d, ZERO_PAGE).value, a, b, MarkCow(vm.ptes[a]), v.forking);
      }
    }
  }

  lemma CopyPageMapped(vm: Vm, v: Vm, m: Eager, child: nat, ok: bool)
    requires child in vm.forking && vm.forking[child].next < USER_PAGES && Refines(vm, m) && ForksOk(vm)
    requires PageShape(vm, v, child, ok)
    requires PageCopied(vm, v, Va(vm.forking[child].parent, vm.forking[child].next), Va(child, vm.forking[child].next))
    ensures MappedOk(v, if ok then m else Abandon(m, child, vm.forking[child].next))
  {
    hide KeysOk, Content;
    var Fork(parent, next) := vm.forking[child];
    assert Va(parent, next) in vm.ptes ==> Pending(vm, Va(child, next));
  }

  lemma CopyPageKeys(vm: Vm, v: Vm, m: Eager, child: nat, ok: bool)
    requires child in vm.forking && KeysOk(vm, m)
    requires PageShape(vm, v, child, ok)
    requires PageCopied(vm, v, Va(vm.forking[child].parent, vm.forking[child].next), Va(child, vm.forking[child].next))
    ensures KeysOk(v, if ok then m else Abandon(m, child, vm.forking[child].next))
  {
    hide Content;
    var m' := if ok then m else Abandon(m, child, vm.forking[child].next);
    forall c | c in m' ensures c.vpn < USER_PAGES && (c in v.ptes || Pending(v, c)) {
      assert c in vm.ptes || Pending(vm, c);
    }
  }

  lemma CopyPagePending(vm: Vm, v: Vm, m: Eager, child: nat, ok: bool)
    requires child in vm.forking && vm.forking[child].parent !in vm.forking && PendingOk(vm, m)
    requires PageShape(vm, v, child, ok)
    requires forall c: Va :: c.vpn < USER_PAGES && c.pid != child ==> (c in v.ptes <==> c in vm.ptes)
    requires forall c :: c in vm.forking ==> vm.forking[c].parent !in vm.forking
    ensures PendingOk(v, if ok then m else Abandon(m, child, vm.forking[child].next))
  {
    var m' := if ok then m else Abandon(m, child, vm.forking[child].next);
    forall c: Va | c.vpn < USER_PAGES && Pending(v, c)
      ensures c in m' && ParentPage(v, c) in m' && m'[c] == m'[ParentPage(v, c)]
    {
      assert Pending(vm, c);
    }
  }

  lemma CopyPageRefines(vm: Vm, m: Eager, child: nat)
    requires Safe(vm) && Refines(vm, m) && Can(vm, CopyPage(child))
    ensures Refines(ForkPage(vm, child).vm, EagerDo(vm, m, CopyPage(child)))
  {
    var v, ok := ForkPage(vm, child).vm, ForkPage(vm, child).ok;
    ForkPageContents(vm, child);
    ForkPageShape(vm, child);
    assert forall c: Va :: c.vpn < USER_PAGES && c.pid != child ==> (c in v.ptes <==> c in vm.ptes) by {
      hide ForkPage, Content;
    }
    hide SharingOk, FreeOk, CountsOk, ForkPage, PageCopied, PageShape, MappedOk, KeysOk, PendingOk, Abandon;
    CopyPageMapped(vm, v, m, child, ok);
    CopyPageKeys(vm, v, m, child, ok);
    CopyPagePending(vm, v, m, child, ok);
  }

  lemma EndForkRefines(vm: Vm, m: Eager, child: nat)
    requires Refines(vm, m) && Can(vm, EndFork(child))
    ensures Refines(Do(vm, EndFork(child)).value, m)
  {
    var v := Do(vm, EndFork(child)).value;
    forall a | a in m ensures a.vpn < USER_PAGES && (a in v.ptes || Pending(v, a)) {
      assert a in vm.ptes || Pending(vm, a);
    }
    hide MappedOk, KeysOk, Content;
    forall a: Va | a.vpn < USER_PAGES && Pending(v, a)
      ensures a in m && ParentPage(v, a) in m && m[a] == m[ParentPage(v, a)]
    {
      assert Pending(vm, a);
    }
  }

  lemma SameRefines(vm: Vm, v: Vm, m: Eager)
    requires Refines(vm, m) && v == vm.(procs := v.procs)
    ensures Refines(v, m)
  {
    assert forall a :: Pending(v, a) == Pending(vm, a);
    assert forall a :: ParentPage(v, a) == ParentPage(vm, a);
  }

  lemma StepRefines(vm: Vm, m: Eager, s: Step)
    requires Safe(vm) && Refines(vm, m) && Can(vm, s) && Do(vm, s).Some?
    ensures Refines(Do(vm, s).value, EagerDo(vm, m, s))
  {
    hide SharingOk, FreeOk, CountsOk, ForksOk, MappedOk, KeysOk, PendingOk;
    match s
    case BeginFork(parent, child) =>
      if vm.free != [] {
        BeginForkRefines(vm, m, parent, child);
      }
    case CopyPage(child) => CopyPageRefines(vm, m, child);
    case EndFork(child) => EndForkRefines(vm, m, child);
    case Write(a, data) => WriteRefines(vm, m, a, data);
    case Fault(a) =>
      if vm.free != [] {
        FaultRefines(vm, m, a);
      }
    case Grow(a, data) =>
      if vm.free != [] {
        GrowRefines(vm, m, a, data);
      }
    case Table(a) =>
      if vm.free != [] {
        TableRefines(vm, m, a);
      }
    case Drop(a) => DropRefines(vm, m, a);
    case Reap(pid) => SameRefines(vm, Do(vm, s).value, m);
  }

  // ---------------------------------------------------------------- whole runs

  /** A run of steps each of which the kernel can take where it is taken. */
  predicate Legal(vm: Vm, ss: seq<Step>)
    decreases ss
  {
    ss == [] || (Can(vm, ss[0]) && (Do(vm, ss[0]).Some? ==> Legal(Do(vm, ss[0]).value, ss[1..])))
  }

  function Run(vm: Vm, ss: seq<Step>): Option<Vm>
    requires Legal(vm, ss)
    decreases ss
  {
    if ss == [] then Some(vm)
    else match Do(vm, ss[0])
      case None => None
      case Some(v) => Run(v, ss[1..])
  }

  ghost function EagerRun(vm: Vm, m: Eager, ss: seq<Step>): Eager
    requires Legal(vm, ss)
    decreases ss
  {
    if ss == [] then m
    else match Do(vm, ss[0])
      case None => m
      case Some(v) => EagerRun(v, EagerDo(vm, m, ss[0]), ss[1..])
  }

  /** The kernel with one process and every frame on the free list. */
  function Boot(frames: seq<nat>, pid: nat): Vm {
    Vm(frames, map[], map[], map[], {pid}, map[], 0)
  }

  lemma BootSafe(frames: seq<nat>, pid: nat)
    requires forall i, j :: 0 <= i < j < |frames| ==> frames[i] != frames[j]
    ensures Safe(Boot(frames, pid)) && InRange(Boot(frames, pid)) && Refines(Boot(frames, pid), imap[])
  {
    var vm := Boot(frames, pid);
    assert forall f :: Mappings(vm, f) == {};
  }

  /** No step of the run overflows a count. */
  predicate Within(vm: Vm, ss: seq<Step>)
    requires Legal(vm, ss)
    decreases ss
  {
    ss == [] ||
    (!Overflows(vm, ss[0]) && (Do(vm, ss[0]).Some? ==> Within(Do(vm, ss[0]).value, ss[1..])))
  }

  /** Copy-on-write fork refines eager-copy fork, over every interleaving that overflows no count: no
      step panics, the frames stay safe, and the pages of every process that is not inside fork are
      exactly those of the machine that copies at once, with the same contents. */
  lemma {:induction false} CowRefinesEager(vm: Vm, m: Eager, ss: seq<Step>)
    requires Safe(vm) && InRange(vm) && Refines(vm, m) && Legal(vm, ss) && Within(vm, ss)
    ensures Run(vm, ss).Some? && Safe(Run(vm, ss).value)
    ensures var v, e := Run(vm, ss).value, EagerRun(vm, m, ss);
      && Refines(v, e)
      && (forall a :: a in v.ptes && a.vpn < USER_PAGES ==> a in e && e[a] == Content(v, v.ptes[a].frame))
      && (forall a :: a in e && a.pid !in v.forking ==> a in v.ptes)
    decreases ss
  {
    if ss == [] {
      forall a | a in m && a.pid !in vm.forking ensures a in vm.ptes {
        assert a in vm.ptes || Pending(vm, a);
      }
    } else {
      StepSafe(vm, ss[0]);
      StepRefines(vm, m, ss[0]);
      hide Safe, InRange, Refines;
      CowRefinesEager(Do(vm, ss[0]).value, EagerDo(vm, m, ss[0]), ss[1..]);
    }
  }

  /** Every state of the run is safe, and no step panics. */
  ghost predicate StaysSafe(vm: Vm, ss: seq<Step>)
    requires Legal(vm, ss)
    decreases ss
  {
    Safe(vm) && (ss == [] || (Do(vm, ss[0]).Some? && StaysSafe(Do(vm, ss[0]).value, ss[1..])))
  }

  /** A step that overflows a count leaves frames unsafe. */
  lemma OverflowUnsafe(vm: Vm, s: Step)
    requires Safe(vm) && Can(vm, s) && Overflows(vm, s)
    ensures Do(vm, s).Some? && !Safe(Do(vm, s).value)
  {
    hide Safe, ForkPage;
    ForkPageExact(vm, s.child);
  }

  /** A run stays safe if and only if copyuvm never meets a count of 127. */
  lemma {:induction false} SafeExactly(vm: Vm, ss: seq<Step>)
    requires Safe(vm) && InRange(vm) && Legal(vm, ss)
    ensures StaysSafe(vm, ss) <==> Within(vm, ss)
    decreases ss
  {
    if ss != [] {
      hide Safe, InRange, Do, Can;
      if Overflows(vm, ss[0]) {
        OverflowUnsafe(vm, ss[0]);
        Unsafe(Do(vm, ss[0]).value, ss[1..]);
      } else {
        StepSafe(vm, ss[0]);
        SafeExactly(Do(vm, ss[0]).value, ss[1..]);
      }
    }
  }

  lemma Unsafe(vm: Vm, ss: seq<Step>)
    requires !Safe(vm) && Legal(vm, ss)
    ensures !StaysSafe(vm, ss)
  {
  }

  /** In every state of the run, at most `most` forks have failed since boot. */
  predicate FewFailures(vm: Vm, ss: seq<Step>, most: nat)
    requires Legal(vm, ss)
    decreases ss
  {
    vm.failures <= most &&
    (ss == [] || (Do(vm, ss[0]).Some? ==> FewFailures(Do(vm, ss[0]).value, ss[1..], most)))
  }

  /** It never does while at most CHAR_MAX - NPROC forks have failed. */
  lemma {:induction false} FewFailuresSuffice(vm: Vm, ss: seq<Step>)
    requires Safe(vm) && InRange(vm) && Legal(vm, ss) && FewFailures(vm, ss, CHAR_MAX - NPROC)
    ensures Within(vm, ss)
    decreases ss
  {
    if ss != [] {
      if ss[0].CopyPage? && NextPage(vm, ss[0].child) in vm.ptes {
        ForkPageCountInRange(vm, ss[0].child);
      }
      StepSafe(vm, ss[0]);
      hide Safe, InRange, Do, Can;
      FewFailuresSuffice(Do(vm, ss[0]).value, ss[1..]);
    }
  }

  /** Frame safety, as counts: a frame's count is at least the number of entries naming it,
      equal to it and at most NPROC while no fork has failed; a writable entry is its
      frame's only one; and no frame of the free list is mapped. */
  lemma FrameSafety(vm: Vm, f: nat)
    requires Safe(vm)
    ensures |Mappings(vm, f)| <= Ref(vm, f)
    ensures vm.failures == 0 ==> |Mappings(vm, f)| == Ref(vm, f) <= NPROC
    ensures f in vm.free ==> Mappings(vm, f) == {}
    ensures forall a :: a in vm.ptes && vm.ptes[a].w && vm.ptes[a].frame == f ==> Mappings(vm, f) == {a}
  {
    CountInRange(vm, f);
    assert |Mappings(vm, f)| <= Ref(vm, f) - 0 <= |Mappings(vm, f)| + vm.failures;
  }
}
