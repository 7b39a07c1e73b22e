/** What copy-on-write fork leaves a process able to do (p5 vm.c, trap.c): a page that can be stored to,
    at once or through the fault handler, stays so however often its process forks. And how many
    frames copyuvm needs. */
module CowStore {
  import opened Cow
  import opened CowRun

  /** The user's store to page a succeeds, or faults on an entry that the handler copies. */
  predicate Storable(vm: Vm, a: Va) {
    a in vm.ptes && a.vpn < USER_PAGES && vm.ptes[a].u && (vm.ptes[a].w || vm.ptes[a].cow)
  }

  ghost predicate AllStorable(vm: Vm) {
    forall a :: a in vm.ptes && a.vpn < USER_PAGES ==> Storable(vm, a)
  }

  /** Only its own unmapping takes a page from a process; any other step leaves it as storable as it was. */
  lemma StepStorable(vm: Vm, s: Step, a: Va)
    requires ForksOk(vm) && Can(vm, s) && Do(vm, s).Some? && a in vm.ptes && a.vpn < USER_PAGES && s != Drop(a)
    ensures a in Do(vm, s).value.ptes && (Storable(vm, a) ==> Storable(Do(vm, s).value, a))
    ensures Storable(Do(vm, s).value, a) ==> Storable(vm, a) || s == Fault(a)
  {
    hide Content, Ref, AsChar, Runs;
  }

  /** A page that a process did not have comes storable if it is new; if fork shares it, exactly if it is
      the user's in the parent. */
  lemma NewStorable(vm: Vm, s: Step, a: Va)
    requires Can(vm, s) && Do(vm, s).Some? && a !in vm.ptes && a in Do(vm, s).value.ptes && a.vpn < USER_PAGES
    ensures s.Grow? || (s == CopyPage(a.pid) && a.pid in vm.forking && NextPage(vm, a.pid) in vm.ptes && NextPage(vm, a.pid).vpn == a.vpn)
    ensures Storable(Do(vm, s).value, a) <==> s.Grow? || vm.ptes[NextPage(vm, a.pid)].u
  {
    hide Content, Ref, AsChar, Runs;
  }

  lemma {:induction false} RunStorable(vm: Vm, ss: seq<Step>)
    requires Safe(vm) && InRange(vm) && AllStorable(vm) && Legal(vm, ss) && Within(vm, ss)
    ensures Run(vm, ss).Some? && Safe(Run(vm, ss).value) && AllStorable(Run(vm, ss).value)
    decreases ss
  {
    hide FreeOk, SharingOk, CountsOk, InRange, Can, Do, Storable;
    if ss != [] {
      StepSafe(vm, ss[0]);
      var v := Do(vm, ss[0]).value;
      forall a | a in v.ptes && a.vpn < USER_PAGES ensures Storable(v, a) {
        if a !in vm.ptes {
          NewStorable(vm, ss[0], a);
          if !ss[0].Grow? {
            Owned(vm, NextPage(vm, a.pid));
          }
        } else {
          NotDropped(vm, ss[0], a);
          StepStorable(vm, ss[0], a);
        }
      }
      RunStorable(v, ss[1..]);
    }
  }

  lemma Owned(vm: Vm, a: Va)
    requires AllStorable(vm) && a in vm.ptes && a.vpn < USER_PAGES
    ensures vm.ptes[a].u
  {
    assert Storable(vm, a);
  }

  lemma NotDropped(vm: Vm, s: Step, a: Va)
    requires Can(vm, s) && Do(vm, s).Some? && a in Do(vm, s).value.ptes
    ensures s != Drop(a)
  {
    hide Ref, Runs;
  }

  /** In every state of every run from boot that overflows no count, a process that is not inside fork
      can store to each of its pages, or its store faults and is resolved; no fork takes that away. */
  lemma StoresResolve(frames: seq<nat>, pid: nat, ss: seq<Step>, a: Va, data: Page)
    requires (forall i, j :: 0 <= i < j < |frames| ==> frames[i] != frames[j])
    requires Legal(Boot(frames, pid), ss) && Within(Boot(frames, pid), ss)
    ensures Run(Boot(frames, pid), ss).Some?
    ensures var v := Run(Boot(frames, pid), ss).value;
      a in v.ptes && a.vpn < USER_PAGES && Runs(v, a.pid) ==> Can(v, Write(a, data)) || Can(v, Fault(a))
  {
    BootSafe(frames, pid);
    hide Safe, InRange, Legal, Within, Run;
    RunStorable(Boot(frames, pid), ss);
  }

  /** The same for one page from any safe state: it stays until it is unmapped, and stays storable. */
  lemma {:induction false} StaysStorable(vm: Vm, ss: seq<Step>, a: Va)
    requires Safe(vm) && InRange(vm) && Storable(vm, a) && Legal(vm, ss) && Within(vm, ss) && Drop(a) !in ss
    ensures Run(vm, ss).Some? && Storable(Run(vm, ss).value, a)
    decreases ss
  {
    hide FreeOk, SharingOk, CountsOk, InRange, Can, Do, Storable;
    if ss != [] {
      StepSafe(vm, ss[0]);
      assert ss[0] in ss;
      InMap(vm, a);
      StepStorable(vm, ss[0], a);
      StaysStorable(Do(vm, ss[0]).value, ss[1..], a);
    }
  }

  lemma InMap(vm: Vm, a: Va)
    requires Storable(vm, a)
    ensures a in vm.ptes && a.vpn < USER_PAGES
  {
  }

  // ---------------------------------------------------------------- inside one fork

  ghost predicate StoresKept(vm: Vm, v: Vm) {
    forall a :: Storable(vm, a) ==> Storable(v, a)
  }

  /** The user has page a. */
  predicate UserPage(vm: Vm, a: Va) {
    a in vm.ptes && vm.ptes[a].u
  }

  /** Of its pages below n the child can store to exactly those that are the user's in the parent. */
  ghost predicate Inherited(vm: Vm, v: Vm, parent: nat, child: nat, n: nat) {
    forall a: Va :: a.pid == child && a.vpn < n ==> (Storable(v, a) <==> UserPage(vm, Va(parent, a.vpn)))
  }

  /** The fork of child by parent, begun in vm, stands at page i. */
  ghost predicate Granted(vm: Vm, v: Vm, parent: nat, child: nat, i: nat) {
    && StoresKept(vm, v) && Inherited(vm, v, parent, child, i)
    && (forall a: Va :: a.pid == child && i <= a.vpn < USER_PAGES ==> a !in v.ptes)
    && (forall a: Va :: a.pid == parent && a.vpn < USER_PAGES ==> (UserPage(v, a) <==> UserPage(vm, a)))
  }

  // What one iteration of copyuvm does to the entries of user pages.
  lemma ForkPageEntries(vm: Vm, child: nat, a: Va)
    requires child in vm.forking && vm.forking[child].next < USER_PAGES && vm.forking[child].parent != child && a.vpn < USER_PAGES
    requires Va(child, vm.forking[child].next) !in vm.ptes
    ensures var r, p, b := ForkPage(vm, child), NextPage(vm, child), Va(child, vm.forking[child].next);
      if a == b then
        && (r.ok && p in vm.ptes ==> a in r.vm.ptes && r.vm.ptes[a].cow && r.vm.ptes[a].u == vm.ptes[p].u)
        && (!r.ok || p !in vm.ptes ==> a !in r.vm.ptes)
      else
        && (a in r.vm.ptes <==> a in vm.ptes)
        && (a in vm.ptes ==> r.vm.ptes[a].u == vm.ptes[a].u && (Storable(r.vm, a) <==> Storable(vm, a)))
  {
    hide Content, Ref, AsChar;
  }

  /** One page of copyuvm leaves every page storable that was; the child's new page is if it is the user's. */
  lemma ForkPageGrants(vm: Vm, child: nat)
    requires child in vm.forking && vm.forking[child].next < USER_PAGES && vm.forking[child].parent != child
    requires Va(child, vm.forking[child].next) !in vm.ptes
    ensures StoresKept(vm, ForkPage(vm, child).vm)
    ensures ForkPage(vm, child).ok ==>
      (Storable(ForkPage(vm, child).vm, Va(child, vm.forking[child].next)) <==> UserPage(vm, NextPage(vm, child)))
  {
    hide ForkPage;
    forall a | Storable(vm, a) ensures Storable(ForkPage(vm, child).vm, a) {
      ForkPageEntries(vm, child, a);
    }
    ForkPageEntries(vm, child, Va(child, vm.forking[child].next));
  }

  lemma GrantedStep(s0: Vm, vm: Vm, parent: nat, child: nat, i: nat)
    requires Granted(s0, vm, parent, child, i) && i < USER_PAGES
    requires child in vm.forking && vm.forking[child] == Fork(parent, i) && parent != child
    ensures Va(child, i) !in vm.ptes && StoresKept(s0, ForkPage(vm, child).vm)
    ensures ForkPage(vm, child).ok ==> Granted(s0, ForkPage(vm, child).vm, parent, child, i + 1)
  {
    hide ForkPage, Storable;
    var v, b := ForkPage(vm, child).vm, Va(child, i);
    assert b.vpn == i && b !in vm.ptes;
    ForkPageGrants(vm, child);
    forall a: Va | a.vpn < USER_PAGES && (a.pid == child || a.pid == parent)
      ensures a != b ==> (UserPage(v, a) <==> UserPage(vm, a)) && (a in v.ptes <==> a in vm.ptes)
      ensures a != b && a in vm.ptes ==> (Storable(v, a) <==> Storable(vm, a))
    {
      ForkPageEntries(vm, child, a);
    }
    if ForkPage(vm, child).ok {
      forall a: Va | a.pid == child && a.vpn < i + 1 ensures Storable(v, a) <==> UserPage(s0, Va(parent, a.vpn)) {
        if a.vpn == i {
          assert a == b;
        } else {
          assert Storable(vm, a) <==> UserPage(s0, Va(parent, a.vpn));
          Absent(vm, a);
          Absent(v, a);
        }
      }
    }
  }

  lemma Absent(vm: Vm, a: Va)
    ensures a !in vm.ptes ==> !Storable(vm, a)
  {
  }

  lemma GrantedStart(vm: Vm, parent: nat, child: nat)
    requires ForksOk(vm) && Can(vm, BeginFork(parent, child))
    ensures Granted(vm, Do(vm, BeginFork(parent, child)).value, parent, child, 0)
  {
    hide Content, Ref, AsChar, Runs;
  }

  // ---------------------------------------------------------------- how many frames copyuvm needs

  /** The page tables that the pages of pid below page n hang on. */
  function PageTables(vm: Vm, pid: nat, n: nat): set<nat> {
    set a | a in vm.ptes && a.pid == pid && a.vpn < n :: a.vpn / NPTENTRIES
  }

  predicate HasTable(vm: Vm, pid: nat, k: nat) {
    Va(pid, USER_PAGES + k) in vm.ptes
  }

  /** The fork of child at page i: of `frames` free frames it took one for the directory and one for each
      page table that the parent's pages up to i need. */
  ghost predicate Supplied(vm: Vm, parent: nat, child: nat, i: nat, frames: nat, tables: set<nat>) {
    && |vm.free| + 1 + |PageTables(vm, parent, i)| == frames && PageTables(vm, parent, USER_PAGES) == tables
    && forall k: nat :: k < NPTENTRIES ==> (HasTable(vm, child, k) <==> k in PageTables(vm, parent, i))
  }

  lemma SuppliedStart(vm: Vm, parent: nat, child: nat)
    requires ForksOk(vm) && Can(vm, BeginFork(parent, child)) && vm.free != []
    ensures Supplied(Do(vm, BeginFork(parent, child)).value, parent, child, 0, |vm.free|, PageTables(vm, parent, USER_PAGES))
  {
    hide Content, Ref, AsChar, Runs;
    var v := Do(vm, BeginFork(parent, child)).value;
    SameTables(vm, v, parent, USER_PAGES);
    assert PageTables(v, parent, 0) == {};
  }

  lemma SameTables(vm: Vm, v: Vm, pid: nat, n: nat)
    requires n <= USER_PAGES && forall a: Va :: a.pid == pid && a.vpn < USER_PAGES ==> (a in v.ptes <==> a in vm.ptes)
    ensures PageTables(v, pid, n) == PageTables(vm, pid, n)
  {
    forall k ensures k in PageTables(v, pid, n) <==> k in PageTables(vm, pid, n) {
      if k in PageTables(vm, pid, n) {
        var a :| a in vm.ptes && a.pid == pid && a.vpn < n && k == a.vpn / NPTENTRIES;
        assert a in v.ptes;
      }
      if k in PageTables(v, pid, n) {
        var a :| a in v.ptes && a.pid == pid && a.vpn < n && k == a.vpn / NPTENTRIES;
        assert a in vm.ptes;
      }
    }
  }

  lemma OneMoreTable(vm: Vm, pid: nat, i: nat)
    requires i < USER_PAGES
    ensures PageTables(vm, pid, i + 1) == PageTables(vm, pid, i) + if Va(pid, i) in vm.ptes then {i / NPTENTRIES} else {}
    ensures PageTables(vm, pid, i + 1) <= PageTables(vm, pid, USER_PAGES)
  {
    forall k ensures k in PageTables(vm, pid, i + 1) <==>
      k in PageTables(vm, pid, i) || (Va(pid, i) in vm.ptes && k == i / NPTENTRIES)
    {
      if k in PageTables(vm, pid, i + 1) {
        var a :| a in vm.ptes && a.pid == pid && a.vpn < i + 1 && k == a.vpn / NPTENTRIES;
        assert a.vpn < i || a == Va(pid, i);
      }
      if Va(pid, i) in vm.ptes {
        assert Va(pid, i).vpn / NPTENTRIES in PageTables(vm, pid, i + 1);
      }
    }
  }

  // What one iteration does to the free list and to the entries it does not write.
  lemma ForkPageTakes(vm: Vm, parent: nat, child: nat, i: nat)
    requires child in vm.forking && vm.forking[child] == Fork(parent, i) && parent != child && i < USER_PAGES
    ensures var r := ForkPage(vm, child);
      var needs := Va(parent, i) in vm.ptes && !HasTable(vm, child, i / NPTENTRIES);
      && (r.ok <==> !needs || vm.free != [])
      && (r.ok ==> r.vm.free == if needs then vm.free[1..] else vm.free)
      && (forall a: Va :: a.pid == parent ==> (a in r.vm.ptes <==> a in vm.ptes))
      && (r.ok ==> forall k: nat :: HasTable(r.vm, child, k) <==> HasTable(vm, child, k) || (needs && k == i / NPTENTRIES))
  {
    hide Content, Ref, AsChar;
  }

  lemma SuppliedStep(vm: Vm, parent: nat, child: nat, i: nat, frames: nat, tables: set<nat>)
    requires child in vm.forking && vm.forking[child] == Fork(parent, i) && parent != child && i < USER_PAGES
    requires Supplied(vm, parent, child, i, frames, tables)
    ensures ForkPage(vm, child).ok ==> Supplied(ForkPage(vm, child).vm, parent, child, i + 1, frames, tables)
    ensures !ForkPage(vm, child).ok ==> frames < 1 + |tables|
  {
    hide ForkPage, PageTables, HasTable;
    ForkPageTakes(vm, parent, child, i);
    OneMoreTable(vm, parent, i);
    SubsetSize(PageTables(vm, parent, i + 1), tables);
    assert i / NPTENTRIES < NPTENTRIES;
    if ForkPage(vm, child).ok {
      SameTables(vm, ForkPage(vm, child).vm, parent, i + 1);
      SameTables(vm, ForkPage(vm, child).vm, parent, USER_PAGES);
    }
  }

  lemma {:induction false} SubsetSize(a: set<nat>, b: set<nat>)
    requires a <= b
    ensures |a| <= |b|
  {
    if a != {} {
      var x :| x in a;
      SubsetSize(a - {x}, b - {x});
    }
  }

  lemma SuppliedEnd(vm: Vm, parent: nat, child: nat, frames: nat, tables: set<nat>)
    requires Supplied(vm, parent, child, USER_PAGES, frames, tables)
    ensures frames >= 1 + |tables|
  {
  }
}
