/** The code behind the steps of CowRun: kalloc and kfree, the copyuvm loop, the page-fault
    branch, and freevm, as they update the free list, the counts and the entries. */
module CowKernel {
  import opened Cow
  import opened CowRun
  import opened CowStore

  class Kernel {
    var freelist: seq<nat>
    var refCount: map<nat, int>
    var mem: map<nat, Page>
    var ptes: map<Va, Pte>
    // bookkeeping the C code has only in its program counters and in the process table
    ghost var procs: set<nat>
    ghost var forking: map<nat, Fork>
    ghost var failures: nat

    ghost function State(): Vm
      reads this
    {
      Vm(freelist, refCount, mem, ptes, procs, forking, failures)
    }

    function Count(f: nat): int
      reads this
    {
      if f in refCount then refCount[f] else 0
    }

    method Kalloc() returns (r: Option<nat>)
      modifies this`freelist, this`refCount, this`mem
      ensures match Cow.Kalloc(old(State()))
              case None => r == None && State() == old(State())
              case Some((v, f)) => r == Some(f) && State() == v
    {
      if freelist == [] {
        return None;
      }
      var f := freelist[0];
      freelist := freelist[1..];
      refCount := refCount[f := 1];
      mem := mem[f := ZERO_PAGE];
      r := Some(f);
    }

    /** `panics` stands for the "kfree: ref_count underflow" panic. */
    method Kfree(f: nat) returns (panics: bool)
      modifies this`freelist, this`refCount, this`mem
      ensures match Cow.Kfree(old(State()), f)
              case None => panics && State() == old(State())
              case Some(v) => !panics && State() == v
    {
      panics := Count(f) < 0;
      if panics {
        return;
      }
      if Count(f) == 0 {
        mem := mem[f := JUNK_PAGE];
        freelist := [f] + freelist;
      } else {
        refCount := refCount[f := Count(f) - 1];
        if Count(f) == 0 {
          mem := mem[f := JUNK_PAGE];
          freelist := [f] + freelist;
        }
      }
    }

    /** The body of copyuvm's loop for page i; the last requires excludes the "remap" panic. */
    method CopyPage(parent: nat, child: nat, i: nat) returns (ok: bool)
      requires child in forking && forking[child] == Fork(parent, i) && i < USER_PAGES
      requires parent != child && Va(child, i) !in ptes
      modifies this
      ensures State() == ForkPage(old(State()), child).vm && ok == ForkPage(old(State()), child).ok
      ensures StoresKept(old(State()), State())
      ensures ok ==> (Storable(State(), Va(child, i)) <==> UserPage(old(State()), Va(parent, i)))
    {
      hide Storable, StoresKept, UserPage, AsChar, ForkPage;
      ghost var s := State();
      ghost var r := ForkPage(s, child);
      Grants(s, parent, child, i, r);
      SharedCases(s, parent, child, i, r);
      var a, b := Va(parent, i), Va(child, i);
      if a !in ptes {
        forking := forking[child := Fork(parent, i + 1)];
        assert State() == r.vm;
        return true;
      }
      var pte := ptes[a];
      refCount := refCount[pte.frame := AsChar(Count(pte.frame) + 1)];
      if pte.w {
        ptes := ptes[a := pte.(w := false, cow := true)];
      } else {
        ptes := ptes[a := pte];
      }
      if DirSlot(b) !in ptes {
        var table := Kalloc();
        if table == None {
          forking := forking - {child};
          failures := failures + 1;
          assert State() == r.vm;
          return false;
        }
        ptes := ptes[DirSlot(b) := Pte(table.value, true, true, false)];
        mem := mem[table.value := ZERO_PAGE];
      }
      ptes := ptes[b := pte.(w := false, cow := true)];
      forking := forking[child := Fork(parent, i + 1)];
      assert State() == r.vm;
      ok := true;
    }

    /** One present entry of deallocuvm or freevm. */
    method DropEntry(a: Va, ghost m: Eager)
      requires a in ptes && Safe(State()) && InRange(State()) && Refines(State(), m) && Can(State(), Drop(a))
      modifies this`freelist, this`refCount, this`mem, this`ptes
      ensures Safe(State()) && InRange(State()) && Refines(State(), m - {a})
      ensures ptes == old(ptes) - {a}
    {
      StepSafe(State(), Drop(a));
      StepRefines(State(), m, Drop(a));
      hide Safe, InRange, Refines, Can;
      var panics := Kfree(ptes[a].frame);
      ptes := ptes - {a};
    }

    /** freevm: first the user pages, then the page tables, then the directory. */
    method FreeVm(pid: nat, ghost m: Eager)
      requires Safe(State()) && InRange(State()) && Refines(State(), m) && Runs(State(), pid) && InDirectory(ptes, pid)
      modifies this`freelist, this`refCount, this`mem, this`ptes
      ensures Safe(State()) && InRange(State()) && Refines(State(), EagerWithout(m, pid))
      ensures ptes == Without(old(ptes), pid)
    {
      hide Safe, InRange, Refines, From, Without, EagerFrom, EagerWithout, Can, Runs, InDirectory;
      ghost var p0 := ptes;
      FromStart(ptes, m, pid);
      for i: nat := 0 to LAST_SLOT + 1
        invariant Safe(State()) && InRange(State()) && Refines(State(), EagerFrom(m, pid, i)) && Runs(State(), pid)
        invariant ptes == From(p0, pid, i) && forking == old(forking)
      {
        FromStep(p0, m, pid, i);
        if Va(pid, i) in ptes {
          CanDropNext(State(), p0, pid, i);
          DropEntry(Va(pid, i), EagerFrom(m, pid, i));
          RunsSame(old(State()), State(), pid);
        } else {
          AbsentPage(State(), EagerFrom(m, pid, i), Va(pid, i));
          assert ptes - {Va(pid, i)} == ptes;
        }
      }
      FromEnd(p0, m, State(), pid);
    }

    /** setupkvm as far as user pages are concerned: the directory of the child. */
    method SetUp(parent: nat, child: nat) returns (ok: bool)
      requires Can(State(), BeginFork(parent, child))
      modifies this
      ensures ok <==> old(freelist) != []
      ensures State() == Do(old(State()), BeginFork(parent, child)).value
    {
      var root := Kalloc();
      if root == None {
        return false;
      }
      procs, forking := procs + {child}, forking[child := Fork(parent, 0)];
      ptes := ptes[RootSlot(child) := Pte(root.value, true, true, false)];
      mem := mem[root.value := ZERO_PAGE];
      ok := true;
    }

    /** The statements of the copy-on-write branch. */
    method ResolveCow(a: Va) returns (killed: bool)
      requires a in ptes
      modifies this`freelist, this`refCount, this`mem, this`ptes
      ensures killed <==> old(freelist) == []
      ensures State() == OrSame(CowCopy(old(State()), a), old(State()))
    {
      var pa := ptes[a].frame;
      var newPage := Kalloc();
      if newPage == None {
        return true;
      }
      mem := mem[newPage.value := if pa in mem then mem[pa] else JUNK_PAGE];
      refCount := refCount[pa := AsChar(Count(pa) - 1)];
      ptes := ptes[a := Pte(newPage.value, true, true, false)];
      killed := false;
    }

    /** The page-fault handler on a copy-on-write entry. The process is killed exactly when no
        frame is left; otherwise it gets a private writable page, and no process sees a change. */
    method PageFault(a: Va, ghost m: Eager) returns (killed: bool)
      requires Safe(State()) && InRange(State()) && Refines(State(), m) && Can(State(), Fault(a))
      modifies this`freelist, this`refCount, this`mem, this`ptes
      ensures Safe(State()) && InRange(State()) && Refines(State(), m)
      ensures killed <==> old(freelist) == []
      ensures killed ==> State() == old(State())
      ensures !killed ==> ptes.Keys == old(ptes).Keys && Can(State(), Write(a, ZERO_PAGE))
    {
      assert a in ptes;
      if freelist != [] {
        FaultFacts(State(), m, a);
      }
      hide Safe, InRange, Refines, Can;
      killed := ResolveCow(a);
    }

    /** copyuvm: setupkvm's directory, then every present page below KERNBASE. A fork that
        succeeds makes the child the eager copy of its parent; one that fails leaves every
        process with the contents it had, and it fails exactly when there are not frames for the
        directory and the page tables. No page loses its permission to be stored to, and the child can
        store to those that are the user's in the parent. No page of the parent may have 127 references already. */
    method CopyUvm(parent: nat, child: nat, ghost m: Eager) returns (ok: bool)
      requires Safe(State()) && InRange(State()) && Refines(State(), m) && Can(State(), BeginFork(parent, child))
      requires Countable(State(), parent, 0)
      modifies this
      ensures Safe(State()) && InRange(State())
      ensures ok ==> Refines(State(), CopyAll(m, parent, child))
      ensures Runs(State(), parent) && (ok ==> Runs(State(), child))
      ensures !ok ==> Refines(State(), m)
      ensures ok <==> |old(freelist)| >= 1 + |PageTables(old(State()), parent, USER_PAGES)|
      ensures StoresKept(old(State()), State()) && (ok ==> Inherited(old(State()), State(), parent, child, USER_PAGES))
    {
      hide Safe, InRange, Refines, Can, CopyAll, Without, EagerWithout, ForkPage, Forking, StoresKept, Inherited, PageTables, InDirectory;
      ghost var s0 := State();
      Apart(s0, m, parent, child);
      ok := SetUp(parent, child);
      if !ok {
        return;
      }
      ghost var e := CopyAll(m, parent, child);
      ForkingStarts(s0, m, parent, child);
      var i: nat := 0;
      while i < USER_PAGES
        invariant i <= USER_PAGES && Forking(s0, State(), parent, child, i, e)
      {
        ForkingStep(s0, State(), parent, child, i, e);
        ok := CopyPage(parent, child, i);
        if !ok {
          ghost var failed := State();
          FreeVm(child, Abandon(e, child, i));
          AbandonAll(s0, m, parent, child, i);
          RunsSame(failed, State(), parent);
          GrantedWithout(s0, failed, State(), child);
          return;
        }
        i := i + 1;
      }
      ForkingEnds(s0, State(), parent, child, e);
      forking := forking - {child};
    }
  }

  // ForkPage, case by case.
  lemma SharedCases(vm: Vm, parent: nat, child: nat, i: nat, r: Shared)
    requires child in vm.forking && vm.forking[child] == Fork(parent, i) && r == ForkPage(vm, child)
    ensures var a, b, on := Va(parent, i), Va(child, i), vm.forking[child := Fork(parent, i + 1)];
      if a !in vm.ptes then r == Shared(vm.(forking := on), true)
      else
        var p := vm.ptes[a];
        var refs := vm.refs[p.frame := AsChar(Ref(vm, p.frame) + 1)];
        var ptes := vm.ptes[a := if p.w then p.(w := false, cow := true) else p];
        var entry := p.(w := false, cow := true);
        if DirSlot(b) in ptes then r == Shared(vm.(refs := refs, ptes := ptes[b := entry], forking := on), true)
        else if vm.free == [] then
          r == Shared(vm.(refs := refs, ptes := ptes, forking := vm.forking - {child}, failures := vm.failures + 1), false)
        else
          var f := vm.free[0];
          r == Shared(vm.(free := vm.free[1..], refs := refs[f := 1], mem := vm.mem[f := ZERO_PAGE][f := ZERO_PAGE],
                          ptes := ptes[DirSlot(b) := Pte(f, true, true, false)][b := entry], forking := on), true)
  {
    hide Ref, AsChar;
  }

  lemma Grants(vm: Vm, parent: nat, child: nat, i: nat, r: Shared)
    requires child in vm.forking && vm.forking[child] == Fork(parent, i) && i < USER_PAGES && parent != child
    requires Va(child, i) !in vm.ptes && r == ForkPage(vm, child)
    ensures StoresKept(vm, r.vm) && (r.ok ==> (Storable(r.vm, Va(child, i)) <==> UserPage(vm, Va(parent, i))))
  {
    hide ForkPage, StoresKept, Storable, UserPage;
    ForkPageGrants(vm, child);
  }

  /** The pages of pid from i on can have one more reference each. */
  predicate Countable(vm: Vm, pid: nat, i: nat) {
    forall a :: a in vm.ptes && a.pid == pid && i <= a.vpn < USER_PAGES ==> Ref(vm, vm.ptes[a].frame) < CHAR_MAX
  }

  /** The fork of child stands at page i, and e is what the eager machine has. */
  ghost predicate Copying(vm: Vm, parent: nat, child: nat, i: nat, e: Eager) {
    && Safe(vm) && InRange(vm) && Refines(vm, e)
    && child in vm.forking && vm.forking[child] == Fork(parent, i)
    && (forall c :: c in vm.forking && c != child ==> vm.forking[c].parent != parent)
    && InDirectory(vm.ptes, child)
    && Countable(vm, parent, i)
  }

  /** The same for a fork that began in s0, with the frames it took and the permissions there are. */
  ghost predicate Forking(s0: Vm, vm: Vm, parent: nat, child: nat, i: nat, e: Eager) {
    && Copying(vm, parent, child, i, e) && parent != child && child !in s0.procs && ForksOk(s0)
    && Granted(s0, vm, parent, child, i) && Supplied(vm, parent, child, i, |s0.free|, PageTables(s0, parent, USER_PAGES))
  }

  lemma ForkingStarts(vm: Vm, m: Eager, parent: nat, child: nat)
    requires Safe(vm) && InRange(vm) && Refines(vm, m) && Can(vm, BeginFork(parent, child))
    requires Countable(vm, parent, 0) && vm.free != []
    ensures Forking(vm, Do(vm, BeginFork(parent, child)).value, parent, child, 0, CopyAll(m, parent, child))
  {
    hide FreeOk, SharingOk, CountsOk, InRange, Countable, Refines, CopyAll, Do, Can, Copying, Granted, Supplied, PageTables;
    Apart(vm, m, parent, child);
    BeginForkStarts(vm, m, parent, child);
    GrantedStart(vm, parent, child);
    SuppliedStart(vm, parent, child);
  }

  lemma ForkingStep(s0: Vm, vm: Vm, parent: nat, child: nat, i: nat, e: Eager)
    requires Forking(s0, vm, parent, child, i, e) && i < USER_PAGES
    ensures child in vm.forking && vm.forking[child] == Fork(parent, i) && parent != child && Va(child, i) !in vm.ptes
    ensures var r := ForkPage(vm, child);
      && (r.ok ==> Forking(s0, r.vm, parent, child, i + 1, e))
      && (!r.ok ==> Safe(r.vm) && InRange(r.vm) && Refines(r.vm, Abandon(e, child, i)) && InDirectory(r.vm.ptes, child))
      && (!r.ok ==> Runs(r.vm, child) && Runs(r.vm, parent))
      && (!r.ok ==> StoresKept(s0, r.vm) && |s0.free| < 1 + |PageTables(s0, parent, USER_PAGES)|)
  {
    hide Safe, InRange, Countable, Refines, ForkPage, Abandon, InDirectory, Granted, Supplied, PageTables, Runs, StoresKept;
    CopyingStep(vm, parent, child, i, e);
    GrantedStep(s0, vm, parent, child, i);
    SuppliedStep(vm, parent, child, i, |s0.free|, PageTables(s0, parent, USER_PAGES));
  }

  lemma ForkingEnds(s0: Vm, vm: Vm, parent: nat, child: nat, e: Eager)
    requires Forking(s0, vm, parent, child, USER_PAGES, e)
    ensures var v := vm.(forking := vm.forking - {child});
      Safe(v) && InRange(v) && Refines(v, e) && Runs(v, child) && Runs(v, parent) && StoresKept(s0, v) && Inherited(s0, v, parent, child, USER_PAGES)
    ensures |s0.free| >= 1 + |PageTables(s0, parent, USER_PAGES)|
  {
    hide Safe, InRange, Copying, Refines, Granted, Supplied, PageTables, Runs, StoresKept, Inherited;
    CopyingEnds(vm, parent, child, e);
    SuppliedEnd(vm, parent, child, |s0.free|, PageTables(s0, parent, USER_PAGES));
    GrantedEnd(s0, vm, parent, child);
  }

  lemma BeginForkShape(vm: Vm, parent: nat, child: nat)
    requires ForksOk(vm) && Can(vm, BeginFork(parent, child)) && vm.free != []
    ensures var v := Do(vm, BeginFork(parent, child)).value;
      && child in v.forking && v.forking[child] == Fork(parent, 0)
      && (forall c :: c in v.forking && c != child ==> v.forking[c].parent != parent)
      && InDirectory(v.ptes, child)
  {
  }

  lemma BeginForkCountable(vm: Vm, parent: nat, child: nat)
    requires FreeOk(vm) && Can(vm, BeginFork(parent, child)) && vm.free != [] && Countable(vm, parent, 0)
    ensures Countable(Do(vm, BeginFork(parent, child)).value, parent, 0)
  {
    FreshFrame(vm);
    hide FreeOk;
  }

  lemma BeginForkStarts(vm: Vm, m: Eager, parent: nat, child: nat)
    requires Safe(vm) && Refines(vm, m) && Can(vm, BeginFork(parent, child))
    requires InRange(vm) && Countable(vm, parent, 0) && vm.free != []
    ensures Copying(Do(vm, BeginFork(parent, child)).value, parent, child, 0, CopyAll(m, parent, child))
  {
    hide FreeOk, SharingOk, CountsOk, ForksOk, InRange, Countable, Refines, CopyAll, Do, InDirectory, Can;
    StepSafe(vm, BeginFork(parent, child));
    BeginForkCountable(vm, parent, child);
    BeginForkRefines(vm, m, parent, child);
    BeginForkShape(vm, parent, child);
  }

  // The page being copied is not the frame that is handed out.
  lemma PoolOnly(vm: Vm, a: Va)
    requires Safe(vm) && a in vm.ptes && vm.free != []
    ensures vm.ptes[a].frame != vm.free[0]
  {
    FreshFrame(vm);
  }

  lemma FaultWritable(vm: Vm, a: Va)
    requires Can(vm, Fault(a)) && vm.free != []
    ensures Can(CowCopy(vm, a).value, Write(a, ZERO_PAGE))
    ensures CowCopy(vm, a).value.ptes.Keys == vm.ptes.Keys
  {
    hide Content, Ref, AsChar;
  }

  lemma FaultFacts(vm: Vm, m: Eager, a: Va)
    requires Safe(vm) && InRange(vm) && Refines(vm, m) && Can(vm, Fault(a)) && vm.free != []
    ensures var v := CowCopy(vm, a).value;
      && Safe(v) && InRange(v) && Refines(v, m) && Can(v, Write(a, ZERO_PAGE)) && v.ptes.Keys == vm.ptes.Keys
    ensures vm.ptes[a].frame != vm.free[0]
  {
    FaultWritable(vm, a);
    assert a in vm.ptes && a.vpn < USER_PAGES;
    PoolOnly(vm, a);
    StepSafe(vm, Fault(a));
    hide Refines, Can, FreeOk, SharingOk, CountsOk, ForksOk, InRange;
    FaultRefines(vm, m, a);
  }

  // Only the child's own slots are added by an iteration.
  lemma ForkPageSlots(vm: Vm, parent: nat, child: nat, i: nat)
    requires child in vm.forking && vm.forking[child] == Fork(parent, i) && i < USER_PAGES
    requires InDirectory(vm.ptes, child)
    ensures InDirectory(ForkPage(vm, child).vm.ptes, child)
  {
    hide Ref, AsChar, MarkCow;
    assert i / NPTENTRIES <= NPTENTRIES;
  }

  function NextFrame(vm: Vm, child: nat): int
    requires child in vm.forking
  {
    if NextPage(vm, child) in vm.ptes then vm.ptes[NextPage(vm, child)].frame else -1
  }

  // Other entries of the parent and the counts of other mapped frames stay as they are.
  lemma ForkPageOthers(vm: Vm, child: nat, a: Va)
    requires child in vm.forking && a.pid != child && a != NextPage(vm, child)
    ensures a in ForkPage(vm, child).vm.ptes <==> a in vm.ptes
    ensures a in vm.ptes ==> ForkPage(vm, child).vm.ptes[a] == vm.ptes[a]
    ensures forall f :: f != NextFrame(vm, child) && (vm.free == [] || vm.free[0] != f) ==>
      Ref(ForkPage(vm, child).vm, f) == Ref(vm, f)
  {
    hide Content, MarkCow, AsChar;
  }

  // Counting page i leaves the counts of the pages behind it: their frames are others.
  lemma ForkPageCountable(vm: Vm, parent: nat, child: nat, i: nat)
    requires Safe(vm) && child in vm.forking && vm.forking[child] == Fork(parent, i) && i < USER_PAGES
    requires Countable(vm, parent, i)
    ensures Countable(ForkPage(vm, child).vm, parent, i + 1)
  {
    hide ForkPage, Ref, CountsBut, Mappings;
    if vm.free != [] {
      FreshFrame(vm);
    }
    hide FreeOk;
    assert parent != child;
    forall a | a in ForkPage(vm, child).vm.ptes && a.pid == parent && i + 1 <= a.vpn < USER_PAGES
      ensures Ref(ForkPage(vm, child).vm, ForkPage(vm, child).vm.ptes[a].frame) < CHAR_MAX
    {
      ForkPageOthers(vm, child, a);
    }
  }

  lemma NextCountable(vm: Vm, parent: nat, child: nat, i: nat)
    requires child in vm.forking && vm.forking[child] == Fork(parent, i) && i < USER_PAGES && Countable(vm, parent, i)
    ensures Can(vm, CopyPage(child)) && !Overflows(vm, CopyPage(child))
  {
  }

  lemma CopyingStep(vm: Vm, parent: nat, child: nat, i: nat, e: Eager)
    requires Copying(vm, parent, child, i, e) && i < USER_PAGES
    ensures var r := ForkPage(vm, child);
      && (r.ok ==> Copying(r.vm, parent, child, i + 1, e))
      && (!r.ok ==> Safe(r.vm) && InRange(r.vm) && Refines(r.vm, Abandon(e, child, i)) && InDirectory(r.vm.ptes, child))
      && (!r.ok ==> Runs(r.vm, child) && Runs(r.vm, parent))
  {
    hide FreeOk, SharingOk, CountsOk, InRange, Countable, Refines, ForkPage, Abandon, PageCopied, InDirectory;
    assert !Overflows(vm, CopyPage(child)) by { NextCountable(vm, parent, child, i); }
    ForkPageCountable(vm, parent, child, i);
    StepSafe(vm, CopyPage(child));
    StepRefines(vm, e, CopyPage(child));
    ForkPageSlots(vm, parent, child, i);
    ForkPageContents(vm, child);
    ForkPageShape(vm, child);
  }

  lemma Apart(vm: Vm, m: Eager, parent: nat, child: nat)
    requires Safe(vm) && Refines(vm, m) && Can(vm, BeginFork(parent, child))
    ensures ForksOk(vm) && KeysOk(vm, m) && child !in vm.procs && Runs(vm, parent) && parent != child
    ensures vm.free == [] ==> Do(vm, BeginFork(parent, child)).value == vm && StoresKept(vm, vm)
  {
  }

  lemma AbandonAll(vm: Vm, m: Eager, parent: nat, child: nat, i: nat)
    requires ForksOk(vm) && KeysOk(vm, m) && child !in vm.procs
    ensures EagerWithout(Abandon(CopyAll(m, parent, child), child, i), child) == m
  {
    EagerPids(vm, m, child);
    CopyAllAt(m, parent, child);
    hide CopyAll, KeysOk, ForksOk;
  }

  lemma CopyingEnds(vm: Vm, parent: nat, child: nat, e: Eager)
    requires Copying(vm, parent, child, USER_PAGES, e)
    ensures var v := vm.(forking := vm.forking - {child});
      Safe(v) && InRange(v) && Refines(v, e) && Runs(v, child) && Runs(v, parent)
  {
    StepSafe(vm, EndFork(child));
    StepRefines(vm, e, EndFork(child));
    hide FreeOk, SharingOk, CountsOk, Refines;
  }

  // freevm of the child takes nothing from the processes there were.
  lemma GrantedWithout(s0: Vm, vm: Vm, v: Vm, child: nat)
    requires StoresKept(s0, vm) && ForksOk(s0) && child !in s0.procs && v.ptes == Without(vm.ptes, child)
    ensures StoresKept(s0, v)
  {
    forall a | Storable(s0, a) ensures Storable(v, a) {
      assert Storable(vm, a);
    }
  }

  lemma GrantedEnd(s0: Vm, vm: Vm, parent: nat, child: nat)
    requires Granted(s0, vm, parent, child, USER_PAGES)
    ensures var v := vm.(forking := vm.forking - {child}); StoresKept(s0, v) && Inherited(s0, v, parent, child, USER_PAGES)
  {
    var v := vm.(forking := vm.forking - {child});
    forall a ensures Storable(v, a) <==> Storable(vm, a) {
    }
  }

  const LAST_SLOT: nat := USER_PAGES + NPTENTRIES

  predicate InDirectory(ptes: map<Va, Pte>, pid: nat) {
    forall a :: a in ptes && a.pid == pid ==> a.vpn <= LAST_SLOT
  }

  /** The entries that do not belong to pid. */
  function Without(p: map<Va, Pte>, pid: nat): map<Va, Pte> {
    map a | a in p && a.pid != pid :: p[a]
  }

  /** What is left of them once freevm has passed the slots of pid below i. */
  function From(p: map<Va, Pte>, pid: nat, i: nat): map<Va, Pte> {
    map a | a in p && (a.pid == pid ==> i <= a.vpn) :: p[a]
  }

  /** The same two for the eager machine. */
  ghost function EagerWithout(m: Eager, pid: nat): Eager {
    imap a | a in m && a.pid != pid :: m[a]
  }

  ghost function EagerFrom(m: Eager, pid: nat, i: nat): Eager {
    imap a | a in m && (a.pid == pid ==> i <= a.vpn) :: m[a]
  }

  lemma CanDropNext(vm: Vm, p: map<Va, Pte>, pid: nat, i: nat)
    requires vm.ptes == From(p, pid, i) && Runs(vm, pid) && Va(pid, i) in vm.ptes
    ensures Can(vm, Drop(Va(pid, i)))
  {
  }

  lemma RunsSame(vm: Vm, v: Vm, pid: nat)
    requires Runs(vm, pid) && v.forking == vm.forking
    ensures Runs(v, pid)
  {
  }

  lemma FromStart(p: map<Va, Pte>, m: Eager, pid: nat)
    ensures From(p, pid, 0) == p && EagerFrom(m, pid, 0) == m
  {
  }

  lemma FromStep(p: map<Va, Pte>, m: Eager, pid: nat, i: nat)
    ensures From(p, pid, i + 1) == From(p, pid, i) - {Va(pid, i)}
    ensures EagerFrom(m, pid, i + 1) == EagerFrom(m, pid, i) - {Va(pid, i)}
  {
  }

  lemma FromEnd(p: map<Va, Pte>, m: Eager, vm: Vm, pid: nat)
    requires InDirectory(p, pid) && vm.ptes == From(p, pid, LAST_SLOT + 1)
    requires Refines(vm, EagerFrom(m, pid, LAST_SLOT + 1)) && Runs(vm, pid)
    ensures From(p, pid, LAST_SLOT + 1) == Without(p, pid)
    ensures EagerFrom(m, pid, LAST_SLOT + 1) == EagerWithout(m, pid)
  {
    var e := EagerFrom(m, pid, LAST_SLOT + 1);
    assert forall a :: a in e ==> a.vpn < USER_PAGES;
    hide Refines;
  }

  lemma AbsentPage(vm: Vm, m: Eager, a: Va)
    requires Refines(vm, m) && Runs(vm, a.pid) && a !in vm.ptes
    ensures m - {a} == m
  {
    assert a !in m;
  }
}
