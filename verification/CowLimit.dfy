/** Two runs of p5 that go wrong: forks that fail for memory leave references behind until kfree
    panics (kalloc.c:13), and two writers of a shared page lose a frame (trap.c:87). */
module CowLimit {
  import opened Cow
  import opened CowRun
  import opened CowFrames

  lemma OneStep(vm: Vm, s: Step, more: seq<Step>)
    requires Can(vm, s) && Do(vm, s).Some?
    ensures Legal(vm, [s] + more) <==> Legal(Do(vm, s).value, more)
    ensures Legal(Do(vm, s).value, more) ==> Run(vm, [s] + more) == Run(Do(vm, s).value, more)
  {
    assert ([s] + more)[1..] == more;
  }

  /** pid is alone, page 0 of it has n references, and x is the only free frame. */
  predicate Poised(vm: Vm, pid: nat, x: nat, n: int) {
    && vm.free == [x] && vm.procs == {pid} && vm.forking == map[]
    && (forall a :: a in vm.ptes ==> a.pid == pid)
    && Va(pid, 0) in vm.ptes && vm.ptes[Va(pid, 0)].frame != x
    && Ref(vm, vm.ptes[Va(pid, 0)].frame) == n
  }

  /** A fork at which the frame x went to the child's directory: page 0 is counted, the child's page
      table cannot be had, and pid runs on. */
  predicate Failed(vm: Vm, pid: nat, child: nat, x: nat, n: int) {
    && vm.free == [] && vm.procs == {pid, child} && vm.forking == map[]
    && (forall a :: a in vm.ptes && a != RootSlot(child) ==> a.pid == pid)
    && RootSlot(child) in vm.ptes && vm.ptes[RootSlot(child)].frame == x && Ref(vm, x) == 1
    && Va(pid, 0) in vm.ptes && vm.ptes[Va(pid, 0)].frame != x
    && Ref(vm, vm.ptes[Va(pid, 0)].frame) == n
  }

  function FailingFork(pid: nat, child: nat, more: seq<Step>): seq<Step> {
    [BeginFork(pid, child)] + ([CopyPage(child)] + more)
  }

  function CleanUp(child: nat, more: seq<Step>): seq<Step> {
    [Drop(RootSlot(child))] + ([Reap(child)] + more)
  }

  lemma FailingForkRuns(vm: Vm, pid: nat, child: nat, x: nat, n: int) returns (v: Vm)
    requires Poised(vm, pid, x, n) && pid != child
    ensures Failed(v, pid, child, x, AsChar(n + 1))
    ensures forall more :: Legal(v, more) ==>
      Legal(vm, FailingFork(pid, child, more)) && Run(vm, FailingFork(pid, child, more)) == Run(v, more)
  {
    hide Legal, Run;
    assert Can(vm, BeginFork(pid, child));
    var u := Do(vm, BeginFork(pid, child)).value;
    assert u.free == [] && u.forking == map[child := Fork(pid, 0)];
    assert Can(u, CopyPage(child));
    v := Do(u, CopyPage(child)).value;
    assert v.forking == map[];
    forall more | Legal(v, more)
      ensures Legal(vm, FailingFork(pid, child, more)) && Run(vm, FailingFork(pid, child, more)) == Run(v, more)
    {
      OneStep(u, CopyPage(child), more);
      OneStep(vm, BeginFork(pid, child), [CopyPage(child)] + more);
    }
  }

  lemma CleanUpRuns(vm: Vm, pid: nat, child: nat, x: nat, n: int) returns (v: Vm)
    requires Failed(vm, pid, child, x, n) && pid != child
    ensures Poised(v, pid, x, n)
    ensures forall more :: Legal(v, more) ==>
      Legal(vm, CleanUp(child, more)) && Run(vm, CleanUp(child, more)) == Run(v, more)
  {
    hide Legal, Run;
    assert Can(vm, Drop(RootSlot(child)));
    var u := Do(vm, Drop(RootSlot(child))).value;
    assert u.free == [x];
    assert Can(u, Reap(child));
    v := Do(u, Reap(child)).value;
    assert v.procs == {pid};
    forall more | Legal(v, more)
      ensures Legal(vm, CleanUp(child, more)) && Run(vm, CleanUp(child, more)) == Run(v, more)
    {
      OneStep(u, Reap(child), more);
      OneStep(vm, Drop(RootSlot(child)), [Reap(child)] + more);
    }
  }

  // From n references on: failed forks up to the limit and one beyond it, and page 0 is dropped.
  lemma {:induction false} LeaksToPanic(vm: Vm, pid: nat, child: nat, x: nat, n: nat) returns (ss: seq<Step>)
    requires Poised(vm, pid, x, n) && 1 <= n <= CHAR_MAX && pid != child
    ensures Legal(vm, ss) && Run(vm, ss).None?
    decreases CHAR_MAX - n
  {
    hide Legal, Run, Poised, Failed, FailingFork, CleanUp;
    var v := FailingForkRuns(vm, pid, child, x, n);
    var rest;
    if n == CHAR_MAX {
      rest := [Drop(Va(pid, 0))];
      DropPanics(v, pid, child, x);
    } else {
      assert AsChar(n + 1) == n + 1;
      var w := CleanUpRuns(v, pid, child, x, n + 1);
      var more := LeaksToPanic(w, pid, child, x, n + 1);
      rest := CleanUp(child, more);
    }
    ss := FailingFork(pid, child, rest);
  }

  lemma DropPanics(vm: Vm, pid: nat, child: nat, x: nat)
    requires Failed(vm, pid, child, x, AsChar(CHAR_MAX + 1))
    ensures Legal(vm, [Drop(Va(pid, 0))]) && Run(vm, [Drop(Va(pid, 0))]).None?
  {
    assert Can(vm, Drop(Va(pid, 0)));
    assert Ref(vm, vm.ptes[Va(pid, 0)].frame) < 0;
  }

  function FirstPage(pid: nat, data: Page, more: seq<Step>): seq<Step> {
    [Table(RootSlot(pid))] + ([Table(DirSlot(Va(pid, 0)))] + ([Grow(Va(pid, 0), data)] + more))
  }

  // A process with one page and its tables.
  lemma FirstPageRuns(frames: seq<nat>, pid: nat, data: Page) returns (v: Vm)
    requires |frames| >= 4 && forall i, j :: 0 <= i < j < |frames| ==> frames[i] != frames[j]
    ensures v.free == frames[3..] && v.procs == {pid} && v.forking == map[] && v.failures == 0
    ensures v.ptes.Keys == {RootSlot(pid), DirSlot(Va(pid, 0)), Va(pid, 0)}
    ensures v.ptes[Va(pid, 0)] == Pte(frames[2], true, true, false) && Ref(v, frames[2]) == 1
    ensures v.ptes[RootSlot(pid)].frame == frames[0] && v.ptes[DirSlot(Va(pid, 0))].frame == frames[1]
    ensures forall more :: Legal(v, more) ==>
      && Legal(Boot(frames, pid), FirstPage(pid, data, more))
      && Run(Boot(frames, pid), FirstPage(pid, data, more)) == Run(v, more)
  {
    hide Legal, Run;
    var s0, root, dir, page := Boot(frames, pid), RootSlot(pid), DirSlot(Va(pid, 0)), Va(pid, 0);
    var s1 := Do(s0, Table(root)).value;
    assert s1.free == frames[1..];
    var s2 := Do(s1, Table(dir)).value;
    assert s2.free == frames[2..];
    v := Do(s2, Grow(page, data)).value;
    assert v.free == frames[3..];
    forall more | Legal(v, more)
      ensures Legal(s0, FirstPage(pid, data, more)) && Run(s0, FirstPage(pid, data, more)) == Run(v, more)
    {
      OneStep(s2, Grow(page, data), more);
      OneStep(s1, Table(dir), [Grow(page, data)] + more);
      OneStep(s0, Table(root), [Table(dir)] + ([Grow(page, data)] + more));
    }
  }

  /** A run from boot that panics: a process with one page, four frames in all, and 127 forks that
      find no frame for the child's page table. */
  lemma FailedForksPanic(frames: seq<nat>, pid: nat, child: nat, data: Page) returns (ss: seq<Step>)
    requires |frames| == 4 && forall i, j :: 0 <= i < j < |frames| ==> frames[i] != frames[j]
    requires pid != child
    ensures Legal(Boot(frames, pid), ss) && Run(Boot(frames, pid), ss).None?
    ensures !Within(Boot(frames, pid), ss)
  {
    hide Legal, Run, Within, Poised, FirstPage;
    var v := FirstPageRuns(frames, pid, data);
    OneFrameLeft(v, frames, pid);
    var rest := LeaksToPanic(v, pid, child, frames[3], 1);
    ss := FirstPage(pid, data, rest);
    BootSafe(frames, pid);
    if Within(Boot(frames, pid), ss) {
      CowRefinesEager(Boot(frames, pid), imap[], ss);
      assert false;
    }
  }

  lemma OneFrameLeft(v: Vm, frames: seq<nat>, pid: nat)
    requires |frames| == 4 && forall i, j :: 0 <= i < j < |frames| ==> frames[i] != frames[j]
    requires v.free == frames[3..] && v.procs == {pid} && v.forking == map[]
    requires v.ptes.Keys == {RootSlot(pid), DirSlot(Va(pid, 0)), Va(pid, 0)}
    requires v.ptes[Va(pid, 0)].frame == frames[2] && Ref(v, frames[2]) == 1
    ensures Poised(v, pid, frames[3], 1)
  {
    forall a | a in v.ptes ensures a.pid == pid {
      assert a in v.ptes.Keys;
    }
  }

  // ---------------------------------------------------------------- a lost frame

  /** Page 0 of pid, in frame f, is shared with its child, and no other user pages of pid are there. */
  predicate Sharing(vm: Vm, pid: nat, child: nat, f: nat) {
    && pid != child && vm.failures == 0
    && Va(pid, 0) in vm.ptes && Va(child, 0) in vm.ptes
    && vm.ptes[Va(pid, 0)].frame == f == vm.ptes[Va(child, 0)].frame
    && vm.ptes[Va(pid, 0)].cow && vm.ptes[Va(child, 0)].cow
    && (forall a :: a in vm.ptes && a.pid == pid && a.vpn < USER_PAGES ==> a.vpn == 0)
    && (forall a :: a in vm.ptes && vm.ptes[a].frame == f ==> a == Va(pid, 0) || a == Va(child, 0))
    && Ref(vm, f) == 2
  }

  // The rest of copyuvm's loop finds no more pages.
  lemma {:induction false} RestOfFork(vm: Vm, pid: nat, child: nat, f: nat, next: nat) returns (ss: seq<Step>, v: Vm)
    requires Sharing(vm, pid, child, f) && vm.forking == map[child := Fork(pid, next)] && 1 <= next <= USER_PAGES
    ensures v == vm.(forking := map[])
    ensures forall more :: Legal(v, more) ==> Legal(vm, ss + more) && Run(vm, ss + more) == Run(v, more)
    decreases USER_PAGES - next
  {
    hide Legal, Run;
    var s, tail;
    if next == USER_PAGES {
      s, tail, v := EndFork(child), [], vm.(forking := map[]);
      assert vm.forking - {child} == map[];
    } else {
      s := CopyPage(child);
      assert Va(pid, next) !in vm.ptes;
      assert vm.forking[child := Fork(pid, next + 1)] == map[child := Fork(pid, next + 1)];
      tail, v := RestOfFork(Do(vm, s).value, pid, child, f, next + 1);
    }
    ss := [s] + tail;
    var u := Do(vm, s).value;
    forall more | Legal(v, more) ensures Legal(vm, ss + more) && Run(vm, ss + more) == Run(v, more) {
      assert tail == [] ==> tail + more == more;
      OneStep(vm, s, tail + more);
      assert [s] + (tail + more) == ss + more;
    }
  }

  // What FirstPageRuns leads to with seven frames.
  predicate OnePage(vm: Vm, pid: nat, frames: seq<nat>) {
    && |frames| == 7 && (forall i, j :: 0 <= i < j < |frames| ==> frames[i] != frames[j])
    && vm.free == frames[3..] && vm.procs == {pid} && vm.forking == map[] && vm.failures == 0
    && vm.ptes.Keys == {RootSlot(pid), DirSlot(Va(pid, 0)), Va(pid, 0)}
    && vm.ptes[Va(pid, 0)] == Pte(frames[2], true, true, false) && Ref(vm, frames[2]) == 1
    && vm.ptes[RootSlot(pid)].frame != frames[2] && vm.ptes[DirSlot(Va(pid, 0))].frame != frames[2]
  }

  lemma ForkBegins(vm: Vm, pid: nat, child: nat, frames: seq<nat>)
    requires OnePage(vm, pid, frames) && pid != child
    ensures Can(vm, BeginFork(pid, child)) && Do(vm, BeginFork(pid, child)).Some?
    ensures var u := Do(vm, BeginFork(pid, child)).value;
      && u.free == frames[4..] && u.forking == map[child := Fork(pid, 0)] && u.failures == 0
      && u.ptes == vm.ptes[RootSlot(child) := Pte(frames[3], true, true, false)] && Ref(u, frames[2]) == 1
  {
  }

  // One page is shared; the child's page table gets the frame x.
  lemma PageCounted(u: Vm, pid: nat, child: nat, f: nat, x: nat)
    requires pid != child && u.forking == map[child := Fork(pid, 0)] && u.free != [] && u.free[0] == x != f
    requires Va(pid, 0) in u.ptes && u.ptes[Va(pid, 0)] == Pte(f, true, true, false) && Ref(u, f) == 1
    requires DirSlot(Va(child, 0)) !in u.ptes
    ensures Can(u, CopyPage(child)) && Do(u, CopyPage(child)).Some?
    ensures var w := Do(u, CopyPage(child)).value;
      && w.forking == map[child := Fork(pid, 1)] && w.free == u.free[1..] && w.failures == u.failures && Ref(w, f) == 2
      && w.ptes == u.ptes[Va(pid, 0) := Pte(f, false, true, true)][DirSlot(Va(child, 0)) := Pte(x, true, true, false)]
                         [Va(child, 0) := Pte(f, false, true, true)]
  {
    hide Content;
    assert DirSlot(Va(child, 0)) != Va(pid, 0);
  }

  lemma PageShared(vm: Vm, u: Vm, pid: nat, child: nat, frames: seq<nat>)
    requires OnePage(vm, pid, frames) && pid != child
    requires u.free == frames[4..] && u.forking == map[child := Fork(pid, 0)] && u.failures == 0
    requires u.ptes == vm.ptes[RootSlot(child) := Pte(frames[3], true, true, false)] && Ref(u, frames[2]) == 1
    ensures Can(u, CopyPage(child)) && Do(u, CopyPage(child)).Some?
    ensures var w := Do(u, CopyPage(child)).value;
      Sharing(w, pid, child, frames[2]) && w.forking == map[child := Fork(pid, 1)] && w.free == frames[5..]
  {
    hide Can, Do, Ref;
    forall a | a in vm.ptes ensures a == RootSlot(pid) || a == DirSlot(Va(pid, 0)) || a == Va(pid, 0) {
      assert a in vm.ptes.Keys;
    }
    assert Va(pid, 0) in vm.ptes.Keys;
    PageCounted(u, pid, child, frames[2], frames[4]);
  }

  // The fork of a process with one page.
  lemma ForkRuns(vm: Vm, pid: nat, child: nat, frames: seq<nat>) returns (ss: seq<Step>, v: Vm)
    requires OnePage(vm, pid, frames) && pid != child && |frames| == 7
    ensures Sharing(v, pid, child, frames[2]) && v.forking == map[] && v.free == frames[5..]
    ensures forall more :: Legal(v, more) ==> Legal(vm, ss + more) && Run(vm, ss + more) == Run(v, more)
  {
    hide Legal, Run, OnePage, Sharing, Can, Do;
    ForkBegins(vm, pid, child, frames);
    var u := Do(vm, BeginFork(pid, child)).value;
    PageShared(vm, u, pid, child, frames);
    var w := Do(u, CopyPage(child)).value;
    var rest;
    rest, v := RestOfFork(w, pid, child, frames[2], 1);
    StillSharing(w, pid, child, frames[2]);
    ss := [BeginFork(pid, child), CopyPage(child)] + rest;
    forall more | Legal(v, more) ensures Legal(vm, ss + more) && Run(vm, ss + more) == Run(v, more) {
      OneStep(u, CopyPage(child), rest + more);
      OneStep(vm, BeginFork(pid, child), [CopyPage(child)] + (rest + more));
      assert [BeginFork(pid, child)] + ([CopyPage(child)] + (rest + more)) == ss + more;
    }
  }

  lemma StillSharing(vm: Vm, pid: nat, child: nat, f: nat)
    requires Sharing(vm, pid, child, f)
    ensures Sharing(vm.(forking := map[]), pid, child, f)
  {
  }

  // Both sharers store into the page: the second fault copies a page that nobody shares any more.
  lemma BothWrite(vm: Vm, pid: nat, child: nat, f: nat, x: nat, y: nat) returns (ss: seq<Step>, v: Vm)
    requires Sharing(vm, pid, child, f) && vm.forking == map[] && vm.free == [x, y] && x != y && x != f && y != f
    ensures Legal(vm, ss) && Run(vm, ss) == Some(v) && v.failures == 0
    ensures f !in v.free && Mappings(v, f) == {}
  {
    hide Content;
    var a, b := Va(pid, 0), Va(child, 0);
    assert Can(vm, Fault(a));
    var u := Do(vm, Fault(a)).value;
    assert u.free == [y] && Ref(u, f) == 1;
    assert Can(u, Fault(b));
    v := Do(u, Fault(b)).value;
    assert v.free == [];
    forall c | c in v.ptes ensures v.ptes[c].frame != f {
      if c != a && c != b {
        assert c in vm.ptes;
      }
    }
    ss := [Fault(a)] + ([Fault(b)] + []);
    OneStep(u, Fault(b), []);
    OneStep(vm, Fault(a), [Fault(b)] + []);
  }

  /** A run from boot that loses a frame although no fork fails: a process with one page forks, and both
      write to the page. */
  lemma TwoWritersLoseFrame(frames: seq<nat>, pid: nat, child: nat, data: Page) returns (ss: seq<Step>, v: Vm)
    requires |frames| == 7 && forall i, j :: 0 <= i < j < |frames| ==> frames[i] != frames[j]
    requires pid != child
    ensures Legal(Boot(frames, pid), ss) && Run(Boot(frames, pid), ss) == Some(v) && v.failures == 0
    ensures frames[2] !in v.free && Mappings(v, frames[2]) == {}
  {
    hide Legal, Run, FirstPage, Sharing;
    var w := FirstPageRuns(frames, pid, data);
    var fork, u := ForkRuns(w, pid, child, frames);
    assert u.free == [frames[5], frames[6]];
    var writes;
    writes, v := BothWrite(u, pid, child, frames[2], frames[5], frames[6]);
    ss := FirstPage(pid, data, fork + writes);
  }
}
