/** Which frames p5 loses (trap.c:87, vm.c:524-531): a frame is in circulation while it is on the free
    list or mapped, and exactly two kinds of steps take one out for good. */
module CowFrames {
  import opened Cow
  import opened CowRun

  /** The frames that are free or mapped are exactly those of `frames`. */
  ghost predicate Kept(vm: Vm, frames: set<nat>) {
    forall f :: f in frames <==> f in vm.free || Mappings(vm, f) != {}
  }

  /** The only entry of its frame goes while kfree will not see the count reach zero: a fault that copies
      the page although nobody shares it, or an unmapping with a reference left by a failed fork. */
  ghost predicate Leaks(vm: Vm, s: Step)
    requires Can(vm, s)
  {
    match s
    case Fault(a) => vm.free != [] && Mappings(vm, vm.ptes[a].frame) == {a}
    case Drop(a) => Mappings(vm, vm.ptes[a].frame) == {a} && Ref(vm, vm.ptes[a].frame) > 1
    case _ => false
  }

  // ---------------------------------------------------------------- what each step does to the frames

  // One frame goes from the free list to entry a, where none was.
  lemma TakenKept(vm: Vm, v: Vm, a: Va, p: Pte, frames: set<nat>)
    requires FreeOk(vm) && Kept(vm, frames) && vm.free != [] && v.free == vm.free[1..]
    requires a !in vm.ptes && v.ptes == vm.ptes[a := p] && p.frame == vm.free[0]
    ensures Kept(v, frames)
  {
    FreshFrame(vm);
    hide FreeOk;
    forall f ensures f in frames <==> f in v.free || Mappings(v, f) != {} {
      MappingsSet(vm, v, a, p, f);
      assert a !in Mappings(vm, f);
      assert f in vm.free <==> f == vm.free[0] || f in v.free;
    }
  }

  // Entry a goes to a fresh frame: its old one stays if another entry names it.
  lemma CopiedKept(vm: Vm, v: Vm, a: Va, p: Pte, frames: set<nat>)
    requires FreeOk(vm) && Kept(vm, frames) && vm.free != [] && v.free == vm.free[1..]
    requires a in vm.ptes && v.ptes == vm.ptes[a := p] && p.frame == vm.free[0]
    ensures Kept(v, frames) <==> Mappings(vm, vm.ptes[a].frame) != {a}
  {
    var was := vm.ptes[a].frame;
    FreshFrame(vm);
    NotFree(vm, a);
    hide FreeOk;
    forall f ensures f in v.free || Mappings(v, f) != {} <==>
      (f in vm.free || Mappings(vm, f) != {}) && (f == was ==> Mappings(vm, was) != {a})
    {
      MappingsSet(vm, v, a, p, f);
      assert a in Mappings(vm, f) <==> f == was;
      assert f in vm.free <==> f == vm.free[0] || f in v.free;
    }
    assert a in Mappings(vm, was);
  }

  lemma DroppedKept(vm: Vm, a: Va, frames: set<nat>)
    requires FreeOk(vm) && CountsOk(vm) && Kept(vm, frames) && a in vm.ptes
    ensures Unmap(vm, a).Some?
    ensures Kept(Unmap(vm, a).value, frames) <==> !(Mappings(vm, vm.ptes[a].frame) == {a} && Ref(vm, vm.ptes[a].frame) > 1)
  {
    UnmapRuns(vm, a);
    NotFree(vm, a);
    hide CountsOk, CountsBut, FreeOk;
    var v, was := Unmap(vm, a).value, vm.ptes[a].frame;
    forall f ensures f in v.free || Mappings(v, f) != {} <==>
      (f in vm.free || Mappings(vm, f) != {}) && (f == was && f !in v.free ==> Mappings(vm, was) != {a})
    {
      MappingsRemove(vm, v, a, f);
      assert a in Mappings(vm, f) <==> f == was;
      assert f in v.free <==> f in vm.free || (f == was && Ref(vm, was) == 1);
    }
    assert a in Mappings(vm, was);
  }

  // Entries, free list and their frames as before.
  lemma SameKept(vm: Vm, v: Vm, frames: set<nat>)
    requires Kept(vm, frames) && v.free == vm.free && v.ptes.Keys == vm.ptes.Keys
    requires forall a :: a in vm.ptes ==> v.ptes[a].frame == vm.ptes[a].frame
    ensures Kept(v, frames)
  {
    forall f ensures Mappings(v, f) == Mappings(vm, f) {
    }
  }

  lemma BeginForkKept(vm: Vm, parent: nat, child: nat, frames: set<nat>)
    requires Safe(vm) && Can(vm, BeginFork(parent, child)) && Kept(vm, frames)
    ensures Kept(Do(vm, BeginFork(parent, child)).value, frames)
  {
    hide SharingOk, CountsBut, FreeOk, Kept;
    var v := Do(vm, BeginFork(parent, child)).value;
    if vm.free != [] {
      TakenKept(vm, v, RootSlot(child), v.ptes[RootSlot(child)], frames);
    }
  }

  lemma FreshKept(vm: Vm, a: Va, data: Page, frames: set<nat>)
    requires FreeOk(vm) && a !in vm.ptes && Kept(vm, frames)
    ensures Kept(OrSame(MapFresh(vm, a, data), vm), frames)
  {
    hide FreeOk, Kept;
    if vm.free != [] {
      var v := MapFresh(vm, a, data).value;
      TakenKept(vm, v, a, v.ptes[a], frames);
    }
  }

  // The child's entry names the parent's frame.
  lemma SharedKept(vm: Vm, b: Va, p: Pte, on: map<nat, Fork>, a: Va, frames: set<nat>)
    requires Kept(vm, frames) && b !in vm.ptes && a in vm.ptes && vm.ptes[a].frame == p.frame
    ensures Kept(vm.(ptes := vm.ptes[b := p], forking := on), frames)
  {
    var v := vm.(ptes := vm.ptes[b := p], forking := on);
    forall f ensures Mappings(v, f) != {} <==> Mappings(vm, f) != {} {
      MappingsSet(vm, v, b, p, f);
      assert b !in Mappings(vm, f);
      assert f == p.frame ==> a in Mappings(vm, f) && b in Mappings(v, f);
    }
  }

  lemma CopyPageKept(vm: Vm, child: nat, frames: set<nat>)
    requires Safe(vm) && Can(vm, CopyPage(child)) && Kept(vm, frames)
    ensures Kept(ForkPage(vm, child).vm, frames)
  {
    hide FreeOk, SharingOk, CountsBut, ForksOk, Kept, Ref, AsChar;
    var Fork(parent, next) := vm.forking[child];
    var a, b := Va(parent, next), Va(child, next);
    var v := ForkPage(vm, child).vm;
    NextUnmapped(vm, child);
    if a !in vm.ptes {
      SameKept(vm, v, frames);
    } else {
      var counted, d := CountShared(vm, a), DirSlot(b);
      CountSharedContents(vm, a);
      CountSharedFree(vm, a);
      SameKept(vm, counted, frames);
      if d in vm.ptes {
        SharedKept(counted, b, MarkCow(vm.ptes[a]), v.forking, a, frames);
      } else if counted.free == [] {
        SameKept(counted, v, frames);
      } else {
        FreshKept(counted, d, ZERO_PAGE, frames);
        SharedKept(MapFresh(counted, d, ZERO_PAGE).value, b, MarkCow(vm.ptes[a]), v.forking, a, frames);
      }
    }
  }

  /** A step keeps all frames in circulation if and only if it does not leak. */
  lemma StepKeptExactly(vm: Vm, s: Step, frames: set<nat>)
    requires Safe(vm) && Can(vm, s) && Kept(vm, frames)
    ensures Do(vm, s).Some? && (Kept(Do(vm, s).value, frames) <==> !Leaks(vm, s))
  {
    hide SharingOk, CountsBut, ForksOk, FreeOk, Kept, Ref, AsChar, Content, ForkPage;
    match s
    case BeginFork(parent, child) => BeginForkKept(vm, parent, child, frames);
    case CopyPage(child) => CopyPageKept(vm, child, frames);
    case Fault(a) =>
      if vm.free != [] {
        var v := CowCopy(vm, a).value;
        CopiedKept(vm, v, a, v.ptes[a], frames);
      }
    case Grow(a, data) => FreshKept(vm, a, data, frames);
    case Table(a) => FreshKept(vm, a, ZERO_PAGE, frames);
    case Drop(a) => DroppedKept(vm, a, frames);
    case _ => SameKept(vm, Do(vm, s).value, frames);
  }

  // ---------------------------------------------------------------- over runs

  ghost predicate LeaksNone(vm: Vm, ss: seq<Step>)
    requires Legal(vm, ss)
    decreases ss
  {
    ss == [] || (!Leaks(vm, ss[0]) && (Do(vm, ss[0]).Some? ==> LeaksNone(Do(vm, ss[0]).value, ss[1..])))
  }

  /** Every state of the run has the frames in circulation. */
  ghost predicate StaysKept(vm: Vm, ss: seq<Step>, frames: set<nat>)
    requires Legal(vm, ss)
    decreases ss
  {
    Kept(vm, frames) && (ss == [] || (Do(vm, ss[0]).Some? ==> StaysKept(Do(vm, ss[0]).value, ss[1..], frames)))
  }

  lemma NotKept(vm: Vm, ss: seq<Step>, frames: set<nat>)
    requires Legal(vm, ss) && !Kept(vm, frames)
    ensures !StaysKept(vm, ss, frames)
  {
  }

  /** A run that overflows no count keeps all frames in circulation if and only if no step leaks. */
  lemma {:induction false} KeptExactly(vm: Vm, ss: seq<Step>, frames: set<nat>)
    requires Safe(vm) && InRange(vm) && Legal(vm, ss) && Within(vm, ss) && Kept(vm, frames)
    ensures StaysKept(vm, ss, frames) <==> LeaksNone(vm, ss)
    decreases ss
  {
    hide Safe, InRange, Kept, Leaks, Do, Can, Overflows;
    if ss != [] {
      StepSafe(vm, ss[0]);
      StepKeptExactly(vm, ss[0], frames);
      if Leaks(vm, ss[0]) {
        NotKept(Do(vm, ss[0]).value, ss[1..], frames);
      } else {
        KeptExactly(Do(vm, ss[0]).value, ss[1..], frames);
      }
    }
  }

  /** While no fork has failed, the steps that leak are exactly the copy-on-write faults that find a frame
      left and meet a count of 1. */
  lemma LeaksAtOne(vm: Vm, s: Step)
    requires Safe(vm) && Can(vm, s) && vm.failures == 0
    ensures Leaks(vm, s) <==> CopiesAlone(vm, s)
  {
    hide FreeOk, SharingOk, ForksOk;
    if s.Fault? || s.Drop? {
      var f := vm.ptes[s.a].frame;
      assert |Mappings(vm, f)| <= Ref(vm, f) - 0 <= |Mappings(vm, f)| + vm.failures;
      assert s.a in Mappings(vm, f);
      OneElement(Mappings(vm, f), s.a);
    }
  }

  lemma OneElement(s: set<Va>, a: Va)
    requires a in s
    ensures s == {a} <==> |s| == 1
  {
    assert |s - {a}| == |s| - 1;
  }

  /** A copy-on-write fault copies a page to which it has the only reference. */
  predicate CopiesAlone(vm: Vm, s: Step)
    requires Can(vm, s)
  {
    s.Fault? && vm.free != [] && Ref(vm, vm.ptes[s.a].frame) == 1
  }

  predicate CopiesNoneAlone(vm: Vm, ss: seq<Step>)
    requires Legal(vm, ss)
    decreases ss
  {
    ss == [] || (!CopiesAlone(vm, ss[0]) && (Do(vm, ss[0]).Some? ==> CopiesNoneAlone(Do(vm, ss[0]).value, ss[1..])))
  }

  lemma {:induction false} NoFailureIsFew(vm: Vm, ss: seq<Step>)
    requires Legal(vm, ss) && FewFailures(vm, ss, 0)
    ensures FewFailures(vm, ss, CHAR_MAX - NPROC)
    decreases ss
  {
    hide Can, Do;
    if ss != [] && Do(vm, ss[0]).Some? {
      NoFailureIsFew(Do(vm, ss[0]).value, ss[1..]);
    }
  }

  lemma {:induction false} LeaksNoneAtOne(vm: Vm, ss: seq<Step>)
    requires Safe(vm) && InRange(vm) && Legal(vm, ss) && Within(vm, ss) && FewFailures(vm, ss, 0)
    ensures LeaksNone(vm, ss) <==> CopiesNoneAlone(vm, ss)
    decreases ss
  {
    hide Safe, InRange, Do, Can, Overflows, Leaks, CopiesAlone;
    if ss != [] {
      LeaksAtOne(vm, ss[0]);
      StepSafe(vm, ss[0]);
      LeaksNoneAtOne(Do(vm, ss[0]).value, ss[1..]);
    }
  }

  /** A run in which no fork fails keeps all frames in circulation if and only if no copy-on-write fault
      copies a page to which it has the only reference: the guard that the fault handler lacks. */
  lemma KeptExactlyAtOne(vm: Vm, ss: seq<Step>, frames: set<nat>)
    requires Safe(vm) && InRange(vm) && Legal(vm, ss) && FewFailures(vm, ss, 0) && Kept(vm, frames)
    ensures StaysKept(vm, ss, frames) <==> CopiesNoneAlone(vm, ss)
  {
    hide Safe, InRange, Kept;
    NoFailureIsFew(vm, ss);
    FewFailuresSuffice(vm, ss);
    KeptExactly(vm, ss, frames);
    LeaksNoneAtOne(vm, ss);
  }

  /** The frames that are free or mapped. */
  ghost function Circulating(vm: Vm): (frames: set<nat>)
    ensures Kept(vm, frames)
  {
    var frames := (set f | f in vm.free) + (set a | a in vm.ptes :: vm.ptes[a].frame);
    assert forall f :: Mappings(vm, f) != {} <==> exists a :: a in vm.ptes && vm.ptes[a].frame == f by {
      forall a | a in vm.ptes ensures a in Mappings(vm, vm.ptes[a].frame) {}
      forall f | Mappings(vm, f) != {} ensures exists a :: a in vm.ptes && vm.ptes[a].frame == f {
        var a :| a in Mappings(vm, f);
      }
    }
    frames
  }

  /** A frame that was lost is lost for good. */
  lemma LostStaysLost(vm: Vm, s: Step, f: nat)
    requires Safe(vm) && Can(vm, s) && f !in vm.free && Mappings(vm, f) == {}
    ensures Do(vm, s).Some? && f !in Do(vm, s).value.free && Mappings(Do(vm, s).value, f) == {}
  {
    hide SharingOk, CountsBut, ForksOk, FreeOk, Ref, AsChar, Content, ForkPage;
    var frames := Circulating(vm);
    assert f !in frames;
    StepKeptExactly(vm, s, frames);
    if Leaks(vm, s) {
      if s.Fault? {
        var v := CowCopy(vm, s.a).value;
        MappingsSet(vm, v, s.a, v.ptes[s.a], f);
      } else {
        MappingsRemove(vm, Do(vm, s).value, s.a, f);
        assert vm.ptes[s.a].frame != f by { assert s.a in Mappings(vm, vm.ptes[s.a].frame); }
      }
    }
  }

  /** All frames are in circulation at boot. */
  lemma BootKept(frames: seq<nat>, pid: nat)
    ensures Kept(Boot(frames, pid), set f | f in frames)
  {
    assert forall f :: Mappings(Boot(frames, pid), f) == {};
  }
}
