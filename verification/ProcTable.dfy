/** allocproc, exit, wait, wakeup1 and kill (p2/solution/proc.c) as scans of the process table in
    place, each tied to its atomic step in Proc. */
module ProcTable {
  import opened Proc

  datatype Outcome = Returned(value: int) | Slept

  class Table {
    const procs: array<Process>
    const init: int
    var nextpid: int
    ghost var owner: map<int, Resource>

    ghost function State(): Sys
      reads this, procs
    {
      Sys(procs[..], nextpid, init, owner)
    }

    /** The table after userinit; the first entry is init. */
    constructor (n: nat, kstack: int, pgdir: int)
      requires 1 <= n && kstack != 0 && pgdir != 0 && kstack != pgdir
      ensures State() == Boot(n, kstack, pgdir) && Inv(State()) && fresh(procs)
    {
      var none := Process(UNUSED, 0, -1, NoChan, false, 0, 0, User);
      procs := new Process[n](i => if i == 0 then Process(RUNNABLE, 1, -1, NoChan, false, kstack, pgdir, User) else none);
      init, nextpid := 0, 2;
      owner := map[kstack := Stack(0), pgdir := Memory(0)];
      new;
      BootIsSound(n, kstack, pgdir);
      assert procs[..] == Boot(n, kstack, pgdir).t;
    }

    method Wakeup1(c: Chan)
      modifies procs
      ensures procs[..] == Wake(old(procs[..]), c)
      ensures forall k :: 0 <= k < procs.Length ==>
        procs[k] == if old(procs[k]).state == SLEEPING && old(procs[k]).chan == c then old(procs[k]).(state := RUNNABLE) else old(procs[k])
    {
      for i := 0 to procs.Length
        invariant forall k :: 0 <= k < i ==> procs[k] == Woken(old(procs[k]), c)
        invariant forall k :: i <= k < procs.Length ==> procs[k] == old(procs[k])
      {
        if procs[i].state == SLEEPING && procs[i].chan == c {
          procs[i] := procs[i].(state := RUNNABLE);
        }
      }
    }

    /** allocproc's part under the lock, called by fork in process p; z is NPROC when the table is full. */
    method Allocproc(p: int) returns (z: int)
      requires Inv(State()) && Legal(State(), Alloc(p))
      modifies procs, this`nextpid
      ensures State() == Step(old(State()), Alloc(p)) && Inv(State())
      ensures z == FirstUnused(old(procs[..]), 0)
      ensures z == procs.Length ==> State() == old(State()) && forall i :: 0 <= i < procs.Length ==> procs[i].state != UNUSED
      ensures z != procs.Length ==>
        && 0 <= z < procs.Length && old(procs[z]).state == UNUSED && procs[z].state == EMBRYO
        && procs[z].pid == old(nextpid) && nextpid == old(nextpid) + 1
    {
      hide Inv, Legal, FirstUnused;
      ghost var s := State();
      StepKeeps(s, Alloc(p));
      CallerRuns(s, Alloc(p), p);
      z := 0;
      UnusedNext(s.t, 0);
      while z < procs.Length && procs[z].state != UNUSED
        invariant 0 <= z <= procs.Length && procs[..] == s.t && nextpid == s.nextpid
        invariant FirstUnused(s.t, z) == FirstUnused(s.t, 0)
      {
        UnusedNext(s.t, z);
        z := z + 1;
      }
      UnusedNext(s.t, z);
      NoneUnused(s.t, 0);
      AllocSteps(s, p);
      if z < procs.Length {
        procs[z] := procs[z].(state := EMBRYO, pid := nextpid);
        nextpid := nextpid + 1;
        procs[p] := procs[p].(doing := NeedsStack(z));
      }
    }

    /** exit of process p, from acquiring ptable.lock on. */
    method Exit(p: int)
      requires Inv(State()) && Legal(State(), Event.Exit(p))
      modifies procs
      ensures State() == Step(old(State()), Event.Exit(p)) && Inv(State())
      ensures procs[p].state == ZOMBIE && forall i :: 0 <= i < procs.Length ==>
        procs[i].parent == if old(procs[i]).parent == p then init else old(procs[i]).parent
    {
      hide Inv, Legal, HasZombie, Wake, Adopt;
      ghost var s := State();
      StepKeeps(s, Event.Exit(p));
      CallerRuns(s, Event.Exit(p), p);
      Wakeup1(Child(procs[p].parent));
      ghost var a := procs[..];
      PassStart(a, p, init);
      for i := 0 to procs.Length
        invariant procs[..] == Passed(a, i, p, init)
      {
        PassNext(a, i, p, init);
        if procs[i].parent == p {
          procs[i] := procs[i].(parent := init);
          if procs[i].state == ZOMBIE {
            Wakeup1(Child(init));
          }
        }
      }
      PassEnd(a, p, init);
      PassParents(s.t, a, p, init);
      procs[p] := procs[p].(state := ZOMBIE);
    }

    /** kfree and freevm: the requires says that nothing is freed twice. */
    ghost method Release(r: int)
      requires r in owner
      modifies this`owner
      ensures owner == old(owner) - {r}
    {
      owner := owner - {r};
    }

    /** One pass of wait's loop for process p. */
    method Wait(p: int) returns (o: Outcome)
      requires Inv(State()) && Legal(State(), Event.Wait(p))
      modifies procs, this`owner
      ensures State() == Step(old(State()), Event.Wait(p)) && Inv(State())
      ensures var t := old(procs[..]); var z := FirstZombie(t, p, 0);
        o == if z < |t| then Returned(t[z].pid) else if !HasKids(t, p) || At(t, p).killed then Returned(-1) else Slept
      ensures var t := old(procs[..]);
        if exists i :: 0 <= i < |t| && t[i].parent == p && t[i].state == ZOMBIE then
          exists z :: 0 <= z < |t| && t[z].parent == p && t[z].state == ZOMBIE && o == Returned(t[z].pid) && procs[z].state == UNUSED
        else if old(procs[p]).killed || forall i :: 0 <= i < |t| ==> t[i].parent != p then o == Returned(-1)
        else o == Slept && procs[p].state == SLEEPING && procs[p].chan == Child(p)
    {
      hide Inv, Legal, FirstZombie, HasKids, DoWait;
      ghost var s := State();
      StepKeeps(s, Event.Wait(p));
      CallerRuns(s, Event.Wait(p), p);
      var havekids, z := false, 0;
      while z < procs.Length
        invariant 0 <= z <= procs.Length && procs[..] == s.t && owner == s.owner
        invariant FirstZombie(s.t, p, z) == FirstZombie(s.t, p, 0) && havekids == KidBelow(s.t, p, z)
      {
        ZombieNext(s.t, p, z);
        if procs[z].parent == p {
          havekids := true;
          if procs[z].state == ZOMBIE {
            ReapOnce(s, p, z);
            var pid := procs[z].pid;
            Release(procs[z].kstack);
            Release(procs[z].pgdir);
            procs[z] := procs[z].(kstack := 0, pid := 0, parent := -1, killed := false, state := UNUSED);
            procs[p] := procs[p].(doing := User);
            WaitReaps(s, p, z);
            assert owner == s.owner - {s.t[z].kstack, s.t[z].pgdir};
            return Returned(pid);
          }
        }
        z := z + 1;
      }
      ZombieNext(s.t, p, z);
      WaitTurns(s, p);
      if !havekids || procs[p].killed {
        procs[p] := procs[p].(doing := User);
        return Returned(-1);
      }
      procs[p] := procs[p].(state := SLEEPING, chan := Child(p), doing := Waiting);      // sleep(curproc, &ptable.lock)
      o := Slept;
    }

    method Kill(pid: int) returns (r: int)
      requires Inv(State())
      modifies procs
      ensures State() == Step(old(State()), Event.Kill(pid)) && Inv(State())
      ensures r == if exists q :: q in old(procs[..]) && q.pid == pid then 0 else -1
      ensures r == -1 ==> procs[..] == old(procs[..])
      ensures r == 0 ==> exists z :: Marked(old(procs[..]), procs[..], pid, z)
    {
      hide Inv, FirstPid;
      ghost var s := State();
      StepKeeps(s, Event.Kill(pid));
      var z := 0;
      while z < procs.Length
        invariant 0 <= z <= procs.Length && procs[..] == s.t && FirstPid(s.t, pid, z) == FirstPid(s.t, pid, 0)
        invariant forall k :: 0 <= k < z ==> s.t[k].pid != pid
      {
        PidNext(s.t, pid, z);
        if procs[z].pid == pid {
          assert s.t[z] in s.t;
          procs[z] := procs[z].(killed := true);
          if procs[z].state == SLEEPING {
            procs[z] := procs[z].(state := RUNNABLE);
          }
          assert Marked(s.t, procs[..], pid, z);
          return 0;
        }
        z := z + 1;
      }
      PidNext(s.t, pid, z);
      r := -1;
    }
  }

  /** Entry z, which has the pid, is marked killed and does not sleep; the others are as before. */
  predicate Marked(t: seq<Process>, t': seq<Process>, pid: int, z: int) {
    && 0 <= z < |t| == |t'| && t[z].pid == pid
    && t'[z] == t[z].(killed := true, state := if t[z].state == SLEEPING then RUNNABLE else t[z].state)
    && forall k :: 0 <= k < |t| && k != z ==> t'[k] == t[k]
  }

  lemma CallerRuns(s: Sys, e: Event, p: int)
    requires Legal(s, e) && (e == Alloc(p) || e == Exit(p) || e == Wait(p))
    ensures In(s.t, p) && s.t[p].state == RUNNING
  {
  }

  lemma UnusedNext(t: seq<Process>, k: nat)
    ensures FirstUnused(t, k) == if k >= |t| || t[k].state == UNUSED then k else FirstUnused(t, k + 1)
  {
  }

  lemma NoneUnused(t: seq<Process>, k: nat)
    requires k <= |t|
    ensures FirstUnused(t, k) == |t| ==> forall i :: k <= i < |t| ==> t[i].state != UNUSED
    decreases |t| - k
  {
    if k < |t| && t[k].state != UNUSED {
      NoneUnused(t, k + 1);
    }
  }

  lemma AllocSteps(s: Sys, p: int)
    ensures var z := FirstUnused(s.t, 0);
      && (z >= |s.t| ==> Step(s, Alloc(p)) == s)
      && (z < |s.t| ==>
            var t := s.t[z := s.t[z].(state := EMBRYO, pid := s.nextpid)];
            Step(s, Alloc(p)) == s.(t := Set(t, p, At(t, p).(doing := NeedsStack(z))), nextpid := s.nextpid + 1))
  {
    hide FirstUnused;
  }

  lemma PidNext(t: seq<Process>, pid: int, k: nat)
    ensures FirstPid(t, pid, k) == if k >= |t| || t[k].pid == pid then k else FirstPid(t, pid, k + 1)
  {
  }

  predicate KidBelow(t: seq<Process>, p: int, k: int) {
    exists i :: 0 <= i < k && i < |t| && t[i].parent == p
  }

  lemma ZombieNext(t: seq<Process>, p: int, k: nat)
    ensures FirstZombie(t, p, k) == if k >= |t| || ZombieChild(t[k], p) then k else FirstZombie(t, p, k + 1)
    ensures k < |t| ==> (KidBelow(t, p, k + 1) <==> KidBelow(t, p, k) || t[k].parent == p)
    ensures k == |t| ==> (KidBelow(t, p, k) <==> HasKids(t, p))
  {
  }

  lemma ReapOnce(s: Sys, p: int, z: int)
    requires Inv(s) && In(s.t, z) && ZombieChild(s.t[z], p)
    ensures s.t[z].kstack in s.owner && s.t[z].pgdir in s.owner && s.t[z].kstack != s.t[z].pgdir
  {
    hide Makers, Pids, NoMissedExit;
    assert SlotOk(s.t, s.init, z);
  }

  lemma WaitReaps(s: Sys, p: int, z: int)
    requires In(s.t, z) && z == FirstZombie(s.t, p, 0)
    ensures DoWait(s, p) == s.(t := Set(Set(s.t, z, Reaped(s.t[z])), p, At(Set(s.t, z, Reaped(s.t[z])), p).(doing := User)),
                               owner := s.owner - {s.t[z].kstack, s.t[z].pgdir})
  {
    hide FirstZombie;
  }

  lemma WaitTurns(s: Sys, p: int)
    requires FirstZombie(s.t, p, 0) >= |s.t|
    ensures !HasKids(s.t, p) || At(s.t, p).killed ==> DoWait(s, p) == s.(t := Set(s.t, p, At(s.t, p).(doing := User)))
    ensures HasKids(s.t, p) && !At(s.t, p).killed ==>
      DoWait(s, p) == s.(t := Set(s.t, p, At(s.t, p).(state := SLEEPING, chan := Child(p), doing := Waiting)))
  {
    hide FirstZombie, HasKids;
  }

  /** A zombie child of p among the first k entries. */
  predicate ZombieBelow(a: seq<Process>, k: int, p: int) {
    exists i :: 0 <= i < k && i < |a| && ZombieChild(a[i], p)
  }

  /** exit's loop after k entries. */
  function Passed(a: seq<Process>, k: int, p: int, init: int): (r: seq<Process>)
    ensures |r| == |a|
  {
    var w := if ZombieBelow(a, k, p) then Wake(a, Child(init)) else a;
    seq(|a|, i requires 0 <= i < |a| => if i < k then Adopted(w[i], p, init) else w[i])
  }

  lemma PassStart(a: seq<Process>, p: int, init: int)
    ensures Passed(a, 0, p, init) == a
  {
  }

  lemma PassNext(a: seq<Process>, k: nat, p: int, init: int)
    requires k < |a|
    ensures var q := Passed(a, k, p, init); var q' := q[k := q[k].(parent := init)];
      Passed(a, k + 1, p, init) ==
        if q[k].parent != p then q else if q[k].state == ZOMBIE then Wake(q', Child(init)) else q'
  {
    hide ZombieBelow;
    ZombieBelowNext(a, k, p);
    var q := Passed(a, k, p, init);
    var q' := q[k := q[k].(parent := init)];
    var r := if q[k].parent != p then q else if q[k].state == ZOMBIE then Wake(q', Child(init)) else q';
    assert q[k].parent == a[k].parent && (q[k].state == ZOMBIE <==> a[k].state == ZOMBIE);
    forall i | 0 <= i < |a| ensures Passed(a, k + 1, p, init)[i] == r[i] {
      Commutes(a[i], p, init);
      assert Wake(a, Child(init))[i] == Woken(a[i], Child(init));
      assert Wake(q', Child(init))[i] == Woken(q'[i], Child(init));
    }
  }

  lemma Commutes(q: Process, p: int, init: int)
    ensures Adopted(Woken(q, Child(init)), p, init) == Woken(Adopted(q, p, init), Child(init))
    ensures Woken(Woken(q, Child(init)), Child(init)) == Woken(q, Child(init))
  {
  }

  lemma ZombieBelowNext(a: seq<Process>, k: nat, p: int)
    requires k < |a|
    ensures ZombieBelow(a, k + 1, p) <==> ZombieBelow(a, k, p) || ZombieChild(a[k], p)
  {
  }

  lemma PassEnd(a: seq<Process>, p: int, init: int)
    ensures Passed(a, |a|, p, init) == if HasZombie(a, p) then Wake(Adopt(a, p, init), Child(init)) else Adopt(a, p, init)
  {
    hide HasZombie, ZombieBelow;
    ZombieBelowAll(a, p);
    var r := if HasZombie(a, p) then Wake(Adopt(a, p, init), Child(init)) else Adopt(a, p, init);
    forall i | 0 <= i < |a| ensures Passed(a, |a|, p, init)[i] == r[i] {
      Commutes(a[i], p, init);
      assert Wake(a, Child(init))[i] == Woken(a[i], Child(init));
      assert Wake(Adopt(a, p, init), Child(init))[i] == Woken(Adopted(a[i], p, init), Child(init));
    }
  }

  lemma PassParents(t: seq<Process>, a: seq<Process>, p: int, init: int)
    requires In(t, p) && a == Wake(t, Child(t[p].parent))
    ensures forall i :: 0 <= i < |t| ==> Passed(a, |a|, p, init)[i].parent == if t[i].parent == p then init else t[i].parent
  {
    PassEnd(a, p, init);
    hide HasZombie, Passed;
    forall i | 0 <= i < |t| ensures Passed(a, |a|, p, init)[i].parent == if t[i].parent == p then init else t[i].parent {
      assert a[i] == Woken(t[i], Child(t[p].parent));
      assert Adopt(a, p, init)[i] == Adopted(a[i], p, init);
      assert Wake(Adopt(a, p, init), Child(init))[i] == Woken(Adopted(a[i], p, init), Child(init));
    }
  }

  lemma ZombieBelowAll(a: seq<Process>, p: int)
    ensures HasZombie(a, p) <==> ZombieBelow(a, |a|, p)
  {
  }
}
