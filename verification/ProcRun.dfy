/** Laws of whole runs of the process table (p2/solution/proc.c): how long a process sleeps, and how long
    it stays killed. */
module ProcRun {
  import opened Proc

  // ---------------------------------------------------------------- sleep and wakeup

  predicate Asleep(s: Sys, i: int, n: int) {
    In(s.t, i) && s.t[i].state == SLEEPING && s.t[i].chan == Other(n)
  }

  /** kill finds entry i. */
  predicate Hits(s: Sys, e: Event, i: int) {
    e.Kill? && In(s.t, i) && s.t[i].pid == e.pid && forall j :: 0 <= j < i ==> s.t[j].pid != e.pid
  }

  lemma HitIsFirst(t: seq<Process>, pid: int, i: int)
    requires In(t, i)
    ensures FirstPid(t, pid, 0) == i <==> t[i].pid == pid && forall j :: 0 <= j < i ==> t[j].pid != pid
  {
  }

  // The entries that the parts of fork and wait write are neither asleep nor running.
  lemma OthersWritten(s: Sys, e: Event, i: int)
    requires Makers(s.t) && Legal(s, e) && In(s.t, i) && s.t[i].state == SLEEPING
    ensures |Step(s, e).t| == |s.t|
    ensures Step(s, e).t[i].chan == s.t[i].chan
    ensures Step(s, e).t[i].state == SLEEPING || (e.Wakeup? && s.t[i].chan == Other(e.n)) || e.Exit? || Hits(s, e, i)
    ensures e.Exit? && s.t[i].chan.Other? ==> Step(s, e).t[i].state == SLEEPING
    ensures e.Wakeup? && s.t[i].chan == Other(e.n) ==> Step(s, e).t[i].state == RUNNABLE
    ensures Hits(s, e, i) ==> Step(s, e).t[i].state == RUNNABLE && Step(s, e).t[i].killed
  {
    hide DoAlloc, DoStack, DoMemory, DoReady, HasZombie, HasKids;
    match e
    case Kill(pid) => HitIsFirst(s.t, pid, i);
    case Alloc(_) => ForkOthers(s, e, i);
    case GetStack(_, _) => ForkOthers(s, e, i);
    case GetMemory(_, _) => ForkOthers(s, e, i);
    case Ready(_) => ForkOthers(s, e, i);
    case _ =>
  }

  // fork writes the caller and an entry that is not a process yet.
  lemma ForkOthers(s: Sys, e: Event, i: int)
    requires Makers(s.t) && Legal(s, e) && In(s.t, i) && Present(s.t[i]) && (e.Alloc? || e.GetStack? || e.GetMemory? || e.Ready?)
    ensures |Step(s, e).t| == |s.t| && Step(s, e).t[i].state == s.t[i].state && Step(s, e).t[i].chan == s.t[i].chan
  {
    hide FirstUnused;
    assert MakingOk(s.t, e.p);
  }

  // Nothing but its own sleep makes a process sleep on a channel.
  lemma SleepsItself(s: Sys, e: Event, i: int, n: int)
    requires Legal(s, e) && !Asleep(s, i, n) && Asleep(Step(s, e), i, n)
    ensures e == Sleep(i, n)
  {
    hide HasZombie, HasKids, FirstZombie, FirstUnused, FirstPid;
  }

  /** A process sleeps from its own sleep on until a wakeup on its channel, or until it is killed. */
  lemma AsleepExactly(s: Sys, e: Event, i: int, n: int)
    requires Makers(s.t) && Legal(s, e)
    ensures Asleep(Step(s, e), i, n) <==> e == Sleep(i, n) || (Asleep(s, i, n) && e != Wakeup(n) && !Hits(s, e, i))
  {
    if Asleep(s, i, n) {
      OthersWritten(s, e, i);
    } else if Asleep(Step(s, e), i, n) {
      SleepsItself(s, e, i, n);
    }
  }

  /** Whoever sleeps went to sleep after the last wakeup on the channel: a wakeup leaves nobody behind. */
  lemma {:induction false} SleepsSince(s: Sys, es: seq<Event>, i: int, n: int)
    requires Inv(s) && LegalRun(s, es) && Asleep(Run(s, es), i, n) && Wakeup(n) in es
    ensures exists k :: 0 <= k < |es| && es[k] == Sleep(i, n) && Wakeup(n) !in es[k + 1..]
    decreases |es|
  {
    hide Inv, Step, Legal, Asleep;
    var e, rest := es[0], es[1..];
    StepKeeps(s, e);
    if Wakeup(n) in rest {
      SleepsSince(Step(s, e), rest, i, n);
      var k :| 0 <= k < |rest| && rest[k] == Sleep(i, n) && Wakeup(n) !in rest[k + 1..];
      assert es[k + 1] == Sleep(i, n) && es[k + 1 + 1..] == rest[k + 1..];
    } else {
      assert e == Wakeup(n);
      InvMakers(s);
      AsleepExactly(s, e, i, n);
      SleptLater(Step(s, e), rest, i, n);
      var k :| 0 <= k < |rest| && rest[k] == Sleep(i, n);
      assert es[k + 1] == Sleep(i, n) && forall x :: x in es[k + 1 + 1..] ==> x in rest;
    }
  }

  lemma InvMakers(s: Sys)
    requires Inv(s)
    ensures Makers(s.t)
  {
  }

  lemma {:induction false} SleptLater(s: Sys, es: seq<Event>, i: int, n: int)
    requires Inv(s) && LegalRun(s, es) && !Asleep(s, i, n) && Asleep(Run(s, es), i, n)
    ensures exists k :: 0 <= k < |es| && es[k] == Sleep(i, n)
    decreases |es|
  {
    hide Inv, Step, Legal, Asleep;
    StepKeeps(s, es[0]);
    InvMakers(s);
    AsleepExactly(s, es[0], i, n);
    if !Asleep(Step(s, es[0]), i, n) {
      SleptLater(Step(s, es[0]), es[1..], i, n);
      var k :| 0 <= k < |es[1..]| && es[1..][k] == Sleep(i, n);
      assert es[k + 1] == Sleep(i, n);
    } else {
      assert es[0] == Sleep(i, n);
    }
  }

  // ---------------------------------------------------------------- kill

  /** wait takes the entry of the zombie i back. */
  predicate ReapsEntry(s: Sys, e: Event, i: int) {
    e.Wait? && In(s.t, i) && ZombieChild(s.t[i], e.p) && forall j :: 0 <= j < i ==> !ZombieChild(s.t[j], e.p)
  }

  lemma ReapIsFirst(t: seq<Process>, p: int, i: int)
    requires In(t, i)
    ensures FirstZombie(t, p, 0) == i <==> ZombieChild(t[i], p) && forall j :: 0 <= j < i ==> !ZombieChild(t[j], p)
  {
    hide ZombieChild;
  }

  /** Only kill makes a process killed, and only wait, which takes its entry back, ends that. */
  lemma KilledExactly(s: Sys, e: Event, i: int)
    requires Legal(s, e) && In(s.t, i)
    ensures In(Step(s, e).t, i)
    ensures Step(s, e).t[i].killed <==> Hits(s, e, i) || (s.t[i].killed && !ReapsEntry(s, e, i))
  {
    hide DoAlloc, DoStack, DoMemory, DoReady, HasKids, HasZombie;
    match e
    case Kill(pid) => HitIsFirst(s.t, pid, i);
    case Wait(p) => ReapIsFirst(s.t, p, i);
    case Alloc(_) => ForkMarks(s, e, i);
    case GetStack(_, _) => ForkMarks(s, e, i);
    case GetMemory(_, _) => ForkMarks(s, e, i);
    case Ready(_) => ForkMarks(s, e, i);
    case _ =>
  }

  // fork marks nobody.
  lemma ForkMarks(s: Sys, e: Event, i: int)
    requires In(s.t, i) && (e.Alloc? || e.GetStack? || e.GetMemory? || e.Ready?)
    ensures In(Step(s, e).t, i) && Step(s, e).t[i].killed == s.t[i].killed
  {
  }

  /** Some wait of the run takes entry i back. */
  predicate ReapedIn(s: Sys, es: seq<Event>, i: int)
    decreases |es|
  {
    es != [] && (ReapsEntry(s, es[0], i) || ReapedIn(Step(s, es[0]), es[1..], i))
  }

  /** A killed process stays killed until its parent has waited for it. */
  lemma {:induction false} KilledStays(s: Sys, es: seq<Event>, i: int)
    requires LegalRun(s, es) && In(s.t, i) && s.t[i].killed && !ReapedIn(s, es, i)
    ensures In(Run(s, es).t, i) && Run(s, es).t[i].killed
    decreases |es|
  {
    hide Step, Legal, ReapsEntry;
    if es != [] {
      KilledExactly(s, es[0], i);
      KilledStays(Step(s, es[0]), es[1..], i);
    }
  }

  /** No kill of the run hits an entry that is not a process yet. */
  predicate KillsProcesses(s: Sys, es: seq<Event>)
    decreases |es|
  {
    es == [] ||
    ((forall i :: 0 <= i < |s.t| && Hits(s, es[0], i) ==> Present(s.t[i])) && KillsProcesses(Step(s, es[0]), es[1..]))
  }

  predicate NoneMarked(t: seq<Process>) {
    forall i :: 0 <= i < |t| && !Present(t[i]) ==> !t[i].killed
  }

  // A process that ends is reaped before its entry is free.
  lemma StaysPresent(s: Sys, e: Event, i: int)
    requires Makers(s.t) && Slots(s) && Legal(s, e) && In(s.t, i) && Present(s.t[i])
    ensures In(Step(s, e).t, i) && (Present(Step(s, e).t[i]) || ReapsEntry(s, e, i))
  {
    hide DoAlloc, DoStack, DoMemory, DoReady, HasZombie, HasKids;
    match e
    case Wait(p) => ReapIsFirst(s.t, p, i);
    case Alloc(_) => ForkOthers(s, e, i);
    case GetStack(_, _) => ForkOthers(s, e, i);
    case GetMemory(_, _) => ForkOthers(s, e, i);
    case Ready(_) => ForkOthers(s, e, i);
    case _ =>
  }

  /** While kill hits processes only, a new one is born alive: its entry is not marked killed. */
  lemma {:induction false} NewUnmarked(s: Sys, es: seq<Event>)
    requires Inv(s) && LegalRun(s, es) && KillsProcesses(s, es) && NoneMarked(s.t)
    ensures NoneMarked(Run(s, es).t)
    decreases |es|
  {
    hide Inv, Step, Legal, Present, ZombieChild;
    if es != [] {
      StepKeeps(s, es[0]);
      InvParts(s);
      StepSize(s, es[0]);
      forall i | 0 <= i < |s.t| && !Present(Step(s, es[0]).t[i]) ensures !Step(s, es[0]).t[i].killed {
        KilledExactly(s, es[0], i);
        if Present(s.t[i]) {
          StaysPresent(s, es[0], i);
        }
      }
      NewUnmarked(Step(s, es[0]), es[1..]);
    }
  }

  lemma InvParts(s: Sys)
    requires Inv(s)
    ensures Makers(s.t) && Slots(s)
  {
  }

  lemma StepSize(s: Sys, e: Event)
    ensures |Step(s, e).t| == |s.t|
  {
    hide FirstZombie, FirstUnused, FirstPid, HasKids, HasZombie;
  }

  // ---------------------------------------------------------------- fork

  lemma RunTwo(s: Sys, e: Event, f: Event)
    requires Legal(s, e) && Legal(Step(s, e), f)
    ensures LegalRun(s, [e, f]) && Run(s, [e, f]) == Step(Step(s, e), f)
  {
    var s1 := Step(s, e);
    hide Step, Legal;
    assert [e, f][1..] == [f] && [f][1..] == [];
    RunOf(s1, [f], Step(s1, f));
    RunOf(s, [e, f], s1);
    assert Run(Step(s1, f), []) == Step(s1, f);
  }

  lemma RunMore(s: Sys, e: Event, es: seq<Event>)
    requires Legal(s, e) && LegalRun(Step(s, e), es)
    ensures LegalRun(s, [e] + es) && Run(s, [e] + es) == Run(Step(s, e), es)
  {
    assert ([e] + es)[1..] == es;
  }

  /** The first entry that is not in use. */
  predicate FreeEntry(s: Sys, z: int) {
    In(s.t, z) && s.t[z].state == UNUSED && forall j :: 0 <= j < z ==> s.t[j].state != UNUSED
  }

  lemma {:induction false} FreeIsFirst(t: seq<Process>, k: nat, z: int)
    requires k <= z < |t| && t[z].state == UNUSED && forall j :: k <= j < z ==> t[j].state != UNUSED
    ensures FirstUnused(t, k) == z
    decreases z - k
  {
    if k < z {
      FreeIsFirst(t, k + 1, z);
    }
  }

  // The parts of fork on the caller p and the entry z.
  lemma AllocStep(s: Sys, p: int, z: int)
    requires FreeEntry(s, z) && In(s.t, p) && p != z
    ensures Step(s, Alloc(p)) ==
      s.(t := s.t[z := s.t[z].(state := EMBRYO, pid := s.nextpid)][p := s.t[p].(doing := NeedsStack(z))], nextpid := s.nextpid + 1)
  {
    FreeIsFirst(s.t, 0, z);
    hide FirstUnused;
  }

  lemma StackStep(s: Sys, p: int, z: int, k: int)
    requires In(s.t, p) && In(s.t, z) && p != z && s.t[p].doing == NeedsStack(z)
    ensures Step(s, GetStack(p, k)) ==
      if k == 0 then s.(t := s.t[z := s.t[z].(state := UNUSED)][p := s.t[p].(doing := User)])
      else s.(t := s.t[z := s.t[z].(kstack := k)][p := s.t[p].(doing := NeedsMemory(z))], owner := s.owner[k := Stack(z)])
  {
  }

  lemma MemoryStep(s: Sys, p: int, z: int, m: int)
    requires In(s.t, p) && In(s.t, z) && p != z && s.t[p].doing == NeedsMemory(z)
    ensures Step(s, GetMemory(p, m)) ==
      if m == 0 then s.(t := s.t[z := s.t[z].(kstack := 0, pgdir := 0, state := UNUSED)][p := s.t[p].(doing := User)],
                        owner := s.owner - {s.t[z].kstack})
      else s.(t := s.t[z := s.t[z].(pgdir := m, parent := p)][p := s.t[p].(doing := NeedsReady(z))], owner := s.owner[m := Memory(z)])
  {
  }

  lemma ReadyStep(s: Sys, p: int, z: int)
    requires In(s.t, p) && In(s.t, z) && p != z && s.t[p].doing == NeedsReady(z)
    ensures Step(s, Ready(p)) == s.(t := s.t[z := s.t[z].(state := RUNNABLE)][p := s.t[p].(doing := User)])
  {
  }

  // Only the entries z and p are written, and p ends as it began.
  lemma Only(t: seq<Process>, z: int, q: Process, p: int)
    requires In(t, z) && In(t, p) && p != z
    ensures t[z := q][p := t[p]] == t[z := q]
  {
  }

  /** fork undisturbed, with memory for the stack and the pages: one new process, runnable, a child of p
      with the next pid, and nothing else changes. */
  lemma ForkMakesChild(s: Sys, p: int, z: int, k: int, m: int)
    requires Runs(s, p) && s.t[p].doing == User && FreeEntry(s, z)
    requires k != 0 && m != 0 && k != m && k !in s.owner && m !in s.owner
    ensures var es := [Alloc(p), GetStack(p, k), GetMemory(p, m), Ready(p)];
      LegalRun(s, es) &&
      Run(s, es) == s.(t := s.t[z := s.t[z].(state := RUNNABLE, pid := s.nextpid, parent := p, kstack := k, pgdir := m)],
                       nextpid := s.nextpid + 1, owner := s.owner[k := Stack(z)][m := Memory(z)])
  {
    hide Step, LegalRun, Run;
    var s1, s2, s3 := Step(s, Alloc(p)), Step(Step(s, Alloc(p)), GetStack(p, k)), Step(Step(Step(s, Alloc(p)), GetStack(p, k)), GetMemory(p, m));
    AllocStep(s, p, z);
    StackStep(s1, p, z, k);
    MemoryStep(s2, p, z, m);
    ReadyStep(s3, p, z);
    Only(s.t, z, Step(s3, Ready(p)).t[z], p);
    assert Step(s3, Ready(p)).t == s.t[z := s.t[z].(state := RUNNABLE, pid := s.nextpid, parent := p, kstack := k, pgdir := m)];
    RunTwo(s2, GetMemory(p, m), Ready(p));
    RunMore(s1, GetStack(p, k), [GetMemory(p, m), Ready(p)]);
    RunMore(s, Alloc(p), [GetStack(p, k)] + [GetMemory(p, m), Ready(p)]);
    assert [Alloc(p), GetStack(p, k), GetMemory(p, m), Ready(p)] == [Alloc(p)] + ([GetStack(p, k)] + [GetMemory(p, m), Ready(p)]);
  }

  /** fork without memory for the stack: the entry is free again, but for its pid. */
  lemma StackFails(s: Sys, p: int, z: int)
    requires Runs(s, p) && s.t[p].doing == User && FreeEntry(s, z) && 0 !in s.owner
    ensures LegalRun(s, [Alloc(p), GetStack(p, 0)])
    ensures Run(s, [Alloc(p), GetStack(p, 0)]) == s.(t := s.t[z := s.t[z].(pid := s.nextpid)], nextpid := s.nextpid + 1)
  {
    hide Step, LegalRun, Run;
    var s1 := Step(s, Alloc(p));
    AllocStep(s, p, z);
    StackStep(s1, p, z, 0);
    assert Step(s1, GetStack(p, 0)).t == s.t[z := s.t[z].(pid := s.nextpid)];
    RunTwo(s, Alloc(p), GetStack(p, 0));
  }

  /** fork without memory for the pages: the stack is given back as well. */
  lemma MemoryFails(s: Sys, p: int, z: int, k: int)
    requires Runs(s, p) && s.t[p].doing == User && FreeEntry(s, z) && k != 0 && k !in s.owner && 0 !in s.owner
    ensures var es := [Alloc(p), GetStack(p, k), GetMemory(p, 0)];
      LegalRun(s, es) &&
      Run(s, es) == s.(t := s.t[z := s.t[z].(pid := s.nextpid, kstack := 0, pgdir := 0)], nextpid := s.nextpid + 1)
  {
    hide Step, LegalRun, Run;
    var s1, s2 := Step(s, Alloc(p)), Step(Step(s, Alloc(p)), GetStack(p, k));
    AllocStep(s, p, z);
    StackStep(s1, p, z, k);
    MemoryStep(s2, p, z, 0);
    assert Step(s2, GetMemory(p, 0)).t == s.t[z := s.t[z].(pid := s.nextpid, kstack := 0, pgdir := 0)];
    assert s.owner[k := Stack(z)] - {k} == s.owner;
    RunTwo(s1, GetStack(p, k), GetMemory(p, 0));
    RunMore(s, Alloc(p), [GetStack(p, k), GetMemory(p, 0)]);
    assert [Alloc(p), GetStack(p, k), GetMemory(p, 0)] == [Alloc(p)] + [GetStack(p, k), GetMemory(p, 0)];
  }

  /** kill(0) is answered with success although no process has pid 0: it marks the first entry that was
      never used, and the process that fork makes there starts killed. */
  lemma BornKilled(n: nat, kstack: int, pgdir: int)
    requires 2 <= n && kstack != 0 && pgdir != 0 && kstack != pgdir
    ensures var s, es := Boot(n, kstack, pgdir), [Dispatch(0), Kill(0), Alloc(0)];
      && Inv(s) && LegalRun(s, es)
      && In(Run(s, es).t, 1) && Run(s, es).t[1].state == EMBRYO && Run(s, es).t[1].pid == 2 && Run(s, es).t[1].killed
  {
    BootIsSound(n, kstack, pgdir);
    hide Inv;
    var s, es := Boot(n, kstack, pgdir), [Dispatch(0), Kill(0), Alloc(0)];
    var s1 := Step(s, es[0]);
    HitIsFirst(s1.t, 0, 1);
    var s2 := Step(s1, es[1]);
    assert FirstUnused(s2.t, 0) == FirstUnused(s2.t, 1) == 1;
    var s3 := Step(s2, es[2]);
    assert es[1..] == [Kill(0), Alloc(0)] && es[1..][1..] == [Alloc(0)] && [Alloc(0)][1..] == [];
    RunOf(s, es, s1);
    RunOf(s1, es[1..], s2);
    RunOf(s2, [Alloc(0)], s3);
    assert Run(s3, []) == s3 && LegalRun(s3, []);
  }

  lemma RunOf(s: Sys, es: seq<Event>, s': Sys)
    requires es != [] && Legal(s, es[0]) && s' == Step(s, es[0])
    ensures Run(s, es) == Run(s', es[1..]) && (LegalRun(s', es[1..]) ==> LegalRun(s, es))
  {
  }
}
