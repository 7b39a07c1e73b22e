/** The process table (p2/solution/proc.c): fork, exit, wait, sleep, wakeup and kill as atomic
    steps of any number of processes, and what every interleaving of them keeps. */
module Proc {

  datatype State = UNUSED | EMBRYO | SLEEPING | RUNNABLE | RUNNING | ZOMBIE

  /** What a process sleeps on: a process, for wait, or something else. */
  datatype Chan = NoChan | Child(p: int) | Other(n: int)

  /** Where a process stands in the kernel: between fork's three unlocked parts, or in wait. */
  datatype Doing = User | NeedsStack(np: int) | NeedsMemory(np: int) | NeedsReady(np: int) | Waiting

  /** A struct proc; parent is a table index or -1, kstack and pgdir are 0 or name what was allocated. */
  datatype Process = Process(state: State, pid: int, parent: int, chan: Chan, killed: bool, kstack: int, pgdir: int, doing: Doing)

  datatype Resource = Stack(i: int) | Memory(i: int)

  /** `owner` says for every kernel stack and page table in use whose it is. */
  datatype Sys = Sys(t: seq<Process>, nextpid: int, init: int, owner: map<int, Resource>)

  predicate In(t: seq<Process>, i: int) {
    0 <= i < |t|
  }

  predicate Alive(p: Process) {
    p.state == SLEEPING || p.state == RUNNABLE || p.state == RUNNING
  }

  predicate Present(p: Process) {
    Alive(p) || p.state == ZOMBIE
  }

  predicate Making(p: Process) {
    p.doing.NeedsStack? || p.doing.NeedsMemory? || p.doing.NeedsReady?
  }

  predicate OwnsMemory(p: Process) {
    Present(p) || (p.state == EMBRYO && p.parent != -1)
  }

  // ---------------------------------------------------------------- the locked steps

  function Woken(p: Process, c: Chan): Process {
    if p.state == SLEEPING && p.chan == c then p.(state := RUNNABLE) else p
  }

  /** wakeup1(c). */
  function Wake(t: seq<Process>, c: Chan): (r: seq<Process>)
    ensures |r| == |t|
  {
    seq(|t|, i requires 0 <= i < |t| => Woken(t[i], c))
  }

  function Adopted(q: Process, p: int, init: int): Process {
    if q.parent == p then q.(parent := init) else q
  }

  /** p's children passed to init. */
  function Adopt(t: seq<Process>, p: int, init: int): (r: seq<Process>)
    ensures |r| == |t|
  {
    seq(|t|, i requires 0 <= i < |t| => Adopted(t[i], p, init))
  }

  predicate ZombieChild(q: Process, p: int) {
    q.parent == p && q.state == ZOMBIE
  }

  predicate HasZombie(t: seq<Process>, p: int) {
    exists i :: 0 <= i < |t| && ZombieChild(t[i], p)
  }

  predicate HasKids(t: seq<Process>, p: int) {
    exists i :: 0 <= i < |t| && t[i].parent == p
  }

  /** exit, from acquiring ptable.lock on. */
  function ExitTable(t: seq<Process>, p: int, init: int): (r: seq<Process>)
    requires 0 <= p < |t|
    ensures |r| == |t|
  {
    var a := Wake(t, Child(t[p].parent));
    var b := Adopt(a, p, init);
    var c := if HasZombie(a, p) then Wake(b, Child(init)) else b;
    c[p := c[p].(state := ZOMBIE)]
  }

  /** The first zombie child of p from index k on, or the end of the table. */
  function FirstZombie(t: seq<Process>, p: int, k: nat): (z: nat)
    ensures k <= |t| ==> k <= z <= |t| && (z < |t| ==> ZombieChild(t[z], p)) && forall i :: k <= i < z ==> !ZombieChild(t[i], p)
    decreases |t| - k
  {
    if k >= |t| || ZombieChild(t[k], p) then k else FirstZombie(t, p, k + 1)
  }

  function FirstUnused(t: seq<Process>, k: nat): (z: nat)
    ensures k <= |t| ==> k <= z <= |t| && (z < |t| ==> t[z].state == UNUSED)
    decreases |t| - k
  {
    if k >= |t| || t[k].state == UNUSED then k else FirstUnused(t, k + 1)
  }

  function FirstPid(t: seq<Process>, pid: int, k: nat): (z: nat)
    ensures k <= |t| ==> k <= z <= |t| && (z < |t| ==> t[z].pid == pid) && forall i :: k <= i < z ==> t[i].pid != pid
    decreases |t| - k
  {
    if k >= |t| || t[k].pid == pid then k else FirstPid(t, pid, k + 1)
  }

  /** The slot as wait leaves it; p->pgdir dangles. */
  function Reaped(q: Process): Process {
    q.(kstack := 0, pid := 0, parent := -1, killed := false, state := UNUSED)
  }

  function KillAt(q: Process): Process {
    if q.state == SLEEPING then q.(killed := true, state := RUNNABLE) else q.(killed := true)
  }

  // ---------------------------------------------------------------- steps

  datatype Event =
    | Dispatch(p: int) | Yield(p: int) | Sleep(p: int, n: int) | Wakeup(n: int)
    | Alloc(p: int)                      // fork: allocproc's part under the lock
    | GetStack(p: int, k: int)           // kalloc for the stack, 0 when memory is out
    | GetMemory(p: int, m: int)          // copyuvm, 0 when memory is out
    | Ready(p: int)
    | Exit(p: int) | Wait(p: int) | Kill(pid: int)

  predicate Runs(s: Sys, p: int) {
    In(s.t, p) && s.t[p].state == RUNNING
  }

  predicate Legal(s: Sys, e: Event) {
    match e
    case Dispatch(p) => In(s.t, p) && s.t[p].state == RUNNABLE
    case Yield(p) => Runs(s, p)
    case Sleep(p, _) => Runs(s, p) && s.t[p].doing == User
    case Wakeup(_) => true
    case Alloc(p) => Runs(s, p) && s.t[p].doing == User
    case GetStack(p, k) => Runs(s, p) && s.t[p].doing.NeedsStack? && k !in s.owner
    case GetMemory(p, m) => Runs(s, p) && s.t[p].doing.NeedsMemory? && m !in s.owner
    case Ready(p) => Runs(s, p) && s.t[p].doing.NeedsReady?
    case Exit(p) => Runs(s, p) && s.t[p].doing == User && p != s.init
    case Wait(p) => Runs(s, p) && (s.t[p].doing == User || s.t[p].doing == Waiting)
    case Kill(_) => true
  }

  function Set(t: seq<Process>, i: int, q: Process): (r: seq<Process>)
    ensures |r| == |t|
  {
    if In(t, i) then t[i := q] else t
  }

  function At(t: seq<Process>, i: int): Process {
    if In(t, i) then t[i] else Process(UNUSED, 0, -1, NoChan, false, 0, 0, User)
  }

  function DoAlloc(s: Sys, p: int): Sys {
    var z := FirstUnused(s.t, 0);
    if z >= |s.t| then s
    else
      var t := Set(s.t, z, s.t[z].(state := EMBRYO, pid := s.nextpid));
      s.(t := Set(t, p, At(t, p).(doing := NeedsStack(z))), nextpid := s.nextpid + 1)
  }

  function DoStack(s: Sys, p: int, k: int): Sys {
    var np := if At(s.t, p).doing.NeedsStack? then At(s.t, p).doing.np else -1;
    if k == 0 then
      var t := Set(s.t, np, At(s.t, np).(state := UNUSED));
      s.(t := Set(t, p, At(t, p).(doing := User)))
    else
      var t := Set(s.t, np, At(s.t, np).(kstack := k));
      s.(t := Set(t, p, At(t, p).(doing := NeedsMemory(np))), owner := s.owner[k := Stack(np)])
  }

  function DoMemory(s: Sys, p: int, m: int): Sys {
    var np := if At(s.t, p).doing.NeedsMemory? then At(s.t, p).doing.np else -1;
    if m == 0 then
      var t := Set(s.t, np, At(s.t, np).(kstack := 0, pgdir := 0, state := UNUSED));
      s.(t := Set(t, p, At(t, p).(doing := User)), owner := s.owner - {At(s.t, np).kstack})
    else
      var t := Set(s.t, np, At(s.t, np).(pgdir := m, parent := p));
      s.(t := Set(t, p, At(t, p).(doing := NeedsReady(np))), owner := s.owner[m := Memory(np)])
  }

  function DoReady(s: Sys, p: int): Sys {
    var np := if At(s.t, p).doing.NeedsReady? then At(s.t, p).doing.np else -1;
    var t := Set(s.t, np, At(s.t, np).(state := RUNNABLE));
    s.(t := Set(t, p, At(t, p).(doing := User)))
  }

  function DoWait(s: Sys, p: int): Sys {
    var z := FirstZombie(s.t, p, 0);
    if z < |s.t| then
      var t := Set(s.t, z, Reaped(s.t[z]));
      s.(t := Set(t, p, At(t, p).(doing := User)), owner := s.owner - {s.t[z].kstack, s.t[z].pgdir})
    else if !HasKids(s.t, p) || At(s.t, p).killed then s.(t := Set(s.t, p, At(s.t, p).(doing := User)))
    else s.(t := Set(s.t, p, At(s.t, p).(state := SLEEPING, chan := Child(p), doing := Waiting)))
  }

  function DoKill(s: Sys, pid: int): Sys {
    var z := FirstPid(s.t, pid, 0);
    if z >= |s.t| then s else s.(t := Set(s.t, z, KillAt(s.t[z])))
  }

  function Step(s: Sys, e: Event): Sys {
    match e
    case Dispatch(p) => s.(t := Set(s.t, p, At(s.t, p).(state := RUNNING)))
    case Yield(p) => s.(t := Set(s.t, p, At(s.t, p).(state := RUNNABLE)))
    case Sleep(p, n) => s.(t := Set(s.t, p, At(s.t, p).(state := SLEEPING, chan := Other(n))))
    case Wakeup(n) => s.(t := Wake(s.t, Other(n)))
    case Alloc(p) => DoAlloc(s, p)
    case GetStack(p, k) => DoStack(s, p, k)
    case GetMemory(p, m) => DoMemory(s, p, m)
    case Ready(p) => DoReady(s, p)
    case Exit(p) => if In(s.t, p) then s.(t := ExitTable(s.t, p, s.init)) else s
    case Wait(p) => DoWait(s, p)
    case Kill(pid) => DoKill(s, pid)
  }

  // ---------------------------------------------------------------- invariants

  /** What one entry of the table relies on. */
  predicate SlotOk(t: seq<Process>, init: int, i: int)
    requires In(t, i) && In(t, init)
  {
    var q := t[i];
    && (q.state == UNUSED ==> q.parent == -1 && q.kstack == 0)
    && (q.state == EMBRYO && q.parent != -1 ==> In(t, q.parent) && Alive(t[q.parent]) && t[q.parent].doing == NeedsReady(i))
    && (q.state != UNUSED && i != init ==> 0 < t[init].pid < q.pid)
    && (Present(q) && i != init ==> In(t, q.parent) && Alive(t[q.parent]) && t[q.parent].pid < q.pid)
    && (Present(q) ==> q.kstack != 0)
    && (i == init ==> Alive(q) && q.parent == -1 && 0 < q.pid)
    && (q.state == SLEEPING ==> q.chan != NoChan && (q.chan.Child? ==> q.chan.p == i && q.doing == Waiting) && !Making(q))
    && (!Alive(q) ==> q.doing == User)
  }

  /** A process in the middle of fork, and the entry it is filling in. */
  predicate MakingOk(t: seq<Process>, i: int)
    requires In(t, i)
  {
    Making(t[i]) ==>
      var np := t[i].doing.np;
      && In(t, np) && t[np].state == EMBRYO && t[i].pid < t[np].pid
      && (t[np].kstack == 0 <==> t[i].doing.NeedsStack?)
      && t[np].parent == if t[i].doing.NeedsReady? then i else -1
  }

  predicate Slots(s: Sys) {
    In(s.t, s.init) && forall i :: 0 <= i < |s.t| ==> SlotOk(s.t, s.init, i)
  }

  predicate Makers(t: seq<Process>) {
    && (forall i :: 0 <= i < |t| ==> MakingOk(t, i))
    && (forall i, j :: 0 <= i < j < |t| && Making(t[i]) && Making(t[j]) ==> t[i].doing.np != t[j].doing.np)
  }

  predicate Pids(t: seq<Process>, nextpid: int) {
    && 0 < nextpid
    && (forall i :: 0 <= i < |t| ==> t[i].pid < nextpid)
    && (forall i, j :: 0 <= i < j < |t| && t[i].pid != 0 ==> t[i].pid != t[j].pid)
  }

  /** No process sleeps in wait with a zombie child. */
  predicate NoMissedExit(t: seq<Process>) {
    forall p, c :: 0 <= p < |t| && 0 <= c < |t| && t[p].state == SLEEPING && t[p].chan == Child(p) ==> !ZombieChild(t[c], p)
  }

  predicate Holds(t: seq<Process>, r: int, u: Resource) {
    match u
    case Stack(i) => In(t, i) && t[i].kstack == r
    case Memory(i) => In(t, i) && OwnsMemory(t[i]) && t[i].pgdir == r
  }

  /** Each stack and page table in use belongs to one process, and to it alone. */
  predicate Resources(s: Sys) {
    && 0 !in s.owner
    && (forall r :: r in s.owner ==> Holds(s.t, r, s.owner[r]))
    && (forall i :: 0 <= i < |s.t| && s.t[i].kstack != 0 ==> s.t[i].kstack in s.owner && s.owner[s.t[i].kstack] == Stack(i))
    && (forall i :: 0 <= i < |s.t| && OwnsMemory(s.t[i]) ==> s.t[i].pgdir in s.owner && s.owner[s.t[i].pgdir] == Memory(i))
  }

  predicate Inv(s: Sys) {
    Slots(s) && Makers(s.t) && Pids(s.t, s.nextpid) && NoMissedExit(s.t) && Resources(s)
  }

  // ---------------------------------------------------------------- steps that only schedule

  /** Nothing but the state, among the living ones, the channel and the killed flag changed. */
  predicate Same(q: Process, q': Process) {
    && q'.pid == q.pid && q'.parent == q.parent && q'.kstack == q.kstack && q'.pgdir == q.pgdir && q'.doing == q.doing
    && (Alive(q') <==> Alive(q)) && (!Alive(q) ==> q'.state == q.state)
    && (q'.state == SLEEPING ==> (q.state == SLEEPING && q'.chan == q.chan) || (q'.chan.Other? && q.doing == User))
  }

  predicate Quiet(t: seq<Process>, t': seq<Process>) {
    |t'| == |t| && forall i :: 0 <= i < |t| ==> Same(t[i], t'[i])
  }

  predicate Scheduling(e: Event) {
    e.Dispatch? || e.Yield? || e.Sleep? || e.Wakeup? || e.Kill?
  }

  lemma QuietStep(s: Sys, e: Event)
    requires Legal(s, e) && Scheduling(e)
    ensures Step(s, e) == s.(t := Step(s, e).t) && Quiet(s.t, Step(s, e).t)
  {
  }

  lemma QuietSlots(s: Sys, t': seq<Process>)
    requires Slots(s) && Quiet(s.t, t')
    ensures Slots(s.(t := t'))
  {
    forall i | 0 <= i < |t'| ensures SlotOk(t', s.init, i) {
      assert SlotOk(s.t, s.init, i) && Same(s.t[i], t'[i]) && Same(s.t[s.init], t'[s.init]);
      if In(s.t, s.t[i].parent) {
        assert Same(s.t[s.t[i].parent], t'[s.t[i].parent]);
      }
    }
  }

  lemma QuietMakers(t: seq<Process>, t': seq<Process>)
    requires Makers(t) && Quiet(t, t')
    ensures Makers(t')
  {
    forall i | 0 <= i < |t'| ensures MakingOk(t', i) {
      assert MakingOk(t, i) && Same(t[i], t'[i]);
      if Making(t[i]) {
        assert Same(t[t[i].doing.np], t'[t[i].doing.np]);
      }
    }
    forall i, j | 0 <= i < j < |t'| && Making(t'[i]) && Making(t'[j]) ensures t'[i].doing.np != t'[j].doing.np {
      assert Same(t[i], t'[i]) && Same(t[j], t'[j]);
    }
  }

  lemma QuietPids(t: seq<Process>, t': seq<Process>, nextpid: int)
    requires Pids(t, nextpid) && Quiet(t, t')
    ensures Pids(t', nextpid)
  {
    hide Alive;
    forall i | 0 <= i < |t'| ensures t'[i].pid == t[i].pid {
      assert Same(t[i], t'[i]);
    }
  }

  lemma QuietMissed(t: seq<Process>, t': seq<Process>)
    requires NoMissedExit(t) && Quiet(t, t')
    ensures NoMissedExit(t')
  {
    forall p, c | 0 <= p < |t'| && 0 <= c < |t'| && t'[p].state == SLEEPING && t'[p].chan == Child(p)
      ensures !ZombieChild(t'[c], p)
    {
      assert Same(t[p], t'[p]) && Same(t[c], t'[c]);
    }
  }

  lemma QuietResources(s: Sys, t': seq<Process>)
    requires Resources(s) && Quiet(s.t, t')
    ensures Resources(s.(t := t'))
  {
    var t := s.t;
    forall i | 0 <= i < |t'| ensures t'[i].kstack == t[i].kstack && t'[i].pgdir == t[i].pgdir && OwnsMemory(t'[i]) == OwnsMemory(t[i]) {
      assert Same(t[i], t'[i]);
    }
    hide Same, OwnsMemory;
    forall r | r in s.owner ensures Holds(t', r, s.owner[r]) {
      assert Holds(t, r, s.owner[r]);
    }
  }

  // ---------------------------------------------------------------- fork

  /** A step of fork by process p touches p's place in the kernel and the entry np, not yet present. */
  predicate Forks(s: Sys, s': Sys, p: int, np: int) {
    var t, t' := s.t, s'.t;
    && |t'| == |t| && In(t, p) && In(t, np) && p != np && s'.init == s.init && np != s.init
    && t[p].state == RUNNING && t[p].doing != Waiting && t'[p] == t[p].(doing := t'[p].doing) && t'[p].doing != Waiting
    && (t[np].state == UNUSED || t[np].state == EMBRYO) && t[np].doing == User && t'[np].doing == User
    && (Making(t[p]) ==> t[p].doing.np == np) && (Making(t'[p]) ==> t'[p].doing.np == np)
    && (!Making(t[p]) ==> t[np].state == UNUSED)
    && (forall i :: 0 <= i < |t| && i != p && i != np ==> t'[i] == t[i])
  }

  lemma ForkSlots(s: Sys, s': Sys, p: int, np: int)
    requires Slots(s) && Makers(s.t) && Forks(s, s', p, np) && SlotOk(s'.t, s.init, np)
    ensures Slots(s')
  {
    var t, t' := s.t, s'.t;
    assert SlotOk(t, s.init, s.init);
    forall i | 0 <= i < |t'| && i != np ensures SlotOk(t', s.init, i) {
      assert SlotOk(t, s.init, i);
    }
  }

  lemma ForkMakers(s: Sys, s': Sys, p: int, np: int)
    requires Slots(s) && Makers(s.t) && Forks(s, s', p, np) && MakingOk(s'.t, p)
    ensures Makers(s'.t)
  {
    var t, t' := s.t, s'.t;
    forall i | 0 <= i < |t'| && i != p ensures MakingOk(t', i) && (Making(t'[i]) ==> t'[i] == t[i] && t[i].doing.np != np) {
      assert MakingOk(t, i);
      assert Making(t[i]) && Making(t[p]) ==> t[i].doing.np != t[p].doing.np;
    }
  }

  lemma ForkPids(s: Sys, s': Sys, p: int, np: int)
    requires Pids(s.t, s.nextpid) && Forks(s, s', p, np)
    requires || (s'.t[np].pid == s.t[np].pid && s'.nextpid == s.nextpid)
             || (s'.t[np].pid == s.nextpid && s'.nextpid == s.nextpid + 1)
    ensures Pids(s'.t, s'.nextpid)
  {
    hide Making;
    forall i | 0 <= i < |s'.t| && i != np ensures s'.t[i].pid == s.t[i].pid {
    }
  }

  lemma ForkMissed(s: Sys, s': Sys, p: int, np: int)
    requires NoMissedExit(s.t) && Forks(s, s', p, np) && s'.t[np].state != ZOMBIE && s'.t[np].state != SLEEPING
    ensures NoMissedExit(s'.t)
  {
    hide Making;
    forall q, c | 0 <= q < |s'.t| && 0 <= c < |s'.t| && s'.t[q].state == SLEEPING && s'.t[q].chan == Child(q)
      ensures !ZombieChild(s'.t[c], q)
    {
      assert s'.t[q] == s.t[q];
      assert c != p && c != np ==> s'.t[c] == s.t[c];
    }
  }

  lemma AllocForks(s: Sys, p: int)
    requires Slots(s) && Makers(s.t) && Pids(s.t, s.nextpid) && Legal(s, Alloc(p)) && FirstUnused(s.t, 0) < |s.t|
    ensures var s', np := DoAlloc(s, p), FirstUnused(s.t, 0);
      && Forks(s, s', p, np) && In(s'.t, np) && SlotOk(s'.t, s.init, np) && MakingOk(s'.t, p)
      && s'.t[np] == s.t[np].(state := EMBRYO, pid := s.nextpid) && s' == s.(t := s'.t, nextpid := s.nextpid + 1)
      && s.t[np].state == UNUSED && s.t[np].kstack == 0 && s.t[np].parent == -1
  {
    var np := FirstUnused(s.t, 0);
    assert SlotOk(s.t, s.init, np) && SlotOk(s.t, s.init, s.init);
    hide FirstUnused;
  }

  lemma StackForks(s: Sys, p: int, k: int)
    requires Slots(s) && Makers(s.t) && Legal(s, GetStack(p, k))
    ensures var s', np := DoStack(s, p, k), s.t[p].doing.np;
      && Forks(s, s', p, np) && In(s'.t, np) && SlotOk(s'.t, s.init, np) && MakingOk(s'.t, p)
      && s.t[np].state == EMBRYO && s.t[np].kstack == 0 && s.t[np].parent == -1
      && s'.t[np] == (if k == 0 then s.t[np].(state := UNUSED) else s.t[np].(kstack := k))
      && s' == s.(t := s'.t, owner := if k == 0 then s.owner else s.owner[k := Stack(np)])
  {
    var np := s.t[p].doing.np;
    assert MakingOk(s.t, p);
    assert SlotOk(s.t, s.init, np) && SlotOk(s.t, s.init, s.init);
  }

  lemma MemoryForks(s: Sys, p: int, m: int)
    requires Slots(s) && Makers(s.t) && Legal(s, GetMemory(p, m))
    ensures var s', np := DoMemory(s, p, m), s.t[p].doing.np;
      && Forks(s, s', p, np) && In(s'.t, np) && SlotOk(s'.t, s.init, np) && MakingOk(s'.t, p)
      && s.t[np].state == EMBRYO && s.t[np].kstack != 0 && s.t[np].parent == -1
      && s'.t[np] == (if m == 0 then s.t[np].(kstack := 0, pgdir := 0, state := UNUSED) else s.t[np].(pgdir := m, parent := p))
      && s' == s.(t := s'.t, owner := if m == 0 then s.owner - {s.t[np].kstack} else s.owner[m := Memory(np)])
  {
    var np := s.t[p].doing.np;
    assert MakingOk(s.t, p);
    assert SlotOk(s.t, s.init, np) && SlotOk(s.t, s.init, s.init);
  }

  lemma ReadyForks(s: Sys, p: int)
    requires Slots(s) && Makers(s.t) && Legal(s, Ready(p))
    ensures var s', np := DoReady(s, p), s.t[p].doing.np;
      && Forks(s, s', p, np) && In(s'.t, np) && SlotOk(s'.t, s.init, np) && MakingOk(s'.t, p)
      && s.t[np].state == EMBRYO && s.t[np].parent == p
      && s'.t[np] == s.t[np].(state := RUNNABLE) && s' == s.(t := s'.t)
  {
    var np := s.t[p].doing.np;
    assert MakingOk(s.t, p);
    assert SlotOk(s.t, s.init, np) && SlotOk(s.t, s.init, s.init) && SlotOk(s.t, s.init, p);
  }

  /** What a process owns of r. */
  lemma ForkResources(s: Sys, s': Sys, p: int, np: int)
    requires Resources(s) && Forks(s, s', p, np)
    requires forall r :: r in s'.owner && r !in s.owner ==> Holds(s'.t, r, s'.owner[r])
    requires forall r :: r in s'.owner && r in s.owner ==> s'.owner[r] == s.owner[r]
    requires forall r :: r in s.owner && s.owner[r] != Stack(np) && s.owner[r] != Memory(np) ==> r in s'.owner
    requires forall r :: r in s'.owner && (s'.owner[r] == Stack(np) || s'.owner[r] == Memory(np)) ==> Holds(s'.t, r, s'.owner[r])
    requires s'.t[np].kstack != 0 ==> s'.t[np].kstack in s'.owner && s'.owner[s'.t[np].kstack] == Stack(np)
    requires OwnsMemory(s'.t[np]) ==> s'.t[np].pgdir in s'.owner && s'.owner[s'.t[np].pgdir] == Memory(np)
    requires 0 !in s'.owner
    ensures Resources(s')
  {
    var t, t' := s.t, s'.t;
    forall i | 0 <= i < |t| && i != np ensures t'[i].kstack == t[i].kstack && t'[i].pgdir == t[i].pgdir && OwnsMemory(t'[i]) == OwnsMemory(t[i]) {
    }
    hide Making, OwnsMemory;
    forall r | r in s'.owner ensures Holds(t', r, s'.owner[r]) {
      assert r in s.owner ==> Holds(t, r, s.owner[r]);
    }
  }

  lemma StackResources(s: Sys, s': Sys, p: int, np: int, k: int)
    requires Resources(s) && Forks(s, s', p, np) && k !in s.owner
    requires s.t[np].state == EMBRYO && s.t[np].kstack == 0 && s.t[np].parent == -1
    requires s'.t[np] == if k == 0 then s.t[np].(state := UNUSED) else s.t[np].(kstack := k)
    requires s' == s.(t := s'.t, owner := if k == 0 then s.owner else s.owner[k := Stack(np)])
    ensures Resources(s')
  {
    hide Making;
    forall r | r in s.owner ensures s.owner[r] != Stack(np) && s.owner[r] != Memory(np) {
      assert Holds(s.t, r, s.owner[r]);
    }
    ForkResources(s, s', p, np);
  }

  lemma AllocResources(s: Sys, s': Sys, p: int, np: int)
    requires Resources(s) && Forks(s, s', p, np) && s.t[np].state == UNUSED && s.t[np].kstack == 0 && s.t[np].parent == -1
    requires s'.t[np] == s.t[np].(state := EMBRYO, pid := s.nextpid) && s'.owner == s.owner
    ensures Resources(s')
  {
    hide Making;
    forall r | r in s.owner ensures s.owner[r] != Stack(np) && s.owner[r] != Memory(np) {
      assert Holds(s.t, r, s.owner[r]);
    }
    ForkResources(s, s', p, np);
  }

  lemma MemoryResources(s: Sys, s': Sys, p: int, np: int, m: int)
    requires Resources(s) && Forks(s, s', p, np) && m !in s.owner
    requires s.t[np].state == EMBRYO && s.t[np].kstack != 0 && s.t[np].parent == -1
    requires s'.t[np] == if m == 0 then s.t[np].(kstack := 0, pgdir := 0, state := UNUSED) else s.t[np].(pgdir := m, parent := p)
    requires s' == s.(t := s'.t, owner := if m == 0 then s.owner - {s.t[np].kstack} else s.owner[m := Memory(np)])
    ensures Resources(s')
    ensures m == 0 ==> s.t[np].kstack in s.owner
  {
    hide Making;
    forall r | r in s.owner
      ensures s.owner[r] != Memory(np) && (s.owner[r] == Stack(np) ==> r == s.t[np].kstack)
    {
      assert Holds(s.t, r, s.owner[r]);
    }
    ForkResources(s, s', p, np);
  }

  lemma ReadyResources(s: Sys, s': Sys, p: int, np: int)
    requires Resources(s) && Forks(s, s', p, np) && s.t[np].state == EMBRYO && s.t[np].parent == p
    requires s'.t[np] == s.t[np].(state := RUNNABLE) && s' == s.(t := s'.t)
    ensures Resources(s')
  {
    hide Making;
    forall r | r in s.owner && (s.owner[r] == Stack(np) || s.owner[r] == Memory(np)) ensures Holds(s'.t, r, s.owner[r]) {
      assert Holds(s.t, r, s.owner[r]);
    }
    ForkResources(s, s', p, np);
  }

  lemma ForkKeeps(s: Sys, e: Event)
    requires Inv(s) && Legal(s, e) && (e.Alloc? || e.GetStack? || e.GetMemory? || e.Ready?)
    ensures Inv(Step(s, e))
  {
    hide Slots, Makers, Pids, NoMissedExit, Resources, Forks, SlotOk, MakingOk, DoAlloc, DoStack, DoMemory, DoReady, FirstUnused;
    var s', p := Step(s, e), e.p;
    match e
    case Alloc(_) =>
      if FirstUnused(s.t, 0) < |s.t| {
        var np := FirstUnused(s.t, 0);
        AllocForks(s, p);
        ForkRest(s, s', p, np);
        AllocResources(s, s', p, np);
      } else {
        NothingUnused(s, p);
      }
    case GetStack(_, k) =>
      var np := s.t[p].doing.np;
      StackForks(s, p, k);
      ForkRest(s, s', p, np);
      StackResources(s, s', p, np, k);
    case GetMemory(_, m) =>
      var np := s.t[p].doing.np;
      MemoryForks(s, p, m);
      ForkRest(s, s', p, np);
      MemoryResources(s, s', p, np, m);
    case Ready(_) =>
      var np := s.t[p].doing.np;
      ReadyForks(s, p);
      ForkRest(s, s', p, np);
      ReadyResources(s, s', p, np);
  }

  lemma NothingUnused(s: Sys, p: int)
    requires FirstUnused(s.t, 0) >= |s.t|
    ensures DoAlloc(s, p) == s
  {
  }

  lemma ForkRest(s: Sys, s': Sys, p: int, np: int)
    requires Slots(s) && Makers(s.t) && Pids(s.t, s.nextpid) && NoMissedExit(s.t)
    requires Forks(s, s', p, np) && In(s'.t, np) && SlotOk(s'.t, s.init, np) && MakingOk(s'.t, p)
    requires s'.t[np].state != ZOMBIE && s'.t[np].state != SLEEPING
    requires || (s'.t[np].pid == s.t[np].pid && s'.nextpid == s.nextpid)
             || (s'.t[np].pid == s.nextpid && s'.nextpid == s.nextpid + 1)
    ensures Slots(s') && Makers(s'.t) && Pids(s'.t, s'.nextpid) && NoMissedExit(s'.t)
  {
    hide Slots, Makers, Pids, NoMissedExit, Forks, SlotOk, MakingOk;
    ForkSlots(s, s', p, np);
    ForkMakers(s, s', p, np);
    ForkPids(s, s', p, np);
    ForkMissed(s, s', p, np);
  }

  // ---------------------------------------------------------------- wait

  /** wait found nothing to reap: it returns, or sleeps on p itself. */
  predicate Turns(s: Sys, s': Sys, p: int) {
    var t, t' := s.t, s'.t;
    && s' == s.(t := t') && In(t, p) && |t'| == |t| && t[p].state == RUNNING && !Making(t[p]) && !Making(t'[p])
    && t'[p].pid == t[p].pid && t'[p].parent == t[p].parent && t'[p].kstack == t[p].kstack && t'[p].pgdir == t[p].pgdir
    && (t'[p].state == RUNNING || (t'[p].state == SLEEPING && t'[p].chan == Child(p) && t'[p].doing == Waiting))
    && (forall i :: 0 <= i < |t| ==> !ZombieChild(t[i], p))
    && (forall i :: 0 <= i < |t| && i != p ==> t'[i] == t[i])
  }

  lemma TurnsSlots(s: Sys, s': Sys, p: int)
    requires Slots(s) && Turns(s, s', p)
    ensures Slots(s')
  {
    forall i | 0 <= i < |s'.t| ensures SlotOk(s'.t, s.init, i) {
      assert SlotOk(s.t, s.init, i) && SlotOk(s.t, s.init, p) && SlotOk(s.t, s.init, s.init);
    }
  }

  lemma TurnsMakers(s: Sys, s': Sys, p: int)
    requires Makers(s.t) && Turns(s, s', p)
    ensures Makers(s'.t)
  {
    forall i | 0 <= i < |s'.t| ensures MakingOk(s'.t, i) {
      assert MakingOk(s.t, i);
    }
  }

  lemma TurnsRest(s: Sys, s': Sys, p: int)
    requires Pids(s.t, s.nextpid) && NoMissedExit(s.t) && Turns(s, s', p)
    ensures Pids(s'.t, s'.nextpid) && NoMissedExit(s'.t)
  {
    hide Making;
    assert Pids(s'.t, s'.nextpid) by {
      forall i | 0 <= i < |s'.t| ensures s'.t[i].pid == s.t[i].pid {
      }
    }
    forall q, c | 0 <= q < |s'.t| && 0 <= c < |s'.t| && s'.t[q].state == SLEEPING && s'.t[q].chan == Child(q)
      ensures !ZombieChild(s'.t[c], q)
    {
      assert !ZombieChild(s.t[c], p);
    }
  }

  lemma TurnsResources(s: Sys, s': Sys, p: int)
    requires Resources(s) && Turns(s, s', p)
    ensures Resources(s')
  {
    forall i | 0 <= i < |s.t| ensures s'.t[i].kstack == s.t[i].kstack && s'.t[i].pgdir == s.t[i].pgdir && OwnsMemory(s'.t[i]) == OwnsMemory(s.t[i]) {
    }
    hide Turns, Making, OwnsMemory;
    forall r | r in s'.owner ensures Holds(s'.t, r, s'.owner[r]) {
      assert Holds(s.t, r, s.owner[r]);
    }
  }

  /** wait reaped the zombie child z of p. */
  predicate Reaps(s: Sys, s': Sys, p: int, z: int) {
    var t, t' := s.t, s'.t;
    && In(t, p) && In(t, z) && p != z && |t'| == |t| && t[p].state == RUNNING && !Making(t[p])
    && ZombieChild(t[z], p) && t'[z] == Reaped(t[z]) && t'[p] == t[p].(doing := User)
    && (forall i :: 0 <= i < |t| && i != p && i != z ==> t'[i] == t[i])
    && s' == s.(t := t', owner := s.owner - {t[z].kstack, t[z].pgdir})
  }

  lemma ReapsSlots(s: Sys, s': Sys, p: int, z: int)
    requires Slots(s) && Reaps(s, s', p, z)
    ensures Slots(s')
  {
    forall i | 0 <= i < |s'.t| ensures SlotOk(s'.t, s.init, i) {
      assert SlotOk(s.t, s.init, i) && SlotOk(s.t, s.init, z) && SlotOk(s.t, s.init, s.init);
    }
  }

  lemma ReapsMakers(s: Sys, s': Sys, p: int, z: int)
    requires Slots(s) && Makers(s.t) && Reaps(s, s', p, z)
    ensures Makers(s'.t)
  {
    assert SlotOk(s.t, s.init, z);
    forall i | 0 <= i < |s'.t| ensures MakingOk(s'.t, i) {
      assert MakingOk(s.t, i);
    }
  }

  lemma ReapsRest(s: Sys, s': Sys, p: int, z: int)
    requires Slots(s) && Pids(s.t, s.nextpid) && NoMissedExit(s.t) && Reaps(s, s', p, z)
    ensures Pids(s'.t, s'.nextpid) && NoMissedExit(s'.t)
  {
    hide Making;
    assert SlotOk(s.t, s.init, z) && SlotOk(s.t, s.init, p);
    assert Pids(s'.t, s'.nextpid) by {
      forall i | 0 <= i < |s'.t| && i != z ensures s'.t[i].pid == s.t[i].pid {
      }
    }
    forall q, c | 0 <= q < |s'.t| && 0 <= c < |s'.t| && s'.t[q].state == SLEEPING && s'.t[q].chan == Child(q)
      ensures !ZombieChild(s'.t[c], q)
    {
      assert s'.t[q] == s.t[q];
      assert c == z || c == p || s'.t[c] == s.t[c];
    }
  }

  /** Both resources of the zombie are held before, by it alone, and free after: nothing is freed twice. */
  lemma ReapsResources(s: Sys, s': Sys, p: int, z: int)
    requires Slots(s) && Resources(s) && Reaps(s, s', p, z)
    ensures Resources(s')
    ensures s.t[z].kstack in s.owner && s.t[z].pgdir in s.owner && s.t[z].kstack != s.t[z].pgdir
  {
    assert SlotOk(s.t, s.init, z);
    var ks, pg := s.t[z].kstack, s.t[z].pgdir;
    assert s.owner[ks] == Stack(z) && s.owner[pg] == Memory(z);
    forall i | 0 <= i < |s.t| && i != z ensures s'.t[i].kstack == s.t[i].kstack && s'.t[i].pgdir == s.t[i].pgdir && OwnsMemory(s'.t[i]) == OwnsMemory(s.t[i]) {
    }
    forall r | r in s'.owner ensures Holds(s'.t, r, s'.owner[r]) {
      assert Holds(s.t, r, s.owner[r]);
    }
  }

  lemma WaitCases(s: Sys, p: int)
    requires Legal(s, Wait(p))
    ensures var z := FirstZombie(s.t, p, 0);
      if z < |s.t| then Reaps(s, DoWait(s, p), p, z) else Turns(s, DoWait(s, p), p)
  {
    hide HasKids;
  }

  lemma WaitKeeps(s: Sys, p: int)
    requires Inv(s) && Legal(s, Wait(p))
    ensures Inv(DoWait(s, p))
  {
    hide Slots, Makers, Pids, NoMissedExit, Resources, Turns, Reaps, DoWait, FirstZombie;
    var s', z := DoWait(s, p), FirstZombie(s.t, p, 0);
    WaitCases(s, p);
    if z < |s.t| {
      ReapsSlots(s, s', p, z);
      ReapsMakers(s, s', p, z);
      ReapsRest(s, s', p, z);
      ReapsResources(s, s', p, z);
    } else {
      TurnsSlots(s, s', p);
      TurnsMakers(s, s', p);
      TurnsRest(s, s', p);
      TurnsResources(s, s', p);
    }
  }

  // ---------------------------------------------------------------- exit

  lemma WakeQuiet(t: seq<Process>, c: Chan)
    ensures Quiet(t, Wake(t, c))
  {
  }

  lemma AdoptSlots(s: Sys, p: int)
    requires Slots(s) && Legal(s, Exit(p))
    ensures Slots(s.(t := Adopt(s.t, p, s.init))) && forall i :: 0 <= i < |s.t| ==> Adopt(s.t, p, s.init)[i].parent != p
  {
    var t, t' := s.t, Adopt(s.t, p, s.init);
    assert SlotOk(t, s.init, s.init);
    forall i | 0 <= i < |t| ensures SlotOk(t', s.init, i) {
      assert SlotOk(t, s.init, i);
    }
  }

  lemma AdoptMakers(s: Sys, p: int)
    requires Slots(s) && Makers(s.t) && Legal(s, Exit(p))
    ensures Makers(Adopt(s.t, p, s.init))
  {
    var t, t' := s.t, Adopt(s.t, p, s.init);
    forall i | 0 <= i < |t| ensures MakingOk(t', i) {
      assert MakingOk(t, i) && SlotOk(t, s.init, i);
    }
  }

  lemma AdoptRest(s: Sys, p: int)
    requires Slots(s) && Pids(s.t, s.nextpid) && Resources(s) && Legal(s, Exit(p))
    ensures Pids(Adopt(s.t, p, s.init), s.nextpid) && Resources(s.(t := Adopt(s.t, p, s.init)))
  {
    var t, t' := s.t, Adopt(s.t, p, s.init);
    assert Pids(t', s.nextpid) by {
      forall i | 0 <= i < |t| ensures t'[i].pid == t[i].pid {
      }
    }
    forall i | 0 <= i < |t| ensures t'[i].kstack == t[i].kstack && t'[i].pgdir == t[i].pgdir && OwnsMemory(t'[i]) == OwnsMemory(t[i]) {
    }
    hide Adopt, OwnsMemory;
    forall r | r in s.owner ensures Holds(t', r, s.owner[r]) {
      assert Holds(t, r, s.owner[r]);
    }
  }

  // p without children becomes a zombie.
  lemma ZombieSlots(s: Sys, p: int)
    requires Slots(s) && Legal(s, Exit(p)) && forall i :: 0 <= i < |s.t| ==> s.t[i].parent != p
    ensures Slots(s.(t := s.t[p := s.t[p].(state := ZOMBIE)]))
  {
    var t' := s.t[p := s.t[p].(state := ZOMBIE)];
    assert SlotOk(s.t, s.init, p) && SlotOk(s.t, s.init, s.init);
    forall i | 0 <= i < |t'| ensures SlotOk(t', s.init, i) {
      assert SlotOk(s.t, s.init, i);
    }
  }

  lemma ZombieMakers(t: seq<Process>, p: int)
    requires Makers(t) && In(t, p) && t[p].state == RUNNING && t[p].doing == User
    ensures Makers(t[p := t[p].(state := ZOMBIE)])
  {
    var t' := t[p := t[p].(state := ZOMBIE)];
    forall i | 0 <= i < |t'| ensures MakingOk(t', i) {
      assert MakingOk(t, i);
    }
  }

  lemma ZombieRest(s: Sys, p: int)
    requires Pids(s.t, s.nextpid) && Resources(s) && In(s.t, p) && s.t[p].state == RUNNING
    ensures var t' := s.t[p := s.t[p].(state := ZOMBIE)]; Pids(t', s.nextpid) && Resources(s.(t := t'))
  {
    var t, t' := s.t, s.t[p := s.t[p].(state := ZOMBIE)];
    assert Pids(t', s.nextpid) by {
      forall i | 0 <= i < |t| ensures t'[i].pid == t[i].pid {
      }
    }
    forall i | 0 <= i < |t| ensures t'[i].kstack == t[i].kstack && t'[i].pgdir == t[i].pgdir && OwnsMemory(t'[i]) == OwnsMemory(t[i]) {
    }
    hide OwnsMemory;
    forall r | r in s.owner ensures Holds(t', r, s.owner[r]) {
      assert Holds(t, r, s.owner[r]);
    }
  }

  // Whoever gets a zombie child is not asleep in wait.
  lemma ExitMissed(s: Sys, p: int)
    requires NoMissedExit(s.t) && Slots(s) && Legal(s, Exit(p))
    ensures NoMissedExit(ExitTable(s.t, p, s.init))
  {
    assert SlotOk(s.t, s.init, p);
    assert s.t[p].parent != p;
    forall q, c | 0 <= q < |s.t| && 0 <= c < |s.t|
      ensures var t' := ExitTable(s.t, p, s.init);
        t'[q].state == SLEEPING && t'[q].chan == Child(q) ==> !ZombieChild(t'[c], q)
    {
      ExitMissedAt(s.t, p, s.init, q, c);
    }
  }

  lemma ExitMissedAt(t: seq<Process>, p: int, init: int, q: int, c: int)
    requires NoMissedExit(t) && In(t, p) && In(t, q) && In(t, c) && t[p].parent != p && t[p].state == RUNNING
    ensures var t' := ExitTable(t, p, init);
      t'[q].state == SLEEPING && t'[q].chan == Child(q) ==> !ZombieChild(t'[c], q)
  {
    hide HasZombie;
    var a := Wake(t, Child(t[p].parent));
    var t' := ExitTable(t, p, init);
    assert a[q] == Woken(t[q], Child(t[p].parent)) && a[c] == Woken(t[c], Child(t[p].parent));
    assert t[q].state == SLEEPING && t[q].chan == Child(q) ==> !ZombieChild(t[c], q);
    if c != p && ZombieChild(t[c], p) {
      ZombieIn(a, p, c);
    }
  }

  lemma ZombieIn(t: seq<Process>, p: int, c: int)
    requires In(t, c) && ZombieChild(t[c], p)
    ensures HasZombie(t, p)
  {
  }

  lemma ExitKeeps(s: Sys, p: int)
    requires Inv(s) && Legal(s, Exit(p))
    ensures Inv(s.(t := ExitTable(s.t, p, s.init)))
  {
    ExitMissed(s, p);
    hide SlotOk, Makers, Pids, NoMissedExit, Resources, Quiet, HasZombie, Adopt, Wake;
    var sa := s.(t := Wake(s.t, Child(s.t[p].parent)));
    WakeQuiet(s.t, Child(s.t[p].parent));
    QuietAll(s, sa.t);
    WakeOthers(s.t, Child(s.t[p].parent), p);
    AdoptSlots(sa, p);
    AdoptMakers(sa, p);
    AdoptRest(sa, p);
    AdoptOthers(sa.t, p, s.init);
    var sb := sa.(t := Adopt(sa.t, p, s.init));
    var sc := if HasZombie(sa.t, p) then sb.(t := Wake(sb.t, Child(s.init))) else sb;
    WakeQuiet(sb.t, Child(s.init));
    QuietAll(sb, Wake(sb.t, Child(s.init)));
    WakeOthers(sb.t, Child(s.init), p);
    ZombieSlots(sc, p);
    ZombieMakers(sc.t, p);
    ZombieRest(sc, p);
  }

  lemma QuietAll(s: Sys, t': seq<Process>)
    requires Slots(s) && Makers(s.t) && Pids(s.t, s.nextpid) && Resources(s) && Quiet(s.t, t')
    ensures var s' := s.(t := t'); Slots(s') && Makers(t') && Pids(t', s.nextpid) && Resources(s')
  {
    hide Slots, Makers, Pids, Resources, Quiet;
    QuietSlots(s, t');
    QuietMakers(s.t, t');
    QuietPids(s.t, t', s.nextpid);
    QuietResources(s, t');
  }

  lemma WakeOthers(t: seq<Process>, c: Chan, p: int)
    requires In(t, p) && t[p].state == RUNNING
    ensures Wake(t, c)[p] == t[p] && forall i :: 0 <= i < |t| ==> Wake(t, c)[i].parent == t[i].parent
  {
  }

  lemma AdoptOthers(t: seq<Process>, p: int, init: int)
    requires In(t, p)
    ensures Adopt(t, p, init)[p].state == t[p].state && Adopt(t, p, init)[p].doing == t[p].doing
  {
  }

  // ---------------------------------------------------------------- every run

  lemma StepKeeps(s: Sys, e: Event)
    requires Inv(s) && Legal(s, e)
    ensures Inv(Step(s, e))
  {
    hide Slots, Makers, Pids, NoMissedExit, Resources, Quiet, ExitTable, DoWait, DoAlloc, DoStack, DoMemory, DoReady, DoKill, Wake;
    match e
    case Alloc(_) => ForkKeeps(s, e);
    case GetStack(_, _) => ForkKeeps(s, e);
    case GetMemory(_, _) => ForkKeeps(s, e);
    case Ready(_) => ForkKeeps(s, e);
    case Exit(p) => ExitKeeps(s, p);
    case Wait(p) => WaitKeeps(s, p);
    case _ =>
      QuietStep(s, e);
      QuietAll(s, Step(s, e).t);
      QuietMissed(s.t, Step(s, e).t);
  }

  predicate LegalRun(s: Sys, es: seq<Event>)
    decreases |es|
  {
    es == [] || (Legal(s, es[0]) && LegalRun(Step(s, es[0]), es[1..]))
  }

  function Run(s: Sys, es: seq<Event>): Sys
    decreases |es|
  {
    if es == [] then s else Run(Step(s, es[0]), es[1..])
  }

  lemma {:induction false} RunKeeps(s: Sys, es: seq<Event>)
    requires Inv(s) && LegalRun(s, es)
    ensures Inv(Run(s, es))
    decreases |es|
  {
    hide Inv, Step, Legal;
    if es != [] {
      StepKeeps(s, es[0]);
      RunKeeps(Step(s, es[0]), es[1..]);
    }
  }

  /** The table after userinit: init, process 1, alone. */
  function Boot(n: nat, kstack: int, pgdir: int): Sys {
    var none := Process(UNUSED, 0, -1, NoChan, false, 0, 0, User);
    var t := seq(n, i => if i == 0 then Process(RUNNABLE, 1, -1, NoChan, false, kstack, pgdir, User) else none);
    Sys(t, 2, 0, map[kstack := Stack(0), pgdir := Memory(0)])
  }

  lemma BootIsSound(n: nat, kstack: int, pgdir: int)
    requires 1 <= n && kstack != 0 && pgdir != 0 && kstack != pgdir
    ensures Inv(Boot(n, kstack, pgdir))
  {
  }

  // ---------------------------------------------------------------- what the invariant says

  /** The process n generations up. */
  function Ancestor(t: seq<Process>, i: int, n: nat): int
    decreases n
  {
    if n == 0 || !In(t, i) then i else Ancestor(t, t[i].parent, n - 1)
  }

  /** Every process, living or zombie, has a living parent of smaller pid, and so on up to init. */
  lemma {:induction false} ReachesInit(s: Sys, i: int) returns (n: nat)
    requires Inv(s) && In(s.t, i) && Present(s.t[i])
    ensures Ancestor(s.t, i, n) == s.init && n < s.t[i].pid
    ensures i != s.init ==> In(s.t, s.t[i].parent) && Alive(s.t[s.t[i].parent]) && s.t[s.t[i].parent].pid < s.t[i].pid
    decreases s.t[i].pid
  {
    hide Makers, Pids, NoMissedExit, Resources;
    assert SlotOk(s.t, s.init, i) && SlotOk(s.t, s.init, s.init);
    if i == s.init {
      n := 0;
    } else {
      var m := ReachesInit(s, s.t[i].parent);
      n := m + 1;
    }
  }
}
