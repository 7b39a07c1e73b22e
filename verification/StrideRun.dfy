/** The stride scheduler on one CPU as a machine (p4/solution/proc.c, sysproc.c): turns that end in
    yield, sleep or exit, with wakeups, forks, kills and settickets in between, and what all of them
    do to the global tickets. */
module StrideRun {
  import opened Stride

  /** The table with global_pass, global_stride, global_tickets and nextpid; `forks` counts the forks
      that are over, failed ones included. */
  datatype Sys = Sys(t: seq<Entry>, pass: int, stride: int, tickets: int, nextpid: int, forks: nat)

  /** m is the running process. */
  datatype Event =
    | Dispatch(m: int)             // the scan chose m
    | Yield(m: int, dt: nat)       // m gives the CPU back after dt ticks
    | Nap(m: int, dt: nat)         // m calls sleep
    | Exit(m: int, dt: nat)
    | Wake(i: int)                 // wakeup1 or kill comes to i
    | Alloc(m: int, i: int)        // m forks: allocproc takes entry i
    | AllocFails(m: int, i: int)   // no stack or no memory for the child
    | Start(m: int, i: int)        // the child becomes runnable
    | SetTickets(m: int, n: int)
    | Reap(m: int, i: int)         // m waits and finds the zombie i

  function At(t: seq<Entry>, i: int): Entry {
    if 0 <= i < |t| then t[i] else Unused()
  }

  function Unused(): Entry {
    Entry(UNUSED, 0, 0, 0, 0, 0, 0, 0)
  }

  function Put(t: seq<Entry>, i: int, e: Entry): (r: seq<Entry>)
    ensures |r| == |t|
  {
    if 0 <= i < |t| then t[i := e] else t
  }

  /** The entry allocproc and fork fill in. */
  function New(state: State, pid: int, globalPass: int): Entry {
    Entry(state, pid, DEFAULT_TICKETS, STRIDE1 / DEFAULT_TICKETS, globalPass, 0, 0, 0)
  }

  predicate Idle(t: seq<Entry>) {
    forall i :: 0 <= i < |t| ==> t[i].state != RUNNING
  }

  /** init does not exit. */
  const INIT: int := 0

  predicate Legal(s: Sys, e: Event) {
    match e
    case Dispatch(m) => m >= 0 && Chosen(s.t, |s.t|, m) && Idle(s.t)
    case Yield(m, _) => At(s.t, m).state == RUNNING
    case Nap(m, _) => At(s.t, m).state == RUNNING
    case Exit(m, _) => At(s.t, m).state == RUNNING && m != INIT
    case Wake(i) => At(s.t, i).state == SLEEPING
    case Alloc(m, i) => At(s.t, m).state == RUNNING && 0 <= i < |s.t| && s.t[i].state == UNUSED
    case AllocFails(m, i) => At(s.t, m).state == RUNNING && At(s.t, i).state == EMBRYO
    case Start(m, i) => At(s.t, m).state == RUNNING && At(s.t, i).state == EMBRYO
    case SetTickets(m, _) => At(s.t, m).state == RUNNING
    case Reap(m, i) => At(s.t, m).state == RUNNING && At(s.t, i).state == ZOMBIE
  }

  /** global_tickets and the global stride after a change. */
  function Retally(s: Sys, tickets: int): Sys {
    s.(tickets := tickets, stride := StrideFor(tickets))
  }

  /** The scheduler's work behind a turn: the process is charged, the global pass moves on. */
  function TurnOver(s: Sys, m: int, dt: nat): Sys {
    s.(t := Put(s.t, m, Charged(At(s.t, m), dt)), pass := s.pass + s.stride)
  }

  function Step(s: Sys, e: Event): Sys {
    match e
    case Dispatch(m) => s.(t := Put(s.t, m, At(s.t, m).(state := RUNNING)))
    case Yield(m, dt) => TurnOver(s.(t := Put(s.t, m, At(s.t, m).(state := RUNNABLE))), m, dt)
    case Nap(m, dt) =>
      TurnOver(Retally(s.(t := Put(s.t, m, PutToSleep(At(s.t, m), s.pass))), s.tickets - At(s.t, m).tickets), m, dt)
    case Exit(m, dt) =>
      TurnOver(Retally(s.(t := Put(s.t, m, At(s.t, m).(state := ZOMBIE))), s.tickets - At(s.t, m).tickets), m, dt)
    case Wake(i) => Retally(s.(t := Put(s.t, i, WokenUp(At(s.t, i), s.pass))), s.tickets + At(s.t, i).tickets)
    case Alloc(_, i) =>
      Retally(s.(t := Put(s.t, i, New(EMBRYO, s.nextpid, s.pass)), nextpid := s.nextpid + 1), s.tickets + DEFAULT_TICKETS)
    case AllocFails(_, i) => s.(t := Put(s.t, i, At(s.t, i).(state := UNUSED)), forks := s.forks + 1)
    case Start(_, i) =>
      Retally(s.(t := Put(s.t, i, New(RUNNABLE, At(s.t, i).pid, s.pass)), forks := s.forks + 1), s.tickets + DEFAULT_TICKETS)
    case SetTickets(m, n) =>
      var k := Clamped(n);
      Retally(s.(t := Put(s.t, m, At(s.t, m).(tickets := k, stride := STRIDE1 / k))), s.tickets - At(s.t, m).tickets + k)
    case Reap(_, i) => s.(t := Put(s.t, i, At(s.t, i).(state := UNUSED, pid := 0)))
  }

  predicate LegalRun(s: Sys, es: seq<Event>)
    decreases |es|
  {
    es == [] || (Legal(s, es[0]) && LegalRun(Step(s, es[0]), es[1..]))
  }

  function Run(s: Sys, es: seq<Event>): Sys
    decreases |es|
  {
    if es == [] then s else Run(Step(s, es[0]), es[1..])
  }

  /** The machine after userinit. */
  function Init(n: nat): Sys {
    Sys(seq(n, i => if i == INIT then New(RUNNABLE, 1, 0) else Unused()), 0, StrideFor(DEFAULT_TICKETS), DEFAULT_TICKETS, 2, 0)
  }

  lemma {:induction false} RunConcat(s: Sys, a: seq<Event>, b: seq<Event>)
    requires LegalRun(s, a) && LegalRun(Run(s, a), b)
    ensures LegalRun(s, a + b) && Run(s, a + b) == Run(Run(s, a), b)
    decreases |a|
  {
    hide Legal, Step;
    if a == [] {
      assert a + b == b;
    } else {
      assert (a + b)[1..] == a[1..] + b;
      RunConcat(Step(s, a[0]), a[1..], b);
    }
  }

  lemma RunOne(s: Sys, e: Event)
    requires Legal(s, e)
    ensures LegalRun(s, [e]) && Run(s, [e]) == Step(s, e)
  {
    assert [e][1..] == [];
  }

  // ---------------------------------------------------------------- the global tickets

  predicate Live(e: Entry) {
    e.state != UNUSED && e.state != ZOMBIE
  }

  /** The tickets of the entries that are alive and not asleep. */
  function Demand(t: seq<Entry>): int {
    if t == [] then 0 else Demand(t[..|t| - 1]) + TicketsOf(t[|t| - 1])
  }

  function TicketsOf(e: Entry): int {
    if Live(e) && e.state != SLEEPING then e.tickets else 0
  }

  /** Live entries have their strides, and each fork, failed ones too, has left DEFAULT_TICKETS in the
      global tickets beyond those of its child. */
  predicate Sane(s: Sys) {
    && (forall i :: 0 <= i < |s.t| && Live(s.t[i]) ==> EntryOk(s.t[i]))
    && (forall i :: 0 <= i < |s.t| && s.t[i].state == EMBRYO ==> s.t[i].tickets == DEFAULT_TICKETS)
    && s.tickets == Demand(s.t) + DEFAULT_TICKETS * s.forks && s.stride == StrideFor(s.tickets)
  }

  lemma {:induction false} DemandPut(t: seq<Entry>, i: int, e: Entry)
    requires 0 <= i < |t|
    ensures Demand(Put(t, i, e)) == Demand(t) - TicketsOf(t[i]) + TicketsOf(e)
  {
    hide TicketsOf;
    var n := |t| - 1;
    if i < n {
      assert t[i := e][..n] == t[..n][i := e];
      DemandPut(t[..n], i, e);
    } else {
      assert t[i := e][..n] == t[..n];
    }
  }

  /** Each awake entry's tickets are among them. */
  lemma {:induction false} DemandCovers(t: seq<Entry>, i: int)
    requires forall k :: 0 <= k < |t| && Live(t[k]) ==> EntryOk(t[k])
    ensures Demand(t) >= 0 && (0 <= i < |t| ==> Demand(t) >= TicketsOf(t[i]))
  {
    if t != [] {
      DemandCovers(t[..|t| - 1], if i < |t| - 1 then i else -1);
    }
  }

  /** The entry a step changes. */
  function Subject(e: Event): int {
    match e
    case Wake(i) => i
    case Alloc(_, i) => i
    case AllocFails(_, i) => i
    case Start(_, i) => i
    case Reap(_, i) => i
    case _ => e.m
  }

  lemma StepPuts(s: Sys, e: Event)
    requires Legal(s, e)
    ensures 0 <= Subject(e) < |s.t|
    ensures Step(s, e).t == s.t[Subject(e) := At(Step(s, e).t, Subject(e))]
  {
    hide Idle, EntryOk;
  }

  /** Every step keeps this, and whoever divides by the global tickets without a test has some. */
  lemma StepSane(s: Sys, e: Event)
    requires Sane(s) && Legal(s, e)
    ensures Sane(Step(s, e))
    ensures e.Wake? || e.Alloc? || e.Start? || e.SetTickets? ==> Step(s, e).tickets > 0
  {
    var i, u := Subject(e), Step(s, e);
    StepPuts(s, e);
    DemandPut(s.t, i, At(u.t, i));
    DemandCovers(s.t, i);
    hide Demand, Idle;
    SubjectOk(s, e);
    forall k | 0 <= k < |u.t| && Live(u.t[k]) ensures EntryOk(u.t[k]) {
    }
  }

  lemma SubjectOk(s: Sys, e: Event)
    requires Legal(s, e) && (Live(At(s.t, Subject(e))) ==> EntryOk(At(s.t, Subject(e))))
    ensures var x := At(Step(s, e).t, Subject(e)); Live(x) ==> EntryOk(x)
    ensures At(Step(s, e).t, Subject(e)).state == EMBRYO ==> e.Alloc?
  {
    hide Idle;
  }

  /** From userinit on, through turns, sleeps, wakeups, kills, forks and exits: global_tickets is the sum
      of the tickets that are not asleep and 8 more for each fork so far. */
  lemma {:induction false} RunSane(s: Sys, es: seq<Event>)
    requires Sane(s) && LegalRun(s, es)
    ensures Sane(Run(s, es))
    decreases |es|
  {
    hide Sane, Legal, Step;
    if es != [] {
      StepSane(s, es[0]);
      RunSane(Step(s, es[0]), es[1..]);
    }
  }

  lemma {:induction false} DemandUnused(t: seq<Entry>)
    requires forall i :: 1 <= i < |t| ==> t[i] == Unused()
    ensures Demand(t) == if t == [] then 0 else TicketsOf(t[0])
  {
    if |t| > 1 {
      DemandUnused(t[..|t| - 1]);
    }
  }

  lemma InitSane(n: nat)
    requires n > 0
    ensures Sane(Init(n))
  {
    var t := Init(n).t;
    assert t[0] == New(RUNNABLE, 1, 0);
    assert forall i :: 1 <= i < n ==> t[i] == Unused();
    DemandUnused(t);
  }

  /** So each fork leaves 8 tickets too many, for good. */
  lemma TicketsExact(n: nat, es: seq<Event>)
    requires n > 0 && LegalRun(Init(n), es)
    ensures var u := Run(Init(n), es);
      u.tickets == Demand(u.t) + 8 * u.forks && u.stride == StrideFor(u.tickets)
  {
    InitSane(n);
    RunSane(Init(n), es);
  }
}
