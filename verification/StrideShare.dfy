/** What share of the CPU the stride scheduler gives (p4/solution/proc.c): over every run, two processes
    that do not sleep get turns in proportion to their tickets, whatever the others do; one that sleeps
    need not. */
module StrideShare {
  import opened Stride
  import opened StrideRun

  predicate Awake(e: Entry) {
    e.state == RUNNABLE || e.state == RUNNING
  }

  /** e does not end, put to sleep or re-price process i. */
  predicate Stays(e: Event, i: int) {
    e.Nap? || e.Exit? || e.SetTickets? ==> e.m != i
  }

  predicate AllStay(es: seq<Event>, i: int) {
    forall k :: 0 <= k < |es| ==> Stays(es[k], i)
  }

  lemma RestStay(es: seq<Event>, i: int)
    requires es != [] && AllStay(es, i)
    ensures Stays(es[0], i) && AllStay(es[1..], i)
  {
  }

  /** The pass of a process once its turn is charged. */
  function Due(e: Entry): int {
    if e.state == RUNNING then e.pass + e.stride else e.pass
  }

  // ---------------------------------------------------------------- what happens to one process

  /** An awake process stays awake, and its pass moves by its stride with each turn. */
  predicate Ran(e: Entry, e': Entry) {
    && Awake(e) && Awake(e') && EntryOk(e) && e'.tickets == e.tickets && e'.stride == e.stride
    && e'.runs >= e.runs && e'.pass == e.pass + (e'.runs - e.runs) * e.stride
  }

  lemma RanStep(s: Sys, e: Event, i: int)
    requires Legal(s, e) && Stays(e, i) && 0 <= i < |s.t| && Awake(s.t[i]) && EntryOk(s.t[i])
    ensures |Step(s, e).t| == |s.t| && Ran(s.t[i], Step(s, e).t[i])
  {
    hide Idle, EntryOk;
  }

  lemma RanMore(a: Entry, b: Entry, c: Entry)
    requires Ran(a, b) && Ran(b, c)
    ensures Ran(a, c)
  {
    assert (b.runs - a.runs) * a.stride + (c.runs - b.runs) * a.stride == (c.runs - a.runs) * a.stride;
  }

  lemma {:induction false} RanAll(s: Sys, es: seq<Event>, i: int)
    requires LegalRun(s, es) && AllStay(es, i) && 0 <= i < |s.t| && Awake(s.t[i]) && EntryOk(s.t[i])
    ensures |Run(s, es).t| == |s.t| && Ran(s.t[i], Run(s, es).t[i])
    decreases |es|
  {
    hide Legal, Step, Stays;
    if es != [] {
      RestStay(es, i);
      RanStep(s, es[0], i);
      RanAll(Step(s, es[0]), es[1..], i);
      RanMore(s.t[i], Step(s, es[0]).t[i], Run(s, es).t[i]);
    }
  }

  // ---------------------------------------------------------------- fairness of two processes

  /** Neither of two awake processes is more than its own stride ahead of the other. */
  predicate Fair(t: seq<Entry>, i: int, j: int) {
    && 0 <= i < |t| && 0 <= j < |t| && Awake(t[i]) && Awake(t[j]) && EntryOk(t[i]) && EntryOk(t[j])
    && Due(t[i]) <= t[j].pass + t[i].stride && Due(t[j]) <= t[i].pass + t[j].stride
  }

  lemma FairStep(s: Sys, e: Event, i: int, j: int)
    requires Fair(s.t, i, j) && Legal(s, e) && Stays(e, i) && Stays(e, j)
    ensures Fair(Step(s, e).t, i, j)
  {
    StrideTimesTickets(s.t[i]);
    StrideTimesTickets(s.t[j]);
    hide EntryOk;
  }

  /** Over every run of turns, sleeps, wakeups, forks, exits and kills in which i and j themselves only
      run and yield, however ties fall and however long turns last: fairness is kept. */
  lemma {:induction false} FairAlways(s: Sys, es: seq<Event>, i: int, j: int)
    requires Fair(s.t, i, j) && LegalRun(s, es) && AllStay(es, i) && AllStay(es, j)
    ensures Fair(Run(s, es).t, i, j)
    decreases |es|
  {
    hide Fair, Legal, Step, Stays;
    if es != [] {
      RestStay(es, i);
      RestStay(es, j);
      FairStep(s, es[0], i, j);
      FairAlways(Step(s, es[0]), es[1..], i, j);
    }
  }

  /** The turns of i from t to u are in proportion to its tickets, but for one turn and the rounding of
      strides. */
  predicate Share(t: seq<Entry>, u: seq<Entry>, i: int, j: int) {
    0 <= i < |t| && 0 <= j < |t| && |u| == |t| &&
    993 * (u[i].runs - t[i].runs) * t[j].tickets <= STRIDE1 * ((u[j].runs - t[j].runs) * t[i].tickets + t[j].tickets)
  }

  /** Two processes that wait for the CPU with equal passes. */
  predicate EqualStart(s: Sys, i: int, j: int) {
    && 0 <= i < |s.t| && 0 <= j < |s.t| && i != j && s.t[i].state == RUNNABLE && s.t[j].state == RUNNABLE
    && EntryOk(s.t[i]) && EntryOk(s.t[j]) && s.t[i].pass == s.t[j].pass
  }

  /** From equal passes on, over every such run, the turns of two processes are in proportion to their
      tickets. */
  lemma ShareBound(s: Sys, es: seq<Event>, i: int, j: int)
    requires EqualStart(s, i, j) && LegalRun(s, es) && AllStay(es, i) && AllStay(es, j)
    ensures Share(s.t, Run(s, es).t, i, j)
  {
    hide LegalRun, Run, AllStay, Fair, Ran;
    StrideTimesTickets(s.t[i]);
    StrideTimesTickets(s.t[j]);
    EqualIsFair(s, i, j);
    FairAlways(s, es, i, j);
    RanAll(s, es, i);
    RanAll(s, es, j);
    FairShare(s.t[i], Run(s, es).t[i], s.t[j], Run(s, es).t[j], Run(s, es).t, i, j);
  }

  lemma EqualIsFair(s: Sys, i: int, j: int)
    requires EqualStart(s, i, j)
    ensures Fair(s.t, i, j) && Awake(s.t[i]) && Awake(s.t[j])
  {
    StrideTimesTickets(s.t[i]);
    StrideTimesTickets(s.t[j]);
  }

  lemma FairShare(a: Entry, a': Entry, b: Entry, b': Entry, u: seq<Entry>, i: int, j: int)
    requires a.pass == b.pass && Ran(a, a') && Ran(b, b') && Fair(u, i, j) && u[i] == a' && u[j] == b'
    ensures 993 * (a'.runs - a.runs) * b.tickets <= STRIDE1 * ((b'.runs - b.runs) * a.tickets + b.tickets)
  {
    StrideTimesTickets(a);
    StrideTimesTickets(b);
    ShareArithmetic(a'.runs - a.runs, b'.runs - b.runs, a.stride, b.stride, a.tickets, b.tickets);
  }

  // ---------------------------------------------------------------- how long a process waits

  /** How often j gets the CPU. */
  function Turns(es: seq<Event>, j: int): (n: nat) {
    if es == [] then 0 else (if es[0] == Dispatch(j) then 1 else 0) + Turns(es[1..], j)
  }

  predicate Without(es: seq<Event>, i: int) {
    forall k :: 0 <= k < |es| ==> es[k] != Dispatch(i)
  }

  lemma DueStep(s: Sys, e: Event, i: int)
    requires Legal(s, e) && Stays(e, i) && 0 <= i < |s.t| && Awake(s.t[i]) && EntryOk(s.t[i])
    ensures |Step(s, e).t| == |s.t| && Awake(Step(s, e).t[i]) && EntryOk(Step(s, e).t[i])
    ensures Step(s, e).t[i].stride == s.t[i].stride
    ensures Due(Step(s, e).t[i]) == Due(s.t[i]) + if e == Dispatch(i) then s.t[i].stride else 0
  {
    hide Idle;
  }

  // While i waits, each turn of j starts from a pass of at most what i's will be.
  lemma {:induction false} TurnsWhileWaiting(s: Sys, es: seq<Event>, i: int, j: int)
    requires LegalRun(s, es) && AllStay(es, i) && AllStay(es, j) && Without(es, i) && i != j
    requires 0 <= i < |s.t| && 0 <= j < |s.t| && Awake(s.t[i]) && Awake(s.t[j]) && EntryOk(s.t[i]) && EntryOk(s.t[j])
    ensures Turns(es, j) > 0 ==> Due(s.t[j]) + (Turns(es, j) - 1) * s.t[j].stride <= Due(s.t[i])
    decreases |es|
  {
    hide EntryOk, Stays, Step, Due, Awake, AllStay;
    if es != [] {
      RestStay(es, i);
      RestStay(es, j);
      DueStep(s, es[0], i);
      DueStep(s, es[0], j);
      assert es[0] != Dispatch(i);
      assert Without(es[1..], i) by {
        assert forall k :: 0 <= k < |es| - 1 ==> es[1..][k] == es[k + 1];
      }
      TurnsWhileWaiting(Step(s, es[0]), es[1..], i, j);
      if es[0] == Dispatch(j) {
        Chooses(s, j, i);
        var n := Turns(es[1..], j);
        assert (n - 1) * s.t[j].stride + s.t[j].stride == n * s.t[j].stride;
      }
    }
  }

  // What is dispatched has no greater pass than what waits.
  lemma Chooses(s: Sys, j: int, i: int)
    requires Legal(s, Dispatch(j)) && 0 <= i < |s.t| && Awake(s.t[i])
    ensures 0 <= j < |s.t| && Due(s.t[j]) == s.t[j].pass <= s.t[i].pass == Due(s.t[i])
  {
    assert s.t[i].state == RUNNABLE && !Before(s.t[i], s.t[j]);
  }

  /** Between two turns of i, j gets at most stride_i / stride_j + 1, whatever the others do. */
  lemma WaitingBound(s: Sys, es: seq<Event>, i: int, j: int)
    requires LegalRun(s, es) && AllStay(es, i) && AllStay(es, j) && i != j
    requires es != [] && es[0] == Dispatch(i) && Without(es[1..], i)
    requires 0 <= i < |s.t| && 0 <= j < |s.t| && EntryOk(s.t[i]) && Awake(s.t[j]) && EntryOk(s.t[j])
    ensures s.t[j].stride >= 1 && Turns(es[1..], j) <= s.t[i].stride / s.t[j].stride + 1
  {
    StrideTimesTickets(s.t[i]);
    StrideTimesTickets(s.t[j]);
    hide EntryOk, Without, Turns, Step, Due, AllStay, Stays, LegalRun;
    StartsTurn(s, es, i);
    RestStay(es, i);
    RestStay(es, j);
    Chooses(s, i, j);
    DueStep(s, es[0], i);
    DueStep(s, es[0], j);
    TurnsWhileWaiting(Step(s, es[0]), es[1..], i, j);
    var n := Turns(es[1..], j);
    Quotient(if n > 0 then n - 1 else 0, s.t[j].stride, s.t[i].stride);
  }

  lemma StartsTurn(s: Sys, es: seq<Event>, i: int)
    requires LegalRun(s, es) && es != [] && es[0] == Dispatch(i)
    ensures Legal(s, es[0]) && LegalRun(Step(s, es[0]), es[1..]) && 0 <= i < |s.t| && Awake(s.t[i])
  {
  }
}
