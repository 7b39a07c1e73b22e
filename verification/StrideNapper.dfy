/** What sleeping costs under the stride scheduler (p4/solution/proc.c:498-538), and a run from
    userinit in which one ticket that sleeps gets as many turns as thirty-two that do not. */
module StrideNapper {
  import opened Stride
  import opened StrideRun
  import opened StrideShare

  // ---------------------------------------------------------------- what sleeping costs

  /** The pass of a process, or what it would be if it were woken now. */
  function Standing(e: Entry, globalPass: int): int {
    if e.state == SLEEPING then globalPass + e.remain else e.pass
  }

  predicate Runs(e: Entry) {
    Awake(e) || e.state == SLEEPING
  }

  /** e does not end or re-price process i. */
  predicate Lasts(e: Event, i: int) {
    e.Exit? || e.SetTickets? ==> e.m != i
  }

  predicate AllLast(es: seq<Event>, i: int) {
    forall k :: 0 <= k < |es| ==> Lasts(es[k], i)
  }

  function Yields(es: seq<Event>, i: int): (n: nat) {
    if es == [] then 0 else (if es[0].Yield? && es[0].m == i then 1 else 0) + Yields(es[1..], i)
  }

  function Naps(es: seq<Event>, i: int): (n: nat) {
    if es == [] then 0 else (if es[0].Nap? && es[0].m == i then 1 else 0) + Naps(es[1..], i)
  }

  /** As many turns of e as `charged` says were charged, and at most the advance of the global pass was
      added. */
  predicate Cost(e: Entry, e': Entry, charged: int, before: int, after: int) {
    && Runs(e) && Runs(e') && e'.tickets == e.tickets && e'.stride == e.stride && before <= after
    && charged * e.stride <= Standing(e', after) - Standing(e, before) <= charged * e.stride + (after - before)
  }

  lemma StepCost(s: Sys, e: Event, i: int)
    requires Legal(s, e) && Lasts(e, i) && 0 <= i < |s.t| && Runs(s.t[i]) && s.stride >= 0
    ensures |Step(s, e).t| == |s.t| && Step(s, e).stride >= 0
    ensures Cost(s.t[i], Step(s, e).t[i], if e.Yield? && e.m == i then 1 else 0, s.pass, Step(s, e).pass)
    ensures Step(s, e).t[i].runs == s.t[i].runs + if (e.Yield? || e.Nap?) && e.m == i then 1 else 0
  {
    hide Idle, EntryOk;
  }

  lemma CostMore(a: Entry, b: Entry, c: Entry, y: int, z: int, p: int, q: int, r: int)
    requires Cost(a, b, y, p, q) && Cost(b, c, z, q, r)
    ensures Cost(a, c, y + z, p, r)
  {
    hide Standing;
    assert (y + z) * a.stride == y * a.stride + z * b.stride;
  }

  lemma NoCost(e: Entry, p: int)
    requires Runs(e)
    ensures Cost(e, e, 0, p, p)
  {
  }

  /** Over any run, a process is charged its stride for the turns it ended by yielding and nothing for
      those it ended asleep: its pass, or what waking would make it, moves by its yields' strides and
      at most the advance of the global pass, however often it ran. */
  lemma {:induction false} SleeperShare(s: Sys, es: seq<Event>, i: int)
    requires LegalRun(s, es) && AllLast(es, i) && 0 <= i < |s.t| && Runs(s.t[i]) && s.stride >= 0
    ensures var u := Run(s, es);
      && |u.t| == |s.t|
      && u.t[i].runs - s.t[i].runs == Yields(es, i) + Naps(es, i)
      && Cost(s.t[i], u.t[i], Yields(es, i), s.pass, u.pass)
    decreases |es|
  {
    hide Legal, Step, Standing, Lasts;
    if es == [] {
      NoCost(s.t[i], s.pass);
    } else {
      var v := Step(s, es[0]);
      StepCost(s, es[0], i);
      LastOn(es, i);
      SleeperShare(v, es[1..], i);
      CostMore(s.t[i], v.t[i], Run(s, es).t[i], if es[0].Yield? && es[0].m == i then 1 else 0, Yields(es[1..], i),
               s.pass, v.pass, Run(s, es).pass);
    }
  }

  lemma LastOn(es: seq<Event>, i: int)
    requires es != [] && AllLast(es, i)
    ensures Lasts(es[0], i) && AllLast(es[1..], i)
  {
  }

  // ---------------------------------------------------------------- one ticket against thirty-two

  /** i has one ticket and j has 32, both wait for the CPU and nobody else does; the global tickets cover
      the two. */
  predicate Duel(s: Sys, i: int, j: int) {
    && 0 <= i < |s.t| && 0 <= j < |s.t| && i != j
    && s.t[i].state == RUNNABLE && s.t[i].tickets == 1 && s.t[i].stride == 1024
    && s.t[j].state == RUNNABLE && s.t[j].tickets == 32 && s.t[j].stride == 32
    && (forall k :: 0 <= k < |s.t| && k != i && k != j ==> !Awake(s.t[k]))
    && s.tickets >= 33
  }

  /** Since i had m turns and j had n, j is at most one ahead, and passes show it. */
  predicate Level(s: Sys, i: int, j: int, m: int, n: int) {
    && 0 <= i < |s.t| && 0 <= j < |s.t|
    && s.t[i].pass - 32 * (s.t[i].runs - m) <= s.t[j].pass - 32 * (s.t[j].runs - n)
    && s.t[j].runs - n <= s.t[i].runs - m + 1
  }

  function NapTurn(i: int): seq<Event> {
    [Dispatch(i), Nap(i, 0), Wake(i)]
  }

  function YieldTurn(j: int): seq<Event> {
    [Dispatch(j), Yield(j, 0)]
  }

  // i sleeps at the end of its turn and is woken: its pass moves by at most 32.
  lemma NapTurnRuns(s: Sys, i: int, j: int, m: int, n: int)
    requires Duel(s, i, j) && Level(s, i, j, m, n) && Chosen(s.t, |s.t|, i)
    ensures LegalRun(s, NapTurn(i))
    ensures var u := Run(s, NapTurn(i));
      && Duel(u, i, j) && Level(u, i, j, m, n) && |u.t| == |s.t|
      && u.t[i].runs == s.t[i].runs + 1 && u.t[j].runs == s.t[j].runs
  {
    hide Before;
    assert Legal(s, Dispatch(i));
    var a := Step(s, Dispatch(i));
    var b := Step(a, Nap(i, 0));
    SmallStride(s.tickets - 1);
    assert b.t[i].remain == s.t[i].pass - s.pass && b.pass == s.pass + StrideFor(s.tickets - 1);
    hide Chosen, Idle, StrideFor;
    RunOne(b, Wake(i));
    assert NapTurn(i)[1..] == [Nap(i, 0), Wake(i)] && [Nap(i, 0), Wake(i)][1..] == [Wake(i)];
  }

  lemma SmallStride(tickets: int)
    requires tickets >= 32
    ensures 0 <= StrideFor(tickets) <= 32
  {
  }

  lemma YieldTurnRuns(s: Sys, i: int, j: int, m: int, n: int)
    requires Duel(s, i, j) && Level(s, i, j, m, n) && Chosen(s.t, |s.t|, j)
    ensures LegalRun(s, YieldTurn(j))
    ensures var u := Run(s, YieldTurn(j));
      && Duel(u, i, j) && Level(u, i, j, m, n) && |u.t| == |s.t|
      && u.t[i] == s.t[i] && u.t[j].pass == s.t[j].pass + 32 && s.t[j].pass <= s.t[i].pass
  {
    assert !Before(s.t[i], s.t[j]);
    assert Legal(s, Dispatch(j));
    var a := Step(s, Dispatch(j));
    hide Chosen, Idle;
    RunOne(a, Yield(j, 0));
    assert YieldTurn(j)[1..] == [Yield(j, 0)];
  }

  lemma NothingRuns(s: Sys)
    ensures LegalRun(s, []) && Run(s, []) == s
  {
  }

  /** For any k there is a run in which i, asleep at the end of each turn, gets k more turns, and j, which
      yields, at most one more than i in all. */
  lemma {:induction false} NapperKeepsUp(s: Sys, i: int, j: int, m: int, n: int, k: nat) returns (es: seq<Event>)
    requires Duel(s, i, j) && Level(s, i, j, m, n)
    ensures LegalRun(s, es)
    ensures var u := Run(s, es); Duel(u, i, j) && Level(u, i, j, m, n) && u.t[i].runs == s.t[i].runs + k
    decreases k, if s.t[i].pass >= s.t[j].pass then s.t[i].pass - s.t[j].pass + 1 else 0
  {
    hide LegalRun, Run, NapTurn, YieldTurn, Before;
    if k == 0 {
      es := [];
      NothingRuns(s);
    } else {
      var c := ChoiceExists(s.t, |s.t|);
      assert c == i || c == j;
      if c == i {
        NapTurnRuns(s, i, j, m, n);
        var more := NapperKeepsUp(Run(s, NapTurn(i)), i, j, m, n, k - 1);
        RunConcat(s, NapTurn(i), more);
        es := NapTurn(i) + more;
      } else {
        YieldTurnRuns(s, i, j, m, n);
        var more := NapperKeepsUp(Run(s, YieldTurn(j)), i, j, m, n, k);
        RunConcat(s, YieldTurn(j), more);
        es := YieldTurn(j) + more;
      }
    }
  }

  // ---------------------------------------------------------------- from userinit to the duel

  /** A table of init, two children and unused entries. */
  predicate Family(s: Sys, a: Entry, b: Entry, c: Entry, pass: int, tickets: int) {
    && |s.t| >= 3 && s.t[0] == a && s.t[1] == b && s.t[2] == c && s.pass == pass && s.tickets == tickets
    && forall k :: 3 <= k < |s.t| ==> s.t[k] == Unused()
  }

  function Child(state: State, pid: int, tickets: int, stride: int, pass: int, remain: int, runs: int): Entry {
    Entry(state, pid, tickets, stride, pass, remain, 0, runs)
  }

  lemma RunCons(s: Sys, e: Event, es: seq<Event>)
    requires Legal(s, e) && LegalRun(Step(s, e), es)
    ensures LegalRun(s, [e] + es) && Run(s, [e] + es) == Run(Step(s, e), es)
  {
    assert ([e] + es)[1..] == es;
  }

  // init forks twice.
  lemma TwoForks(n: nat) returns (es: seq<Event>)
    requires n >= 3
    ensures LegalRun(Init(n), es)
    ensures Family(Run(Init(n), es), Child(RUNNING, 1, 8, 128, 0, 0, 0), Child(RUNNABLE, 2, 8, 128, 0, 0, 0),
                   Child(RUNNABLE, 3, 8, 128, 0, 0, 0), 0, 40)
  {
    hide LegalRun, Run;
    var s0 := Init(n);
    assert Family(s0, New(RUNNABLE, 1, 0), Unused(), Unused(), 0, 8) && s0.nextpid == 2;
    assert Legal(s0, Dispatch(0));
    var s1 := Step(s0, Dispatch(0));
    hide Chosen, Idle;
    var s2 := Step(s1, Alloc(0, 1));
    var s3 := Step(s2, Start(0, 1));
    var s4 := Step(s3, Alloc(0, 2));
    var s5 := Step(s4, Start(0, 2));
    NothingRuns(s5);
    RunCons(s4, Start(0, 2), []);
    RunCons(s3, Alloc(0, 2), [Start(0, 2)] + []);
    RunCons(s2, Start(0, 1), [Alloc(0, 2)] + ([Start(0, 2)] + []));
    RunCons(s1, Alloc(0, 1), [Start(0, 1)] + ([Alloc(0, 2)] + ([Start(0, 2)] + [])));
    es := [Dispatch(0)] + ([Alloc(0, 1)] + ([Start(0, 1)] + ([Alloc(0, 2)] + ([Start(0, 2)] + []))));
    RunCons(s0, Dispatch(0), [Alloc(0, 1)] + ([Start(0, 1)] + ([Alloc(0, 2)] + ([Start(0, 2)] + []))));
  }

  // init sleeps in wait, and the first child gets the CPU.
  lemma InitWaits(s: Sys) returns (es: seq<Event>)
    requires Family(s, Child(RUNNING, 1, 8, 128, 0, 0, 0), Child(RUNNABLE, 2, 8, 128, 0, 0, 0),
                    Child(RUNNABLE, 3, 8, 128, 0, 0, 0), 0, 40)
    ensures LegalRun(s, es)
    ensures Family(Run(s, es), Child(SLEEPING, 1, 8, 128, 128, 0, 1), Child(RUNNING, 2, 8, 128, 0, 0, 0),
                   Child(RUNNABLE, 3, 8, 128, 0, 0, 0), 32, 32)
  {
    hide LegalRun, Run;
    var s1 := Step(s, Nap(0, 0));
    assert Family(s1, Child(SLEEPING, 1, 8, 128, 128, 0, 1), Child(RUNNABLE, 2, 8, 128, 0, 0, 0),
                  Child(RUNNABLE, 3, 8, 128, 0, 0, 0), 32, 32);
    hide StrideFor;
    assert Legal(s1, Dispatch(1));
    NothingRuns(Step(s1, Dispatch(1)));
    RunCons(s1, Dispatch(1), []);
    es := [Nap(0, 0)] + ([Dispatch(1)] + []);
    RunCons(s, Nap(0, 0), [Dispatch(1)] + []);
  }

  // The first child asks for one ticket and naps.
  lemma FirstNaps(s: Sys) returns (es: seq<Event>)
    requires Family(s, Child(SLEEPING, 1, 8, 128, 128, 0, 1), Child(RUNNING, 2, 8, 128, 0, 0, 0),
                    Child(RUNNABLE, 3, 8, 128, 0, 0, 0), 32, 32)
    ensures LegalRun(s, es)
    ensures Family(Run(s, es), Child(SLEEPING, 1, 8, 128, 128, 0, 1), Child(RUNNABLE, 2, 1, 1024, 42, -32, 1),
                   Child(RUNNABLE, 3, 8, 128, 0, 0, 0), 74, 25)
  {
    hide LegalRun, Run, Chosen, Idle, Before;
    var s1 := Step(s, SetTickets(1, 1));
    assert s1.tickets == 25 && s1.t[1] == Child(RUNNING, 2, 1, 1024, 0, 0, 0);
    var s2 := Step(s1, Nap(1, 0));
    assert s2.pass == 74 && s2.t[1].remain == -32;
    var s3 := Step(s2, Wake(1));
    NothingRuns(s3);
    RunCons(s2, Wake(1), []);
    RunCons(s1, Nap(1, 0), [Wake(1)] + []);
    es := [SetTickets(1, 1)] + ([Nap(1, 0)] + ([Wake(1)] + []));
    RunCons(s, SetTickets(1, 1), [Nap(1, 0)] + ([Wake(1)] + []));
  }

  // The second child asks for 32 tickets, and naps once.
  lemma SecondNaps(s: Sys) returns (es: seq<Event>)
    requires Family(s, Child(SLEEPING, 1, 8, 128, 128, 0, 1), Child(RUNNABLE, 2, 1, 1024, 42, -32, 1),
                    Child(RUNNABLE, 3, 8, 128, 0, 0, 0), 74, 25)
    ensures LegalRun(s, es)
    ensures Family(Run(s, es), Child(SLEEPING, 1, 8, 128, 128, 0, 1), Child(RUNNABLE, 2, 1, 1024, 42, -32, 1),
                   Child(RUNNABLE, 3, 32, 32, 60, -74, 1), 134, 49)
  {
    hide LegalRun, Run;
    assert Legal(s, Dispatch(2));
    var s1 := Step(s, Dispatch(2));
    hide Chosen, Idle, Before;
    var s2 := Step(s1, SetTickets(2, 32));
    var s3 := Step(s2, Nap(2, 0));
    assert s3.pass == 134 && s3.t[2].remain == -74;
    var s4 := Step(s3, Wake(2));
    NothingRuns(s4);
    RunCons(s3, Wake(2), []);
    RunCons(s2, Nap(2, 0), [Wake(2)] + []);
    RunCons(s1, SetTickets(2, 32), [Nap(2, 0)] + ([Wake(2)] + []));
    es := [Dispatch(2)] + ([SetTickets(2, 32)] + ([Nap(2, 0)] + ([Wake(2)] + [])));
    RunCons(s, Dispatch(2), [SetTickets(2, 32)] + ([Nap(2, 0)] + ([Wake(2)] + [])));
  }

  /** From userinit on there are runs, of any length, in which a process with one ticket that sleeps at the
      end of its turns gets k turns after a common start, and one with 32 that yields at most k + 1. */
  lemma NapperFromBoot(n: nat, k: nat) returns (start: seq<Event>, es: seq<Event>)
    requires n >= 3
    ensures LegalRun(Init(n), start) && LegalRun(Run(Init(n), start), es) && LegalRun(Init(n), start + es)
    ensures var s, u := Run(Init(n), start), Run(Run(Init(n), start), es);
      && Duel(s, 1, 2) && Duel(u, 1, 2)
      && u.t[1].runs == s.t[1].runs + k && u.t[2].runs <= s.t[2].runs + k + 1
  {
    hide LegalRun, Run;
    var a := TwoForks(n);
    var s1 := Run(Init(n), a);
    var b := InitWaits(s1);
    var s2 := Run(s1, b);
    var c := FirstNaps(s2);
    var d := SecondNaps(Run(s2, c));
    RunConcat(s2, c, d);
    RunConcat(s1, b, c + d);
    RunConcat(Init(n), a, b + (c + d));
    start := a + (b + (c + d));
    var s := Run(Init(n), start);
    assert Duel(s, 1, 2) && Level(s, 1, 2, 1, 1);
    es := NapperKeepsUp(s, 1, 2, 1, 1, k);
    RunConcat(Init(n), start, es);
  }
}
