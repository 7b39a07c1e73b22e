/** Exactly when tickets bound the share of the CPU (p4/solution/proc.c): not once one of the two
    processes may sleep. And a run from userinit in which sleeping is what wins the CPU. */
module StrideExact {
  import opened Stride
  import opened StrideRun
  import opened StrideShare

  // ---------------------------------------------------------------- runs that only yield

  predicate Calm(es: seq<Event>) {
    forall k :: 0 <= k < |es| ==> es[k].Dispatch? || es[k].Yield?
  }

  /** The CPU is free, and what waits for it has its stride. */
  predicate AtScan(t: seq<Entry>) {
    forall k :: 0 <= k < |t| ==> t[k].state != RUNNING && (t[k].state == RUNNABLE ==> EntryOk(t[k]))
  }

  /** Only passes and run counts of runnable entries differ, and these grow. */
  predicate Later(t: seq<Entry>, u: seq<Entry>) {
    && |u| == |t|
    && forall k :: 0 <= k < |t| ==>
         && u[k].state == t[k].state && u[k].tickets == t[k].tickets && u[k].stride == t[k].stride
         && u[k].runs >= t[k].runs
         && (t[k].state != RUNNABLE ==> u[k] == t[k])
  }

  lemma LaterTwice(t: seq<Entry>, u: seq<Entry>, v: seq<Entry>)
    requires Later(t, u) && Later(u, v)
    ensures Later(t, v)
  {
  }

  /** How far the passes of the others lie behind what i waits for. */
  function Behind(t: seq<Entry>, pass: int): nat {
    if t == [] then 0 else Behind(t[..|t| - 1], pass) + BehindOf(t[|t| - 1], pass)
  }

  function BehindOf(e: Entry, pass: int): nat {
    if e.state == RUNNABLE && e.pass <= pass then pass - e.pass + 1 else 0
  }

  lemma {:induction false} BehindUpdate(t: seq<Entry>, i: int, e: Entry, pass: int)
    requires 0 <= i < |t|
    ensures Behind(t[i := e], pass) == Behind(t, pass) - BehindOf(t[i], pass) + BehindOf(e, pass)
  {
    hide BehindOf;
    var n := |t| - 1;
    if i < n {
      assert t[i := e][..n] == t[..n][i := e];
      BehindUpdate(t[..n], i, e, pass);
    } else {
      assert t[i := e][..n] == t[..n];
    }
  }

  /** One turn of m that ends in yield. */
  function OneTurn(s: Sys, m: int): Sys {
    Step(Step(s, Dispatch(m)), Yield(m, 0))
  }

  lemma TurnRuns(s: Sys, m: int)
    requires AtScan(s.t) && Legal(s, Dispatch(m))
    ensures 0 <= m < |s.t| && s.t[m].state == RUNNABLE
    ensures Legal(Step(s, Dispatch(m)), Yield(m, 0))
    ensures OneTurn(s, m).t == s.t[m := s.t[m].(pass := s.t[m].pass + s.t[m].stride, runs := s.t[m].runs + 1)]
  {
    hide Before;
  }

  lemma TurnLater(s: Sys, m: int)
    requires AtScan(s.t) && Legal(s, Dispatch(m))
    ensures AtScan(OneTurn(s, m).t) && Later(s.t, OneTurn(s, m).t)
    ensures OneTurn(s, m).tickets == s.tickets && OneTurn(s, m).stride == s.stride
  {
    TurnRuns(s, m);
    hide Legal;
  }

  lemma Concat(s: Sys, m: int, es: seq<Event>)
    requires Legal(s, Dispatch(m)) && Legal(Step(s, Dispatch(m)), Yield(m, 0)) && LegalRun(OneTurn(s, m), es) && Calm(es)
    ensures LegalRun(s, [Dispatch(m), Yield(m, 0)] + es) && Calm([Dispatch(m), Yield(m, 0)] + es)
    ensures Run(s, [Dispatch(m), Yield(m, 0)] + es) == Run(OneTurn(s, m), es)
  {
    hide Legal, Step;
    var all := [Dispatch(m), Yield(m, 0)] + es;
    assert all[1..] == [Yield(m, 0)] + es && all[1..][1..] == es;
  }

  /** Whoever waits for the CPU gets it, while the others yield. */
  lemma {:induction false} GetsCpu(s: Sys, i: int) returns (es: seq<Event>)
    requires AtScan(s.t) && 0 <= i < |s.t| && s.t[i].state == RUNNABLE
    ensures LegalRun(s, es) && Calm(es)
    ensures var u := Run(s, es);
      && AtScan(u.t) && Later(s.t, u.t) && u.t[i] == s.t[i] && Legal(u, Dispatch(i))
      && u.tickets == s.tickets
    decreases Behind(s.t, s.t[i].pass)
  {
    hide LegalRun, Run, Step, Calm, Before;
    var m := ChoiceExists(s.t, |s.t|);
    assert Legal(s, Dispatch(m));
    if m == i {
      es := [];
      NoSteps(s);
    } else {
      TurnRuns(s, m);
      TurnLater(s, m);
      Closer(s, m, i);
      var more := GetsCpu(OneTurn(s, m), i);
      Concat(s, m, more);
      es := [Dispatch(m), Yield(m, 0)] + more;
      LaterTwice(s.t, OneTurn(s, m).t, Run(s, es).t);
    }
  }

  lemma NoSteps(s: Sys)
    ensures LegalRun(s, []) && Run(s, []) == s && Calm([])
  {
  }

  lemma Closer(s: Sys, m: int, i: int)
    requires AtScan(s.t) && Legal(s, Dispatch(m)) && m != i && 0 <= i < |s.t| && s.t[i].state == RUNNABLE
    ensures OneTurn(s, m).t[i] == s.t[i]
    ensures Behind(OneTurn(s, m).t, s.t[i].pass) < Behind(s.t, s.t[i].pass)
  {
    TurnRuns(s, m);
    assert !Before(s.t[i], s.t[m]);
    StrideTimesTickets(s.t[m]);
    BehindUpdate(s.t, m, OneTurn(s, m).t[m], s.t[i].pass);
  }

  lemma Append(s: Sys, a: seq<Event>, b: seq<Event>)
    requires LegalRun(s, a) && LegalRun(Run(s, a), b) && Calm(a) && Calm(b)
    ensures LegalRun(s, a + b) && Run(s, a + b) == Run(Run(s, a), b) && Calm(a + b)
  {
    hide LegalRun, Run;
    RunConcat(s, a, b);
  }

  /** It gets as many turns as one likes. */
  lemma {:induction false} GetsTurns(s: Sys, i: int, n: nat) returns (es: seq<Event>)
    requires AtScan(s.t) && 0 <= i < |s.t| && s.t[i].state == RUNNABLE
    ensures LegalRun(s, es) && Calm(es)
    ensures AtScan(Run(s, es).t) && Later(s.t, Run(s, es).t) && Run(s, es).t[i].runs >= s.t[i].runs + n
    decreases n
  {
    hide LegalRun, Run, Step, Calm, AtScan;
    if n == 0 {
      es := [];
      NoSteps(s);
    } else {
      var first := GetsCpu(s, i);
      var u := Run(s, first);
      TurnRuns(u, i);
      TurnLater(u, i);
      NoSteps(OneTurn(u, i));
      Concat(u, i, []);
      assert [Dispatch(i), Yield(i, 0)] + [] == [Dispatch(i), Yield(i, 0)];
      Append(s, first, [Dispatch(i), Yield(i, 0)]);
      var v := OneTurn(u, i);
      LaterTwice(s.t, u.t, v.t);
      var rest := GetsTurns(v, i, n - 1);
      Append(s, first + [Dispatch(i), Yield(i, 0)], rest);
      es := first + [Dispatch(i), Yield(i, 0)] + rest;
      LaterTwice(s.t, v.t, Run(v, rest).t);
    }
  }

  // ---------------------------------------------------------------- exactly when shares are bounded

  /** Only processes of `nappers` sleep, and i neither exits nor changes its tickets. */
  predicate Within(es: seq<Event>, nappers: set<int>, i: int) {
    forall k :: 0 <= k < |es| ==>
      (es[k].Nap? ==> es[k].m in nappers) && (es[k].Exit? || es[k].SetTickets? ==> es[k].m != i)
  }

  lemma CalmWithin(es: seq<Event>, nappers: set<int>, i: int)
    requires Calm(es)
    ensures Within(es, nappers, i)
  {
  }

  lemma WithinConcat(a: seq<Event>, b: seq<Event>, nappers: set<int>, i: int)
    requires Within(a, nappers, i) && Within(b, nappers, i)
    ensures Within(a + b, nappers, i)
  {
  }

  // j has the CPU and goes to sleep.
  lemma NapRuns(s: Sys, j: int)
    requires AtScan(s.t) && Legal(s, Dispatch(j))
    ensures var v := Run(s, [Dispatch(j), Nap(j, 0)]);
      && LegalRun(s, [Dispatch(j), Nap(j, 0)]) && 0 <= j < |s.t| == |v.t| && AtScan(v.t)
      && (forall k :: 0 <= k < |s.t| && k != j ==> v.t[k] == s.t[k])
      && v.t[j].state == SLEEPING && v.t[j].runs == s.t[j].runs + 1 && v.t[j].tickets == s.t[j].tickets
  {
    hide Before;
    var es, t := [Dispatch(j), Nap(j, 0)], Step(s, Dispatch(j));
    assert es[1..] == [Nap(j, 0)] && es[1..][1..] == [];
    assert Legal(t, Nap(j, 0));
    RunOne(t, Nap(j, 0));
  }

  /** While j sleeps long, i gets more turns than its tickets allow. */
  lemma Outruns(s: Sys, i: int, j: int) returns (es: seq<Event>)
    requires EqualStart(s, i, j) && AtScan(s.t)
    ensures LegalRun(s, es) && !Share(s.t, Run(s, es).t, i, j)
    ensures forall nappers, k :: j in nappers ==> Within(es, nappers, k)
  {
    hide LegalRun, Run, Calm, Legal, AtScan, Within, EntryOk;
    var a := GetsCpu(s, j);
    var u := Run(s, a);
    NapRuns(u, j);
    var nap := [Dispatch(j), Nap(j, 0)];
    var v := Run(u, nap);
    var n := STRIDE1 * ((v.t[j].runs - s.t[j].runs) * s.t[i].tickets + s.t[j].tickets) + 1;
    SomeTickets(s, i, j, v.t[j].runs - s.t[j].runs);
    var b := GetsTurns(v, i, n);
    RunConcat(s, a, nap);
    RunConcat(s, a + nap, b);
    es := a + nap + b;
    TooMany(s, i, j, v.t[j].runs - s.t[j].runs, Run(v, b).t[i].runs - s.t[i].runs);
    forall nappers, k | j in nappers ensures Within(es, nappers, k) {
      CalmWithin(a, nappers, k);
      CalmWithin(b, nappers, k);
      NapWithin(j, nappers, k);
      WithinConcat(a, nap, nappers, k);
      WithinConcat(a + nap, b, nappers, k);
    }
  }

  lemma NapWithin(j: int, nappers: set<int>, i: int)
    requires j in nappers
    ensures Within([Dispatch(j), Nap(j, 0)], nappers, i)
  {
  }

  lemma SomeTickets(s: Sys, i: int, j: int, m: int)
    requires EqualStart(s, i, j) && m >= 0
    ensures 1 <= s.t[j].tickets && 0 <= m * s.t[i].tickets
  {
    Scale(s.t[i].tickets, 0, m);
  }

  lemma TooMany(s: Sys, i: int, j: int, m: int, n: int)
    requires EqualStart(s, i, j) && m >= 0 && n > STRIDE1 * (m * s.t[i].tickets + s.t[j].tickets)
    ensures 993 * n * s.t[j].tickets > STRIDE1 * (m * s.t[i].tickets + s.t[j].tickets)
  {
    SomeTickets(s, i, j, m);
    Scale(993 * n, 1, s.t[j].tickets);
  }

  /** The exact condition. Let only processes of `nappers` sleep, and i and j keep their tickets: over all
      runs from equal passes their turns are in proportion, each way, if and only if neither of the two
      is among the nappers. */
  lemma ShareExactly(s: Sys, i: int, j: int, nappers: set<int>)
    requires EqualStart(s, i, j) && AtScan(s.t)
    ensures i !in nappers && j !in nappers <==>
      forall es :: LegalRun(s, es) && Within(es, nappers, i) && Within(es, nappers, j) ==>
        Share(s.t, Run(s, es).t, i, j) && Share(s.t, Run(s, es).t, j, i)
  {
    hide LegalRun, Run, Share, AtScan;
    if i !in nappers && j !in nappers {
      forall es | LegalRun(s, es) && Within(es, nappers, i) && Within(es, nappers, j)
        ensures Share(s.t, Run(s, es).t, i, j) && Share(s.t, Run(s, es).t, j, i)
      {
        ShareBound(s, es, i, j);
        ShareBound(s, es, j, i);
      }
    } else if j in nappers {
      var es := Outruns(s, i, j);
      assert Within(es, nappers, i) && Within(es, nappers, j);
    } else {
      var es := Outruns(s, j, i);
      assert Within(es, nappers, i) && Within(es, nappers, j);
    }
  }
}
