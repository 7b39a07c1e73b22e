/** Runs of the logging system (log.c): operations begin, log blocks and end in any
    interleaving, the last one to end commits, and power may fail anywhere. */
module LogRun {
  import opened Blocks
  import opened Log

  /** `used[i]` counts the blocks the i-th outstanding operation added to the log;
      `cache` holds the pinned buffers; `asleep` waits in begin_op. */
  datatype Sys = Sys(disk: Disk, cache: map<nat, Block>, lh: seq<nat>,
                     used: seq<nat>, committing: bool, asleep: set<nat>)

  datatype Event =
    | BeginOp(op: nat)                              // one pass through begin_op's loop
    | LogWrite(slot: nat, no: nat, data: Block)     // by the operation at `slot`
    | EndOp(slot: nat)
    | CommitDone                                    // commit() and the wakeup after it
    | Crash(at: nat, again: seq<nat>)               // after `at` writes of the running commit

  datatype Outcome = Ran(s: Sys) | Panic

  function Init(d: Disk): Sys {
    Sys(d, map[], [], [], false, {})
  }

  function Absorb(lh: seq<nat>, no: nat): seq<nat> {
    if no in lh then lh else lh + [no]
  }

  predicate Admits(s: Sys) {
    !s.committing && |s.lh| + (|s.used| + 1) * MAXOPBLOCKS <= LOGSIZE
  }

  function Remove(used: seq<nat>, i: nat): seq<nat> {
    if i < |used| then seq(|used| - 1, k requires 0 <= k < |used| - 1 => if k < i then used[k] else used[k + 1]) else used
  }

  function PendingWrites(g: Geometry, s: Sys): seq<Write> {
    if s.committing && s.lh != [] then CommitWrites(g, s.disk, s.cache, s.lh) else []
  }

  function Step(g: Geometry, s: Sys, e: Event): Outcome {
    match e
    case BeginOp(op) =>
      if Admits(s) then Ran(s.(used := s.used + [0], asleep := s.asleep - {op}))
      else Ran(s.(asleep := s.asleep + {op}))
    case LogWrite(slot, no, data) =>
      if |s.lh| >= LOGSIZE || |s.lh| >= g.size - 1 || slot >= |s.used| then Panic
      else
        var more := if no in s.lh then 0 else 1;
        Ran(s.(lh := Absorb(s.lh, no), cache := s.cache[no := data], used := s.used[slot := s.used[slot] + more]))
    case EndOp(slot) =>
      if s.committing then Panic
      else
        var left := Remove(s.used, slot);
        if left == [] then Ran(s.(used := [], committing := true))
        else Ran(s.(used := left, asleep := {}))
    case CommitDone =>
      Ran(Init(Apply(s.disk, PendingWrites(g, s))))
    case Crash(at, again) =>
      var ws := PendingWrites(g, s);
      Ran(Init(AfterCrashes(g, Apply(s.disk, if at <= |ws| then ws[..at] else ws), again)))
  }

  /** What the callers may do: log home blocks inside an operation, at most `budget` new ones each. */
  predicate Allowed(g: Geometry, s: Sys, e: Event, budget: nat) {
    match e
    case BeginOp(_) => true
    case LogWrite(slot, no, _) =>
      slot < |s.used| && no < |s.disk| && !InLog(g, no) && (no in s.lh || s.used[slot] < budget)
    case EndOp(slot) => slot < |s.used|
    case CommitDone => s.committing
    case Crash(at, _) => at <= |PendingWrites(g, s)|
  }

  function Run(g: Geometry, s: Sys, es: seq<Event>): Outcome
    decreases es
  {
    if es == [] then Ran(s)
    else match Step(g, s, es[0])
      case Panic => Panic
      case Ran(s') => Run(g, s', es[1..])
  }

  predicate Legal(g: Geometry, s: Sys, es: seq<Event>, budget: nat)
    decreases es
  {
    es == [] ||
    (Allowed(g, s, es[0], budget) && (Step(g, s, es[0]).Ran? ==> Legal(g, Step(g, s, es[0]).s, es[1..], budget)))
  }

  // ---------------------------------------------------------------- the reservation arithmetic

  /** How many more blocks the outstanding operations may add. */
  function Spare(used: seq<nat>, budget: nat): int {
    if used == [] then 0 else Spare(used[..|used| - 1], budget) + budget - used[|used| - 1]
  }

  lemma {:induction false} SpareUpdate(used: seq<nat>, budget: nat, i: nat, v: nat)
    requires i < |used|
    ensures Spare(used[i := v], budget) == Spare(used, budget) + used[i] - v
  {
    var front := used[..|used| - 1];
    if i < |front| {
      assert used[i := v][..|used| - 1] == front[i := v];
      SpareUpdate(front, budget, i, v);
    } else {
      assert used[i := v][..|used| - 1] == front;
    }
  }

  lemma {:induction false} SpareRemove(used: seq<nat>, budget: nat, i: nat)
    requires i < |used|
    ensures Spare(Remove(used, i), budget) == Spare(used, budget) + used[i] - budget
  {
    var front, r := used[..|used| - 1], Remove(used, i);
    if i < |front| {
      assert r[..|r| - 1] == Remove(front, i);
      SpareRemove(front, budget, i);
    } else {
      assert r == front;
    }
  }

  lemma {:induction false} SpareBounds(used: seq<nat>, budget: nat)
    requires forall i :: 0 <= i < |used| ==> used[i] <= budget
    ensures 0 <= Spare(used, budget) <= |used| * budget
    ensures forall i :: 0 <= i < |used| ==> budget - used[i] <= Spare(used, budget)
  {
    if used != [] {
      var front := used[..|used| - 1];
      SpareBounds(front, budget);
      assert |used| * budget == |front| * budget + budget;
      assert forall i :: 0 <= i < |front| ==> used[i] == front[i];
    }
  }

  /** What every reachable state keeps, for a budget below MAXOPBLOCKS. */
  ghost predicate Inv(g: Geometry, s: Sys, budget: nat) {
    && Quiet(g, s.disk)
    && Loggable(g, |s.disk|, s.lh)
    && Pins(s.cache, s.lh)
    && (forall i :: 0 <= i < |s.used| ==> s.used[i] <= budget)
    && |s.lh| + Spare(s.used, budget) <= LOGSIZE - 2
    && (s.committing ==> s.used == [])
    && (s.used == [] && !s.committing ==> s.lh == [])
    && (s.asleep != {} ==> !Admits(s))
  }

  lemma BeginKeeps(g: Geometry, s: Sys, op: nat, budget: nat)
    requires Inv(g, s, budget) && budget < MAXOPBLOCKS
    ensures Inv(g, Step(g, s, BeginOp(op)).s, budget)
  {
    hide Quiet, Loggable, Pins;
    if Admits(s) {
      var used := s.used + [0];
      assert used[..|used| - 1] == s.used;
      SpareBounds(s.used, budget);
      assert |s.used| * budget <= |s.used| * 9;
      assert s.asleep == {};
    }
  }

  lemma AbsorbLoggable(g: Geometry, limit: nat, cache: map<nat, Block>, lh: seq<nat>, no: nat, data: Block)
    requires Loggable(g, limit, lh) && Pins(cache, lh)
    requires no < limit && !InLog(g, no)
    requires no !in lh ==> |lh| < LOGSIZE && |lh| + 1 < g.size
    ensures Loggable(g, limit, Absorb(lh, no)) && Pins(cache[no := data], Absorb(lh, no))
  {
    forall k ensures k in cache[no := data] <==> k in Absorb(lh, no) {
      if no !in lh {
        assert Absorb(lh, no)[|lh|] == no;
      }
    }
  }

  lemma LogWriteKeeps(g: Geometry, s: Sys, e: Event, budget: nat)
    requires Inv(g, s, budget) && budget < MAXOPBLOCKS && LOGSIZE <= g.size
    requires e.LogWrite? && Allowed(g, s, e, budget)
    ensures Step(g, s, e).Ran? && Inv(g, Step(g, s, e).s, budget)
  {
    hide Quiet, Loggable, Pins;
    SpareBounds(s.used, budget);
    AbsorbLoggable(g, |s.disk|, s.cache, s.lh, e.no, e.data);
    SpareUpdate(s.used, budget, e.slot, Step(g, s, e).s.used[e.slot]);
  }

  lemma EndKeeps(g: Geometry, s: Sys, slot: nat, budget: nat)
    requires Inv(g, s, budget) && slot < |s.used|
    ensures Step(g, s, EndOp(slot)).Ran? && Inv(g, Step(g, s, EndOp(slot)).s, budget)
  {
    hide Quiet, Loggable, Pins;
    SpareRemove(s.used, budget, slot);
    SpareBounds(s.used, budget);
  }

  /** The home blocks in the cache's view, and those that survive a power failure. */
  datatype Ideal = Ideal(view: Disk, durable: Disk)

  /** Did the commit record reach the device before the failure? */
  predicate Survives(g: Geometry, s: Sys, e: Event) {
    e.Crash? && s.committing && s.lh != [] && e.at > |s.lh|
  }

  /** The simple machine: writes change the view, a finished commit makes it durable,
      a power failure falls back to one of the two. */
  function IdealStep(m: Ideal, e: Event, survives: bool): Ideal {
    match e
    case LogWrite(_, no, data) => m.(view := WriteBlock(m.view, Write(no, data)))
    case CommitDone => Ideal(m.view, m.view)
    case Crash(_, _) => if survives then Ideal(m.view, m.view) else Ideal(m.durable, m.durable)
    case _ => m
  }

  predicate Matches(g: Geometry, s: Sys, m: Ideal) {
    HomeEq(g, s.disk, m.durable) && HomeEq(g, Installed(s.disk, s.cache), m.view)
  }

  // A machine that restarts on a quiet device is in order, whatever was lost.
  lemma Restart(g: Geometry, d: Disk, v: Disk, budget: nat)
    requires Quiet(g, d) && HomeEq(g, d, v)
    ensures Inv(g, Init(d), budget) && Matches(g, Init(d), Ideal(v, v))
  {
    assert HomeEq(g, Installed(d, map[]), d);
    HomeEqTrans(g, Installed(d, map[]), d, v);
  }

  lemma CommitDoneKeeps(g: Geometry, s: Sys, m: Ideal, budget: nat)
    requires Inv(g, s, budget) && s.committing && Matches(g, s, m)
    ensures var t := Step(g, s, CommitDone).s;
      Inv(g, t, budget) && Matches(g, t, IdealStep(m, CommitDone, false))
  {
    var t := Step(g, s, CommitDone).s;
    hide CommitWrites, Apply, Quiet, Inv, HomeEq;
    var all := Installed(s.disk, s.cache);
    assert Quiet(g, t.disk) && HomeEq(g, t.disk, all) by {
      QuietAndPinned(g, s, budget);
      if s.lh == [] {
        ApplyNothing(s.disk);
        NothingPinned(g, s.disk, s.cache);
      } else {
        CommitCompletes(g, s.disk, s.cache, s.lh);
      }
    }
    HomeEqTrans(g, t.disk, all, m.view);
    Restart(g, t.disk, m.view, budget);
  }

  lemma QuietAndPinned(g: Geometry, s: Sys, budget: nat)
    requires Inv(g, s, budget)
    ensures Quiet(g, s.disk) && Loggable(g, |s.disk|, s.lh) && Pins(s.cache, s.lh)
  {
  }

  lemma NothingPinned(g: Geometry, d: Disk, cache: map<nat, Block>)
    requires Pins(cache, [])
    ensures HomeEq(g, d, Installed(d, cache))
  {
    forall k ensures k !in cache { assert k !in []; }
  }

  /** Power fails after any writes of a commit, recovery is interrupted any number of
      times: the home blocks are those before the commit or those after it. */
  lemma CrashKeeps(g: Geometry, s: Sys, m: Ideal, e: Event, budget: nat)
    requires Inv(g, s, budget) && Matches(g, s, m) && e.Crash? && Allowed(g, s, e, budget)
    ensures var t := Step(g, s, e).s;
      Inv(g, t, budget) && Matches(g, t, IdealStep(m, e, Survives(g, s, e)))
  {
    var t := Step(g, s, e).s;
    hide CommitWrites, Apply, Quiet, Inv, HomeEq, AfterCrashes;
    var v := if Survives(g, s, e) then m.view else m.durable;
    assert Quiet(g, t.disk) && HomeEq(g, t.disk, v) by {
      QuietAndPinned(g, s, budget);
      if s.committing && s.lh != [] {
        CommitCrashAtomic(g, s.disk, s.cache, s.lh, e.at, e.again);
        HomeEqTrans(g, t.disk, if e.at <= |s.lh| then s.disk else Installed(s.disk, s.cache), v);
      } else {
        ApplyNothing(s.disk);
        QuietRecovery(g, s.disk);
        RecoveryIsCrashProof(g, s.disk, e.again);
        HomeEqTrans(g, t.disk, Recovered(g, s.disk), s.disk);
        HomeEqTrans(g, t.disk, s.disk, v);
      }
    }
    Restart(g, t.disk, v, budget);
  }

  /** A logged block changes the view at that block and nowhere else. */
  lemma LogWriteMatches(g: Geometry, s: Sys, m: Ideal, e: Event, budget: nat)
    requires Matches(g, s, m) && e.LogWrite? && Allowed(g, s, e, budget) && Step(g, s, e).Ran?
    ensures Matches(g, Step(g, s, e).s, IdealStep(m, e, false))
  {
    var t := Step(g, s, e).s;
    forall k | 0 <= k < |s.disk| && !InLog(g, k)
      ensures ReadBlock(Installed(t.disk, t.cache), k) == ReadBlock(WriteBlock(m.view, Write(e.no, e.data)), k)
    {
      assert ReadBlock(Installed(s.disk, s.cache), k) == ReadBlock(m.view, k);
    }
  }

  /** One step never panics, keeps the invariant and does what the simple machine does. */
  lemma StepKeeps(g: Geometry, s: Sys, m: Ideal, e: Event, budget: nat)
    requires Inv(g, s, budget) && Matches(g, s, m) && Allowed(g, s, e, budget)
    requires budget < MAXOPBLOCKS && LOGSIZE <= g.size
    ensures Step(g, s, e).Ran?
    ensures Inv(g, Step(g, s, e).s, budget)
    ensures Matches(g, Step(g, s, e).s, IdealStep(m, e, Survives(g, s, e)))
  {
    match e
    case BeginOp(op) => BeginKeeps(g, s, op, budget);
    case LogWrite(_, _, _) => LogWriteKeeps(g, s, e, budget); LogWriteMatches(g, s, m, e, budget);
    case EndOp(slot) => EndKeeps(g, s, slot, budget);
    case CommitDone => CommitDoneKeeps(g, s, m, budget);
    case Crash(_, _) => CrashKeeps(g, s, m, e, budget);
  }

  function IdealRun(g: Geometry, s: Sys, m: Ideal, es: seq<Event>): Ideal
    decreases es
  {
    if es == [] || Step(g, s, es[0]).Panic? then m
    else IdealRun(g, Step(g, s, es[0]).s, IdealStep(m, es[0], Survives(g, s, es[0])), es[1..])
  }

  /** Every run whose operations add fewer than MAXOPBLOCKS blocks each: no panic is reached,
      at most LOGSIZE - 2 blocks are ever logged, no operation sleeps in begin_op while it
      could be admitted, and view and durable contents are those of the simple machine. */
  lemma {:induction false} RunRefines(g: Geometry, s: Sys, m: Ideal, es: seq<Event>, budget: nat)
    requires Inv(g, s, budget) && Matches(g, s, m) && Legal(g, s, es, budget)
    requires budget < MAXOPBLOCKS && LOGSIZE <= g.size
    ensures Run(g, s, es).Ran?
    ensures var t := Run(g, s, es).s;
      && |t.lh| <= LOGSIZE - 2
      && (t.asleep != {} ==> t.committing || |t.lh| + (|t.used| + 1) * MAXOPBLOCKS > LOGSIZE)
      && (t.committing ==> t.used == [])
      && Matches(g, t, IdealRun(g, s, m, es))
    decreases es
  {
    if es == [] {
      SpareBounds(s.used, budget);
    } else {
      StepKeeps(g, s, m, es[0], budget);
      RunRefines(g, Step(g, s, es[0]).s, IdealStep(m, es[0], Survives(g, s, es[0])), es[1..], budget);
    }
  }

  // ---------------------------------------------------------------- how tight the reservation is

  function Burst(slot: nat, first: nat, n: nat): seq<Event>
    decreases n
  {
    if n == 0 then [] else [LogWrite(slot, first, ZeroBlock())] + Burst(slot, first + 1, n - 1)
  }

  // The operation at `slot` logs n fresh blocks; `after` is run next.
  lemma {:induction false} BurstRuns(g: Geometry, s: Sys, slot: nat, first: nat, n: nat, budget: nat, after: seq<Event>)
    returns (t: Sys)
    requires slot < |s.used| && s.used[slot] + n <= budget && g.size == LOGSIZE && |s.lh| + n < LOGSIZE
    requires g.start + g.size <= first && first + n <= |s.disk|
    requires forall b :: b in s.lh ==> b < first
    ensures Run(g, s, Burst(slot, first, n) + after) == Run(g, t, after)
    ensures Legal(g, t, after, budget) ==> Legal(g, s, Burst(slot, first, n) + after, budget)
    ensures |t.lh| == |s.lh| + n && t.used == s.used[slot := s.used[slot] + n]
    ensures t.disk == s.disk && t.committing == s.committing
    ensures forall b :: b in t.lh ==> b < first + n
    decreases n
  {
    if n == 0 {
      assert Burst(slot, first, n) + after == after;
      assert s.used[slot := s.used[slot] + 0] == s.used;
      t := s;
    } else {
      var e := LogWrite(slot, first, ZeroBlock());
      var rest := Burst(slot, first + 1, n - 1) + after;
      assert Burst(slot, first, n) + after == [e] + rest;
      var u := Step(g, s, e).s;
      OneStep(g, s, e, rest, budget);
      hide Legal, Run, Step, Burst;
      t := BurstRuns(g, u, slot, first + 1, n - 1, budget, after);
    }
  }

  lemma OneStep(g: Geometry, s: Sys, e: Event, after: seq<Event>, budget: nat)
    requires Allowed(g, s, e, budget) && Step(g, s, e).Ran?
    ensures Run(g, s, [e] + after) == Run(g, Step(g, s, e).s, after)
    ensures Legal(g, Step(g, s, e).s, after, budget) ==> Legal(g, s, [e] + after, budget)
  {
    assert ([e] + after)[1..] == after;
  }

  /** With MAXOPBLOCKS blocks per operation the "too big a transaction" panic is reachable. */
  lemma FullBudgetPanics(g: Geometry, d: Disk, first: nat, budget: nat) returns (es: seq<Event>)
    requires MAXOPBLOCKS <= budget && g.size == LOGSIZE
    requires g.start + g.size <= first && first + LOGSIZE <= |d|
    ensures Legal(g, Init(d), es, budget) && Run(g, Init(d), es) == Panic
  {
    hide Legal, Run;
    var last := [LogWrite(1, first + 29, ZeroBlock())];
    var e4 := Burst(1, first + 20, 9) + last;
    var e3 := Burst(0, first + 10, 10) + e4;
    var e2 := [BeginOp(2)] + e3;
    var e1 := [BeginOp(1)] + ([EndOp(0)] + e2);
    var e0 := Burst(0, first, 10) + e1;
    es := [BeginOp(0)] + e0;

    var s0 := Init(d);
    OneStep(g, s0, BeginOp(0), e0, budget);
    var s1 := BurstRuns(g, Step(g, s0, BeginOp(0)).s, 0, first, 10, budget, e1);
    assert s1.used == [10];
    OneStep(g, s1, BeginOp(1), [EndOp(0)] + e2, budget);
    var s2 := Step(g, s1, BeginOp(1)).s;
    OneStep(g, s2, EndOp(0), e2, budget);
    var s3 := Step(g, s2, EndOp(0)).s;
    assert s3.used == [0];
    OneStep(g, s3, BeginOp(2), e3, budget);
    var s4 := BurstRuns(g, Step(g, s3, BeginOp(2)).s, 0, first + 10, 10, budget, e4);
    var s5 := BurstRuns(g, s4, 1, first + 20, 9, budget, last);
    LastPanics(g, s5, last, budget);
  }

  lemma LastPanics(g: Geometry, s: Sys, es: seq<Event>, budget: nat)
    requires |es| == 1 && Allowed(g, s, es[0], budget) && Step(g, s, es[0]) == Panic
    ensures Legal(g, s, es, budget) && Run(g, s, es) == Panic
  {
  }

  /** The reservation of begin_op is sufficient exactly for operations that add fewer than
      MAXOPBLOCKS blocks, on a log of LOGSIZE blocks of which one is the header. */
  lemma AdmissionExact(g: Geometry, d: Disk, budget: nat)
    requires Quiet(g, d) && g.size == LOGSIZE && g.start + g.size + LOGSIZE <= |d|
    ensures budget < MAXOPBLOCKS <==>
      (forall es :: Legal(g, Init(d), es, budget) ==> Run(g, Init(d), es) != Panic)
  {
    if budget < MAXOPBLOCKS {
      Restart(g, d, d, budget);
      forall es | Legal(g, Init(d), es, budget) ensures Run(g, Init(d), es) != Panic {
        RunRefines(g, Init(d), Ideal(d, d), es, budget);
      }
    } else {
      var es := FullBudgetPanics(g, d, g.start + g.size, budget);
    }
  }
}
