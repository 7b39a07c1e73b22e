/** When begin_op turns an operation away (log.c:129-143): exactly while a commit runs, or when with it
    the operations in flight could fill the log beyond LOGSIZE blocks. */
module LogAdmission {
  import opened Blocks
  import opened Log
  import opened LogRun

  /** The log after the writes of es, with no limit to it. */
  function Held(lh: seq<nat>, es: seq<Event>): seq<nat>
    decreases es
  {
    if es == [] then lh
    else Held(if es[0].LogWrite? then Absorb(lh, es[0].no) else lh, es[1..])
  }

  /** es is a list of log_writes on home blocks; the i-th operation, which added used[i] blocks, adds no
      more than MAXOPBLOCKS altogether. */
  predicate WithinShares(g: Geometry, limit: nat, lh: seq<nat>, used: seq<nat>, es: seq<Event>)
    decreases es
  {
    es == [] ||
    (es[0].LogWrite? && es[0].slot < |used| && es[0].no < limit && !InLog(g, es[0].no) &&
     (es[0].no in lh || used[es[0].slot] < MAXOPBLOCKS) &&
     WithinShares(g, limit, Absorb(lh, es[0].no),
                  used[es[0].slot := used[es[0].slot] + if es[0].no in lh then 0 else 1], es[1..]))
  }

  /** n operations, each with all of its share ahead, could overfill a log that holds lh. */
  ghost predicate CouldOverfill(g: Geometry, limit: nat, lh: seq<nat>, n: nat) {
    exists es :: WithinShares(g, limit, lh, NoneUsed(n), es) && |Held(lh, es)| > LOGSIZE
  }

  function NoneUsed(n: nat): (used: seq<nat>)
    ensures |used| == n && forall i :: 0 <= i < n ==> used[i] == 0
  {
    if n == 0 then [] else NoneUsed(n - 1) + [0]
  }

  lemma {:induction false} NoneSpare(n: nat)
    ensures Spare(NoneUsed(n), MAXOPBLOCKS) == n * MAXOPBLOCKS
  {
    if n > 0 {
      NoneSpare(n - 1);
      assert NoneUsed(n)[..n - 1] == NoneUsed(n - 1);
    }
  }

  // Whatever they write, the operations add no more than their shares.
  lemma {:induction false} HeldBound(g: Geometry, limit: nat, lh: seq<nat>, used: seq<nat>, es: seq<Event>)
    requires WithinShares(g, limit, lh, used, es) && forall i :: 0 <= i < |used| ==> used[i] <= MAXOPBLOCKS
    ensures |Held(lh, es)| <= |lh| + Spare(used, MAXOPBLOCKS)
    decreases es
  {
    if es == [] {
      SpareBounds(used, MAXOPBLOCKS);
    } else {
      var e := es[0];
      var v: nat := used[e.slot] + if e.no in lh then 0 else 1;
      SpareUpdate(used, MAXOPBLOCKS, e.slot, v);
      HeldBound(g, limit, Absorb(lh, e.no), used[e.slot := v], es[1..]);
    }
  }

  lemma {:induction false} SomeSpare(used: seq<nat>) returns (i: nat)
    requires Spare(used, MAXOPBLOCKS) > 0
    ensures i < |used| && used[i] < MAXOPBLOCKS
  {
    i := |used| - 1;
    if used[i] >= MAXOPBLOCKS {
      i := SomeSpare(used[..|used| - 1]);
    }
  }

  // Operations that may add more than fits write fresh blocks until it does not.
  lemma {:induction false} Overfill(g: Geometry, limit: nat, lh: seq<nat>, used: seq<nat>, first: nat) returns (es: seq<Event>)
    requires |lh| <= LOGSIZE && |lh| + Spare(used, MAXOPBLOCKS) > LOGSIZE
    requires g.start + g.size <= first && first + (LOGSIZE - |lh|) < limit && forall b :: b in lh ==> b < first
    ensures WithinShares(g, limit, lh, used, es) && |Held(lh, es)| > LOGSIZE
    decreases LOGSIZE - |lh|
  {
    var i := SomeSpare(used);
    var e := LogWrite(i, first, ZeroBlock());
    SpareUpdate(used, MAXOPBLOCKS, i, used[i] + 1);
    var rest := [];
    if |lh| < LOGSIZE {
      rest := Overfill(g, limit, Absorb(lh, first), used[i := used[i] + 1], first + 1);
    }
    es := [e] + rest;
    assert es[0] == e && es[1..] == rest;
  }

  /** begin_op admits an operation, or puts it to sleep; the latter exactly while a commit runs or when
      the operations in flight and the new one could overfill the log. */
  lemma RefusedExactly(g: Geometry, s: Sys, op: nat, first: nat)
    requires |s.lh| <= LOGSIZE && g.start + g.size <= first && first + LOGSIZE < |s.disk| && forall b :: b in s.lh ==> b < first
    ensures Step(g, s, BeginOp(op)).Ran?
    ensures var t := Step(g, s, BeginOp(op)).s;
      if s.committing || CouldOverfill(g, |s.disk|, s.lh, |s.used| + 1)
      then t == s.(asleep := s.asleep + {op})
      else t == s.(used := s.used + [0], asleep := s.asleep - {op})
  {
    var n := |s.used| + 1;
    NoneSpare(n);
    if |s.lh| + n * MAXOPBLOCKS > LOGSIZE {
      var es := Overfill(g, |s.disk|, s.lh, NoneUsed(n), first);
    } else {
      forall es | WithinShares(g, |s.disk|, s.lh, NoneUsed(n), es) ensures |Held(s.lh, es)| <= LOGSIZE {
        HeldBound(g, |s.disk|, s.lh, NoneUsed(n), es);
      }
    }
  }
}
