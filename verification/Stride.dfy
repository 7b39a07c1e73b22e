/** The arithmetic of the stride scheduler (p4/solution/proc.c): strides, the order of the scan, and
    what a turn, sleeping and waking do to an entry. */
module Stride {

  const STRIDE1: int := 1024
  const MAX_TICKETS: int := 32
  const DEFAULT_TICKETS: int := 8

  datatype State = UNUSED | EMBRYO | SLEEPING | RUNNABLE | RUNNING | ZOMBIE

  /** The scheduling fields of a struct proc; `runs` counts its quanta. */
  datatype Entry = Entry(state: State, pid: int, tickets: int, stride: int, pass: int, remain: int, rtime: int, runs: int)

  /** Tickets as settickets leaves them, with the stride they give. */
  predicate EntryOk(e: Entry) {
    1 <= e.tickets <= MAX_TICKETS && e.stride == STRIDE1 / e.tickets
  }

  /** A stride times its tickets falls short of STRIDE1 by less than the tickets. */
  lemma StrideTimesTickets(e: Entry)
    requires EntryOk(e)
    ensures 993 <= e.stride * e.tickets <= STRIDE1 && 32 <= e.stride <= STRIDE1
  {
    var t := e.tickets;
    assert STRIDE1 == t * (STRIDE1 / t) + STRIDE1 % t;
    assert e.stride * t == STRIDE1 - STRIDE1 % t;
    if e.stride < 32 {
      Product(e.stride, t, 31, 32);
    }
    if e.stride > STRIDE1 {
      Product(1, STRIDE1 + 1, t, e.stride);
    }
  }

  lemma Product(a: int, b: int, c: int, d: int)
    requires 0 <= a <= c && 0 <= b <= d
    ensures a * b <= c * d
  {
    assert a * b <= c * b <= c * d;
  }

  // ---------------------------------------------------------------- the scan

  /** a goes before b: by pass, then time run, then pid. */
  predicate Before(a: Entry, b: Entry) {
    a.pass < b.pass || (a.pass == b.pass && (a.rtime < b.rtime || (a.rtime == b.rtime && a.pid < b.pid)))
  }

  /** m is the first of the best runnable entries among the first k, or -1 if there is none. */
  predicate Chosen(t: seq<Entry>, k: int, m: int) {
    && -1 <= m < k <= |t| + 1 && m < |t|
    && (m == -1 ==> forall j :: 0 <= j < k && j < |t| ==> t[j].state != RUNNABLE)
    && (m >= 0 ==> t[m].state == RUNNABLE)
    && (m >= 0 ==> forall j :: 0 <= j < k && j < |t| && t[j].state == RUNNABLE ==>
          !Before(t[j], t[m]) && (j < m ==> Before(t[m], t[j])))
  }

  /** There is exactly one choice. */
  lemma ChosenOnce(t: seq<Entry>, m: int, n: int)
    requires Chosen(t, |t|, m) && Chosen(t, |t|, n)
    ensures m == n
  {
  }

  /** There is a choice as soon as something is runnable. */
  lemma {:induction false} ChoiceExists(t: seq<Entry>, k: nat) returns (m: int)
    requires k <= |t|
    ensures Chosen(t, k, m)
    ensures (exists i :: 0 <= i < k && t[i].state == RUNNABLE) ==> m >= 0
  {
    if k == 0 {
      m := -1;
    } else {
      m := ChoiceExists(t, k - 1);
      if t[k - 1].state == RUNNABLE && (m == -1 || Before(t[k - 1], t[m])) {
        m := k - 1;
      }
    }
  }

  // ---------------------------------------------------------------- entries

  /** The scheduler's charge for a turn of dt ticks. */
  function Charged(e: Entry, dt: nat): Entry {
    e.(pass := e.pass + e.stride, rtime := e.rtime + dt, runs := e.runs + 1)
  }

  /** An entry put to sleep in its quantum, and then charged for it by the scheduler. */
  function PutToSleep(e: Entry, globalPass: int): Entry {
    e.(remain := e.pass - globalPass, state := SLEEPING)
  }

  function WokenUp(e: Entry, globalPass: int): Entry {
    e.(pass := globalPass + e.remain, state := RUNNABLE)
  }

  /** The global stride that goes with a number of tickets. */
  function StrideFor(tickets: int): (r: int)
    ensures r >= 0
  {
    if tickets > 0 then STRIDE1 / tickets else 0
  }

  /** What settickets makes of its argument. */
  function Clamped(n: int): int {
    if n < 1 then DEFAULT_TICKETS else if n > MAX_TICKETS then MAX_TICKETS else n
  }

  // ---------------------------------------------------------------- products and quotients

  lemma ShareArithmetic(ni: int, nj: int, si: int, sj: int, ti: int, tj: int)
    requires 0 <= ni && 0 <= nj && 1 <= ti && 1 <= tj && 0 <= si && 0 <= sj
    requires 993 <= si * ti <= STRIDE1 && sj * tj <= STRIDE1 && ni * si <= nj * sj + si
    ensures 993 * ni * tj <= STRIDE1 * (nj * ti + tj)
  {
    Product(993, ni * tj, si * ti, ni * tj);
    assert 993 * (ni * tj) <= (si * ti) * (ni * tj);
    assert (si * ti) * (ni * tj) == (ti * tj) * (ni * si);
    Product(0, 0, ti, tj);
    Scale(ti * tj, ni * si, nj * sj + si);
    assert (ti * tj) * (nj * sj + si) == (nj * ti) * (sj * tj) + tj * (si * ti);
    Product(0, 0, nj, ti);
    Scale(nj * ti, sj * tj, STRIDE1);
    Scale(tj, si * ti, STRIDE1);
    assert 993 * ni * tj == 993 * (ni * tj);
  }

  lemma Scale(k: int, a: int, b: int)
    requires 0 <= k && a <= b
    ensures k * a <= k * b
  {
  }

  lemma Quotient(n: int, s: int, x: int)
    requires 1 <= s && 0 <= x && (n > 0 ==> n * s <= x)
    ensures n <= x / s
  {
    var q := x / s;
    assert x == s * q + x % s;
    if n > q {
      assert s * (q + 1) == s * q + s;
      Scale(s, q + 1, n);
    }
  }
}
