/** The code of the stride scheduler (p4/solution/proc.c, sysproc.c): the scan, and what yield, sleep,
    exit, wakeup1, kill, fork and settickets do to the table and the global pass, stride and tickets. */
module StrideCode {
  import opened Stride
  import opened StrideRun

  class Scheduler {
    const procs: array<Entry>
    var globalPass: int
    var globalStride: int
    var globalTickets: int
    var nextpid: int
    ghost var forks: nat

    /** The state that the steps of StrideRun are about. */
    ghost function State(): Sys
      reads this, procs
    {
      Sys(procs[..], globalPass, globalStride, globalTickets, nextpid, forks)
    }

    /** allocproc and userinit on an empty table. */
    constructor (n: nat)
      requires n > 0
      ensures State() == Init(n) && fresh(procs)
    {
      procs := new Entry[n](i => if i == INIT then New(RUNNABLE, 1, 0) else Unused());
      globalPass, globalStride, globalTickets, nextpid, forks := 0, STRIDE1 / DEFAULT_TICKETS, DEFAULT_TICKETS, 2, 0;
      new;
      assert procs[..] == Init(n).t;
    }

    /** scheduler's loop over the table. */
    method Pick() returns (m: int)
      ensures Chosen(procs[..], procs.Length, m)
      ensures m == -1 <==> forall j :: 0 <= j < procs.Length ==> procs[j].state != RUNNABLE
      ensures m != -1 ==> 0 <= m < procs.Length && procs[m].state == RUNNABLE
      ensures m != -1 ==> forall j :: 0 <= j < procs.Length && procs[j].state == RUNNABLE ==>
        || procs[m].pass < procs[j].pass
        || (procs[m].pass == procs[j].pass && procs[m].rtime < procs[j].rtime)
        || (procs[m].pass == procs[j].pass && procs[m].rtime == procs[j].rtime && procs[m].pid < procs[j].pid)
        || (procs[m].pass == procs[j].pass && procs[m].rtime == procs[j].rtime && procs[m].pid == procs[j].pid && m <= j)
    {
      m := -1;
      var p := 0;
      while p < procs.Length
        invariant 0 <= p <= procs.Length && Chosen(procs[..], p, m)
      {
        if procs[p].state == RUNNABLE {
          if m == -1 {
            m := p;
          } else if procs[p].pass < procs[m].pass {
            m := p;
          } else if procs[p].pass == procs[m].pass {
            if procs[p].rtime < procs[m].rtime {
              m := p;
            } else if procs[p].rtime == procs[m].rtime {
              if procs[p].pid < procs[m].pid {
                m := p;
              }
            }
          }
        }
        p := p + 1;
      }
      forall j | 0 <= j < procs.Length && procs[j].state == RUNNABLE ensures m != -1 {
      }
    }

    /** scheduler up to swtch. */
    method Dispatch() returns (m: int)
      requires Idle(procs[..])
      modifies procs
      ensures m == -1 ==> State() == old(State()) && forall i :: 0 <= i < procs.Length ==> procs[i].state != RUNNABLE
      ensures m != -1 ==> Legal(old(State()), StrideRun.Dispatch(m)) && State() == Step(old(State()), StrideRun.Dispatch(m))
    {
      m := Pick();
      if m != -1 {
        procs[m] := procs[m].(state := RUNNING);
      }
    }

    /** scheduler behind swtch, for a turn of dt timer ticks. */
    method TurnOver(m: int, dt: nat)
      requires 0 <= m < procs.Length
      modifies procs, this`globalPass
      ensures State() == StrideRun.TurnOver(old(State()), m, dt)
      ensures procs[m] == old(procs[m]).(pass := old(procs[m]).pass + old(procs[m]).stride,
                                         rtime := old(procs[m]).rtime + dt, runs := old(procs[m]).runs + 1)
      ensures globalPass == old(globalPass) + globalStride
    {
      procs[m] := procs[m].(rtime := procs[m].rtime + dt, runs := procs[m].runs + 1);
      procs[m] := procs[m].(pass := procs[m].pass + procs[m].stride);
      globalPass := globalPass + globalStride;
    }

    method Yield(m: int, dt: nat)
      requires Legal(State(), StrideRun.Yield(m, dt))
      modifies procs, this`globalPass
      ensures State() == Step(old(State()), StrideRun.Yield(m, dt))
    {
      procs[m] := procs[m].(state := RUNNABLE);
      TurnOver(m, dt);
    }

    /** The tickets of a process that sleeps or exits leave the global ones. */
    method Leave(m: int)
      requires 0 <= m < procs.Length
      modifies this`globalTickets, this`globalStride
      ensures State() == Retally(old(State()), old(globalTickets) - procs[m].tickets)
      ensures globalTickets == old(globalTickets) - procs[m].tickets
      ensures globalStride == if globalTickets > 0 then 1024 / globalTickets else 0
    {
      globalTickets := globalTickets - procs[m].tickets;
      if globalTickets > 0 {
        globalStride := STRIDE1 / globalTickets;
      } else {
        globalStride := 0;
      }
    }

    /** sleep up to sched, and the scheduler behind it. */
    method Sleep(m: int, dt: nat)
      requires Legal(State(), Nap(m, dt))
      modifies procs, this`globalPass, this`globalTickets, this`globalStride
      ensures State() == Step(old(State()), Nap(m, dt))
      ensures procs[m].state == SLEEPING && procs[m].remain == old(procs[m]).pass - old(globalPass)
    {
      procs[m] := procs[m].(remain := procs[m].pass - globalPass);
      Leave(m);
      procs[m] := procs[m].(state := SLEEPING);
      TurnOver(m, dt);
    }

    /** exit's part, and the scheduler behind it. */
    method Exit(m: int, dt: nat)
      requires Legal(State(), StrideRun.Exit(m, dt))
      modifies procs, this`globalPass, this`globalTickets, this`globalStride
      ensures State() == Step(old(State()), StrideRun.Exit(m, dt))
      ensures procs[m].state == ZOMBIE
    {
      Leave(m);
      procs[m] := procs[m].(state := ZOMBIE);
      TurnOver(m, dt);
    }

    /** The body of wakeup1's loop for a sleeper, and of kill's. */
    method WakeOne(i: int)
      requires Legal(State(), Wake(i)) && globalTickets + procs[i].tickets > 0
      modifies procs, this`globalTickets, this`globalStride
      ensures State() == Step(old(State()), Wake(i))
      ensures procs[i].state == RUNNABLE && procs[i].pass == globalPass + old(procs[i]).remain
      ensures globalTickets == old(globalTickets) + procs[i].tickets
      ensures forall k :: 0 <= k < procs.Length && k != i ==> procs[k] == old(procs[k])
    {
      procs[i] := procs[i].(state := RUNNABLE);
      globalTickets := globalTickets + procs[i].tickets;
      globalStride := STRIDE1 / globalTickets;
      procs[i] := procs[i].(pass := globalPass + procs[i].remain);
    }

    /** wakeup1 over the entries that sleep on the channel: one wakeup after the other. */
    method Wakeup1(on: set<int>)
      requires Sane(State())
      modifies procs, this`globalTickets, this`globalStride
      ensures LegalRun(old(State()), Wakes(old(procs[..]), on, procs.Length))
      ensures State() == Run(old(State()), Wakes(old(procs[..]), on, procs.Length)) && Sane(State())
    {
      hide Sane, Legal, Step, Run, LegalRun;
      ghost var s0 := State();
      NoWakes(s0);
      for i := 0 to procs.Length
        invariant |s0.t| == procs.Length && LegalRun(s0, Wakes(s0.t, on, i)) && State() == Run(s0, Wakes(s0.t, on, i))
        invariant Sane(State()) && forall k :: i <= k < procs.Length ==> procs[k] == s0.t[k]
      {
        if procs[i].state == SLEEPING && i in on {
          MoreWakes(s0, on, i, State());
          WakeOne(i);
        }
      }
    }

    /** kill: -1 exactly if no process has the pid; else the first that has is woken if it sleeps. */
    method Kill(pid: int) returns (r: int)
      requires Sane(State())
      modifies procs, this`globalTickets, this`globalStride
      ensures r == -1 <==> forall i :: 0 <= i < procs.Length ==> old(procs[i]).pid != pid
      ensures r == -1 ==> State() == old(State())
      ensures r != -1 ==> r == 0 && exists i :: FirstOf(old(procs[..]), pid, i) && State() == Killed(old(State()), i)
    {
      for i := 0 to procs.Length
        invariant State() == old(State()) && forall k :: 0 <= k < i ==> procs[k].pid != pid
      {
        if procs[i].pid == pid {
          assert FirstOf(old(procs[..]), pid, i);
          if procs[i].state == SLEEPING {
            StepSane(State(), Wake(i));
            WakeOne(i);
          }
          return 0;
        }
      }
      r := -1;
    }

    /** allocproc: the first unused entry, or -1. */
    method Allocproc(m: int) returns (i: int)
      requires Sane(State()) && 0 <= m < procs.Length && procs[m].state == RUNNING
      modifies procs, this`globalTickets, this`globalStride, this`nextpid
      ensures i == -1 ==> State() == old(State()) && forall k :: 0 <= k < procs.Length ==> procs[k].state != UNUSED
      ensures i != -1 ==>
        && Legal(old(State()), Alloc(m, i)) && (forall k :: 0 <= k < i ==> old(procs[k]).state != UNUSED)
        && State() == Step(old(State()), Alloc(m, i))
        && procs[i] == Entry(EMBRYO, old(nextpid), 8, 128, globalPass, 0, 0, 0) && globalTickets == old(globalTickets) + 8
    {
      i := 0;
      while i < procs.Length && procs[i].state != UNUSED
        invariant 0 <= i <= procs.Length && State() == old(State()) && forall k :: 0 <= k < i ==> procs[k].state != UNUSED
      {
        i := i + 1;
      }
      if i == procs.Length {
        return -1;
      }
      StepSane(State(), Alloc(m, i));
      procs[i] := Entry(procs[i].state, procs[i].pid, DEFAULT_TICKETS, STRIDE1 / DEFAULT_TICKETS, globalPass, 0, 0, 0);
      globalTickets := globalTickets + procs[i].tickets;
      globalStride := STRIDE1 / globalTickets;
      procs[i] := procs[i].(state := EMBRYO, pid := nextpid);
      nextpid := nextpid + 1;
    }

    /** The end of fork. */
    method Start(m: int, i: int)
      requires Sane(State()) && Legal(State(), StrideRun.Start(m, i))
      modifies procs, this`globalTickets, this`globalStride, this`forks
      ensures State() == Step(old(State()), StrideRun.Start(m, i))
      ensures procs[i] == Entry(RUNNABLE, old(procs[i]).pid, 8, 128, globalPass, 0, 0, 0) && globalTickets == old(globalTickets) + 8
    {
      StepSane(State(), StrideRun.Start(m, i));
      procs[i] := procs[i].(tickets := DEFAULT_TICKETS, stride := STRIDE1 / DEFAULT_TICKETS, pass := globalPass, remain := 0, rtime := 0, runs := 0);
      globalTickets := globalTickets + procs[i].tickets;
      globalStride := STRIDE1 / globalTickets;
      procs[i] := procs[i].(state := RUNNABLE);
      forks := forks + 1;
    }

    /** sys_settickets. */
    method SetTickets(m: int, n0: int)
      requires Sane(State()) && Legal(State(), StrideRun.SetTickets(m, n0))
      modifies procs, this`globalTickets, this`globalStride
      ensures State() == Step(old(State()), StrideRun.SetTickets(m, n0))
      ensures procs[m].tickets == (if n0 < 1 then 8 else if n0 > 32 then 32 else n0) && procs[m].stride == 1024 / procs[m].tickets
    {
      StepSane(State(), StrideRun.SetTickets(m, n0));
      var n := n0;
      if n < 1 {
        n := DEFAULT_TICKETS;
      } else if n > MAX_TICKETS {
        n := MAX_TICKETS;
      }
      globalTickets := globalTickets - procs[m].tickets;
      procs[m] := procs[m].(tickets := n);
      globalTickets := globalTickets + procs[m].tickets;
      globalStride := STRIDE1 / globalTickets;
      procs[m] := procs[m].(stride := STRIDE1 / procs[m].tickets);
    }
  }

  /** The wakeups of the first k entries that sleep on the channel. */
  function Wakes(t: seq<Entry>, on: set<int>, k: nat): seq<Event> {
    if k == 0 || k > |t| then []
    else if k - 1 in on && t[k - 1].state == SLEEPING then Wakes(t, on, k - 1) + [Wake(k - 1)]
    else Wakes(t, on, k - 1)
  }

  function Killed(s: Sys, i: int): Sys {
    if At(s.t, i).state == SLEEPING then Step(s, Wake(i)) else s
  }

  lemma NoWakes(s: Sys)
    ensures LegalRun(s, []) && Run(s, []) == s
  {
  }

  lemma MoreWakes(s0: Sys, on: set<int>, i: int, s: Sys)
    requires 0 <= i < |s0.t| == |s.t| && LegalRun(s0, Wakes(s0.t, on, i)) && s == Run(s0, Wakes(s0.t, on, i)) && Sane(s)
    requires s.t[i] == s0.t[i] && s0.t[i].state == SLEEPING && i in on
    ensures Legal(s, Wake(i)) && s.tickets + s.t[i].tickets > 0 && Sane(Step(s, Wake(i)))
    ensures LegalRun(s0, Wakes(s0.t, on, i + 1)) && Run(s0, Wakes(s0.t, on, i + 1)) == Step(s, Wake(i))
  {
    StepSane(s, Wake(i));
    RunOne(s, Wake(i));
    hide LegalRun, Run, Sane;
    RunConcat(s0, Wakes(s0.t, on, i), [Wake(i)]);
  }

  predicate FirstOf(t: seq<Entry>, pid: int, i: int) {
    0 <= i < |t| && t[i].pid == pid && forall k :: 0 <= k < i ==> t[k].pid != pid
  }
}
