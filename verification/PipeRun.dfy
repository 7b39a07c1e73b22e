/** Any number of threads reading and writing one pipe (pipe.c): every interleaving of their stays
    under the lock, with sleeping, waking, closing and kill. */
module PipeRun {
  import opened PipeRing

  /** A call that has not returned: it runs again from here when its thread gets the lock. */
  datatype Call = Reading(n: nat) | Writing(addr: seq<int>, i: nat)

  /** A call that has returned `value`: a write that stored the first `stored` bytes, a read that got `bytes`. */
  datatype Done = Wrote(t: int, addr: seq<int>, stored: nat, value: int) | Got(t: int, n: nat, bytes: seq<int>, value: int)

  /** `wrote` and `got` are the bytes ever stored and ever handed out, in order; `done` are the calls over. */
  datatype Sys = Sys(q: seq<int>, readopen: bool, writeopen: bool, calls: map<int, Call>,
                     readers: set<int>, writers: set<int>, killed: set<int>, wrote: seq<int>, got: seq<int>,
                     done: seq<Done>)

  datatype Event =
    | Write(t: int, addr: seq<int>) | Read(t: int, n: nat)   // a call begins
    | Resume(t: int)                                         // a woken thread has the lock again
    | Kill(t: int)
    | Close(writable: bool)                                  // the last reference to one end goes

  predicate Legal(s: Sys, e: Event) {
    match e
    case Write(t, _) => t !in s.calls && s.writeopen
    case Read(t, _) => t !in s.calls && s.readopen
    case Resume(t) => t in s.calls && t !in s.readers && t !in s.writers
    case Kill(_) => true
    case Close(w) =>
      if w then s.writeopen && forall t :: t in s.calls ==> s.calls[t].Reading?
      else s.readopen && forall t :: t in s.calls ==> s.calls[t].Writing?
  }

  function DoWrite(s: Sys, t: int, addr: seq<int>, i: nat): Sys {
    var k := Room(s.q, |addr| - i);
    if !(i <= i + k <= |addr|) then s
    else
      var o := WriteOutcome(s.q, |addr|, i, s.readopen, t in s.killed);
      s.(q := s.q + addr[i..i + k], wrote := s.wrote + addr[i..i + k],
         readers := if WriteWakes(s.q, |addr|, i, s.readopen, t in s.killed) then {} else s.readers,
         writers := if o.Slept? then s.writers + {t} else s.writers,
         calls := if o.Slept? then s.calls[t := Writing(addr, i + k)] else s.calls - {t},
         done := if o.Slept? then s.done else s.done + [Wrote(t, addr, i + k, o.value)])
  }

  function DoRead(s: Sys, t: int, n: nat): Sys {
    if ReadWaits(s.q, s.writeopen) then
      if t in s.killed then s.(calls := s.calls - {t}, done := s.done + [Got(t, n, [], -1)])
      else s.(calls := s.calls[t := Reading(n)], readers := s.readers + {t})
    else
      var k := Least(n, |s.q|);
      s.(got := s.got + s.q[..k], q := s.q[k..], writers := {}, calls := s.calls - {t},
         done := s.done + [Got(t, n, s.q[..k], k)])
  }

  function Step(s: Sys, e: Event): Sys {
    match e
    case Write(t, addr) => DoWrite(s, t, addr, 0)
    case Read(t, n) => DoRead(s, t, n)
    case Resume(t) =>
      if t !in s.calls then s
      else (match s.calls[t] case Reading(n) => DoRead(s, t, n) case Writing(addr, i) => DoWrite(s, t, addr, i))
    case Kill(t) => s.(killed := s.killed + {t}, readers := s.readers - {t}, writers := s.writers - {t})
    case Close(w) => if w then s.(writeopen := false, readers := {}) else s.(readopen := false, writers := {})
  }

  predicate LegalRun(s: Sys, es: seq<Event>)
    decreases |es|
  {
    es == [] || (Legal(s, es[0]) && LegalRun(Step(s, es[0]), es[1..]))
  }

  function Run(s: Sys, es: seq<Event>): Sys
    decreases |es|
  {
    if es == [] then s else Run(Step(s, es[0]), es[1..])
  }

  /** pipealloc. */
  function Fresh(): Sys {
    Sys([], true, true, map[], {}, {}, {}, [], [], [])
  }

  // ---------------------------------------------------------------- first in, first out

  predicate Fifo(s: Sys) {
    && s.wrote == s.got + s.q && |s.q| <= PIPESIZE
    && forall t :: t in s.calls && s.calls[t].Writing? ==> s.calls[t].i <= |s.calls[t].addr|
  }

  lemma Cat(a: seq<int>, b: seq<int>, c: seq<int>)
    ensures a + b + c == a + (b + c)
  {
  }

  lemma CutAt(q: seq<int>, k: nat)
    requires k <= |q|
    ensures q == q[..k] + q[k..]
  {
  }

  lemma FifoWrite(s: Sys, t: int, addr: seq<int>, i: nat)
    requires Fifo(s) && i <= |addr|
    ensures Fifo(DoWrite(s, t, addr, i))
  {
    var k := Room(s.q, |addr| - i);
    Cat(s.got, s.q, addr[i..i + k]);
  }

  lemma FifoRead(s: Sys, t: int, n: nat)
    requires Fifo(s)
    ensures Fifo(DoRead(s, t, n))
  {
    var k := Least(n, |s.q|);
    CutAt(s.q, k);
    Cat(s.got, s.q[..k], s.q[k..]);
  }

  lemma FifoStep(s: Sys, e: Event)
    requires Fifo(s) && Legal(s, e)
    ensures Fifo(Step(s, e))
  {
    hide DoWrite, DoRead;
    match e
    case Write(t, addr) => FifoWrite(s, t, addr, 0);
    case Read(t, n) => FifoRead(s, t, n);
    case Resume(t) =>
      match s.calls[t] {
        case Reading(n) => FifoRead(s, t, n);
        case Writing(addr, i) => FifoWrite(s, t, addr, i);
      }
    case Kill(_) =>
    case Close(_) =>
  }

  /** In every run, with kills and closes anywhere, the bytes read are a prefix of the bytes
      written and the rest is in the pipe, which never holds more than its 512 bytes. */
  lemma {:induction false} FifoAlways(s: Sys, es: seq<Event>)
    requires Fifo(s) && LegalRun(s, es)
    ensures Fifo(Run(s, es)) && Run(s, es).got <= Run(s, es).wrote
    decreases |es|
  {
    if es != [] {
      FifoStep(s, es[0]);
      FifoAlways(Step(s, es[0]), es[1..]);
    }
  }

  // ---------------------------------------------------------------- what calls return

  /** A read takes what there is, up to n bytes; on an empty pipe it reports the end if no writer is left,
      gives up if its thread is killed, and sleeps otherwise. */
  lemma ReadReturns(s: Sys, e: Event, t: int, n: nat)
    requires Legal(s, e) && (e == Read(t, n) || (e == Resume(t) && s.calls[t] == Reading(n)))
    ensures var s' := Step(s, e);
      if s.q == [] && s.writeopen && t !in s.killed
      then s'.done == s.done && t in s'.readers && s'.calls == s.calls[t := Reading(n)] && s'.q == s.q
      else if s.q == [] && s.writeopen then s'.done == s.done + [Got(t, n, [], -1)] && t !in s'.calls && s'.q == s.q
      else
        var k := if n <= |s.q| then n else |s.q|;
        s'.done == s.done + [Got(t, n, s.q[..k], k)] && t !in s'.calls && s'.q == s.q[k..]
  {
  }

  /** A write returns the length of its buffer once all bytes are in the pipe; else it fills the pipe, and
      sleeps if its thread is not killed and a reader is left. */
  lemma WriteReturns(s: Sys, e: Event, t: int, addr: seq<int>, i: nat)
    requires Fifo(s) && Legal(s, e)
    requires (e == Write(t, addr) && i == 0) || (e == Resume(t) && s.calls[t] == Writing(addr, i))
    ensures i <= |addr|
    ensures var s' := Step(s, e);
      if |s.q| + (|addr| - i) <= PIPESIZE
      then s'.q == s.q + addr[i..] && s'.done == s.done + [Wrote(t, addr, |addr|, |addr|)] && t !in s'.calls
      else
        var j := i + (PIPESIZE - |s.q|);
        && s'.q == s.q + addr[i..j]
        && (if s.readopen && t !in s.killed
            then s'.done == s.done && t in s'.writers && s'.calls == s.calls[t := Writing(addr, j)]
            else s'.done == s.done + [Wrote(t, addr, j, -1)] && t !in s'.calls)
  {
    assert addr[i..|addr|] == addr[i..];
  }

  /** The bytes of the reads that are over, in order. */
  function Delivered(done: seq<Done>): seq<int> {
    if done == [] then []
    else Delivered(done[..|done| - 1]) + (if done[|done| - 1].Got? then done[|done| - 1].bytes else [])
  }

  /** A write returned the length of its buffer, having stored all of it, or -1, having stored less; a
      read returned the number of its bytes, at most those asked for, or -1 and no byte. */
  predicate ReturnOk(d: Done) {
    match d
    case Wrote(_, addr, stored, value) => if value == -1 then stored < |addr| else value == stored == |addr|
    case Got(_, n, bytes, value) => if value == -1 then bytes == [] else value == |bytes| <= n
  }

  predicate ReturnsOk(s: Sys) {
    s.got == Delivered(s.done) && forall d :: d in s.done ==> ReturnOk(d)
  }

  lemma DeliveredOne(done: seq<Done>, d: Done)
    ensures Delivered(done + [d]) == Delivered(done) + if d.Got? then d.bytes else []
  {
    assert (done + [d])[..|done|] == done;
  }

  /** No call or one more is over, as it should be. */
  predicate OneMore(s: Sys, s': Sys) {
    (s'.done == s.done && s'.got == s.got) ||
    (s'.done != [] && s'.done == s.done + [s'.done[|s'.done| - 1]] && ReturnOk(s'.done[|s'.done| - 1]) &&
     s'.got == s.got + if s'.done[|s'.done| - 1].Got? then s'.done[|s'.done| - 1].bytes else [])
  }

  lemma WriteOver(s: Sys, t: int, addr: seq<int>, i: nat)
    requires Fifo(s) && i <= |addr|
    ensures OneMore(s, DoWrite(s, t, addr, i))
  {
  }

  lemma ReadOver(s: Sys, t: int, n: nat)
    ensures OneMore(s, DoRead(s, t, n))
  {
  }

  lemma ReturnsStep(s: Sys, e: Event)
    requires Fifo(s) && Legal(s, e) && ReturnsOk(s)
    ensures ReturnsOk(Step(s, e))
  {
    hide DoWrite, DoRead, ReturnOk, Delivered;
    match e
    case Write(t, addr) => WriteOver(s, t, addr, 0); Appended(s, Step(s, e));
    case Read(t, n) => ReadOver(s, t, n); Appended(s, Step(s, e));
    case Resume(t) =>
      match s.calls[t] {
        case Reading(n) => ReadOver(s, t, n);
        case Writing(addr, i) => WriteOver(s, t, addr, i);
      }
      Appended(s, Step(s, e));
    case Kill(_) =>
    case Close(_) =>
  }

  lemma Appended(s: Sys, s': Sys)
    requires ReturnsOk(s) && OneMore(s, s')
    ensures ReturnsOk(s')
  {
    hide ReturnOk;
    if s'.done != s.done {
      DeliveredOne(s.done, s'.done[|s'.done| - 1]);
    }
  }

  /** In every run each call that is over returned what it had done, and the bytes handed out are those
      of the reads that are over, in their order. */
  lemma {:induction false} ReturnsAlways(s: Sys, es: seq<Event>)
    requires Fifo(s) && ReturnsOk(s) && LegalRun(s, es)
    ensures ReturnsOk(Run(s, es))
    decreases |es|
  {
    hide Step, Fifo, ReturnsOk, Legal;
    if es != [] {
      FifoStep(s, es[0]);
      ReturnsStep(s, es[0]);
      ReturnsAlways(Step(s, es[0]), es[1..]);
    }
  }

  // ---------------------------------------------------------------- no lost wakeups

  /** No reader sleeps while there is something to read, no writer while there is room, and nobody
      sleeps for an end that is closed. */
  predicate Awake(s: Sys) {
    && (s.q != [] || !s.writeopen ==> s.readers == {})
    && (|s.q| < PIPESIZE || !s.readopen ==> s.writers == {})
  }

  predicate CallsOk(s: Sys) {
    && (forall t :: t in s.readers ==> t in s.calls && s.calls[t].Reading?)
    && (forall t :: t in s.writers ==> t in s.calls && s.calls[t].Writing?)
    && (!s.readopen ==> forall t :: t in s.calls ==> s.calls[t].Writing?)
    && (!s.writeopen ==> forall t :: t in s.calls ==> s.calls[t].Reading?)
  }

  lemma CallsStep(s: Sys, e: Event)
    requires CallsOk(s) && Legal(s, e)
    ensures CallsOk(Step(s, e))
  {
  }

  lemma Some<T>(ts: set<T>) returns (t: T)
    requires ts != {}
    ensures t in ts
  {
    t :| t in ts;
  }

  /** A new pipe is where all these runs may begin. */
  lemma FreshIsAwake()
    ensures Fifo(Fresh()) && ReturnsOk(Fresh()) && CallsOk(Fresh()) && Awake(Fresh()) && Fresh().killed == {}
  {
  }

  /** The bytes that a call taken up by e has still to write. */
  function Remaining(s: Sys, e: Event): int {
    match e
    case Write(_, addr) => |addr|
    case Resume(t) => if t in s.calls && s.calls[t].Writing? then |s.calls[t].addr| - s.calls[t].i else 0
    case _ => 0
  }

  /** A killed writer with more than a pipe's size to write goes on while a reader sleeps: it fills
      the empty pipe and gives up without waking anybody. */
  predicate Loses(s: Sys, e: Event) {
    (e.Write? || e.Resume?) && e.t in s.killed && s.readers != {} && Remaining(s, e) > PIPESIZE
  }

  /** A step loses a wakeup if and only if it is such a write, just begun or resumed. */
  lemma LostExactly(s: Sys, e: Event)
    requires Fifo(s) && CallsOk(s) && Awake(s) && Legal(s, e)
    ensures Awake(Step(s, e)) <==> !Loses(s, e)
  {
    if s.readers != {} {
      var r := Some(s.readers);
      assert r in s.calls;
    }
    if s.writers != {} {
      var w := Some(s.writers);
      assert w in s.calls;
    }
  }

  /** No step of the run loses a wakeup. */
  predicate LosesNone(s: Sys, es: seq<Event>)
    decreases |es|
  {
    es == [] || (!Loses(s, es[0]) && LosesNone(Step(s, es[0]), es[1..]))
  }

  /** Whenever the lock is free in the run, no thread sleeps that could go on. */
  predicate StaysAwake(s: Sys, es: seq<Event>)
    decreases |es|
  {
    Awake(s) && (es == [] || StaysAwake(Step(s, es[0]), es[1..]))
  }

  /** With kills anywhere, a run stays awake if and only if none of its steps is such a write. */
  lemma {:induction false} AwakeExactly(s: Sys, es: seq<Event>)
    requires Fifo(s) && CallsOk(s) && Awake(s) && LegalRun(s, es)
    ensures StaysAwake(s, es) <==> LosesNone(s, es)
    decreases |es|
  {
    hide Fifo, CallsOk, Awake, Step, Loses;
    if es != [] {
      FifoStep(s, es[0]);
      CallsStep(s, es[0]);
      LostExactly(s, es[0]);
      if Awake(Step(s, es[0])) {
        AwakeExactly(Step(s, es[0]), es[1..]);
      } else {
        NotAwake(Step(s, es[0]), es[1..]);
      }
    }
  }

  lemma NotAwake(s: Sys, es: seq<Event>)
    requires !Awake(s)
    ensures !StaysAwake(s, es)
  {
  }

  predicate NoKill(es: seq<Event>) {
    forall e :: e in es ==> !e.Kill?
  }

  lemma {:induction false} NobodyKilled(s: Sys, es: seq<Event>)
    requires s.killed == {} && NoKill(es)
    ensures LosesNone(s, es)
    decreases |es|
  {
    if es != [] {
      assert es[0] in es;
      assert Step(s, es[0]).killed == {};
      NobodyKilled(Step(s, es[0]), es[1..]);
    }
  }

  lemma {:induction false} EndsAwake(s: Sys, es: seq<Event>)
    requires StaysAwake(s, es)
    ensures Awake(Run(s, es))
    decreases |es|
  {
    if es != [] {
      EndsAwake(Step(s, es[0]), es[1..]);
    }
  }

  /** Runs without kill stay awake, and never have sleepers at both ends. */
  lemma NoLostWakeups(s: Sys, es: seq<Event>)
    requires Fifo(s) && CallsOk(s) && Awake(s) && s.killed == {} && LegalRun(s, es) && NoKill(es)
    ensures StaysAwake(s, es)
    ensures Run(s, es).readers == {} || Run(s, es).writers == {}
  {
    NobodyKilled(s, es);
    AwakeExactly(s, es);
    EndsAwake(s, es);
  }

  // ---------------------------------------------------------------- what kill breaks

  function Zeroes(n: nat): (b: seq<int>)
    ensures |b| == n
  {
    seq(n, _ => 0)
  }

  /** Reader 1 sleeps on the empty pipe; writer 2, killed, fills it and returns: 1 sleeps on. */
  lemma KilledWriterStrandsReader()
    ensures var es := [Read(1, 1), Kill(2), Write(2, Zeroes(513))];
      LegalRun(Fresh(), es) && |Run(Fresh(), es).q| == PIPESIZE && 1 in Run(Fresh(), es).readers
  {
    var s1 := Step(Fresh(), Read(1, 1));
    var s2 := Step(s1, Kill(2));
    var s3 := Step(s2, Write(2, Zeroes(513)));
    assert 1 in s2.readers;
    assert |s3.q| == PIPESIZE && 1 in s3.readers;
    OneStep(s2, Write(2, Zeroes(513)), []);
    OneStep(s1, Kill(2), [Write(2, Zeroes(513))]);
    OneStep(Fresh(), Read(1, 1), [Kill(2), Write(2, Zeroes(513))]);
  }

  /** Writer 2 sleeps in a long write; reader 1 empties the pipe, 2 is killed, and 1 goes to sleep for
      more. The write, resumed, fills the pipe and gives up: 1 sleeps on. */
  lemma ResumedWriterStrandsReader()
    ensures var es := [Write(2, Zeroes(2000)), Read(1, 512), Kill(2), Read(1, 1), Resume(2)];
      LegalRun(Fresh(), es) && |Run(Fresh(), es).q| == PIPESIZE && 1 in Run(Fresh(), es).readers
  {
    var e0, e1, e2, e3, e4 := Write(2, Zeroes(2000)), Read(1, 512), Kill(2), Read(1, 1), Resume(2);
    var s1 := Step(Fresh(), e0);
    assert |s1.q| == PIPESIZE && s1.calls[2] == Writing(Zeroes(2000), 512) && s1.writers == {2};
    var s2 := Step(s1, e1);
    assert s2.q == [] && s2.calls == s1.calls && s2.writers == {};
    var s3 := Step(s2, e2);
    var s4 := Step(s3, e3);
    assert 1 in s4.readers && s4.calls[2] == Writing(Zeroes(2000), 512);
    var s5 := Step(s4, e4);
    assert |s5.q| == PIPESIZE && 1 in s5.readers;
    OneStep(s4, e4, []);
    OneStep(s3, e3, [e4]);
    OneStep(s2, e2, [e3, e4]);
    OneStep(s1, e1, [e2, e3, e4]);
    OneStep(Fresh(), e0, [e1, e2, e3, e4]);
  }

  lemma OneStep(s: Sys, e: Event, es: seq<Event>)
    requires Legal(s, e) && LegalRun(Step(s, e), es)
    ensures LegalRun(s, [e] + es) && Run(s, [e] + es) == Run(Step(s, e), es)
  {
    assert ([e] + es)[1..] == es;
  }
}
