/** The log over the buffer cache (log.c over bio.c): a system whose every disk access goes through
    buffers that anybody may find, lock, recycle and release, and that it does what LogRun promises. */
module LogOverCache {
  import Blocks
  import Log
  import LogRun
  import opened BioRun
  import opened LogCache

  /** The cache, what log.c keeps in struct log, and the view that the cache shows of the log's device. */
  datatype World = World(cs: Sys, lh: seq<nat>, used: seq<nat>, committing: bool, asleep: set<nat>, v: View)

  datatype Option<T> = None | Some(value: T)

  datatype Action =
    | Use(e: Event)                              // a step of the cache that stores nothing on the device
    | BeginOp(op: nat)
    | LogWrite(slot: nat, h: int, data: Data)    // the holder h of a buffer calls log_write on it
    | EndOp(slot: nat)
    | Commit(es: seq<Event>)                     // the steps of the cache during commit()
    | Crash(es: seq<Event>, again: seq<nat>, cs: Sys)  // power fails behind these; cs is the cache after recovery

  function Abs(w: World): LogRun.Sys {
    LogRun.Sys(w.v.disk, w.v.cache, w.lh, w.used, w.committing, w.asleep)
  }

  // ---------------------------------------------------------------- the writes of a run of the cache

  /** The block write of a step, on device dev. */
  function WriteOf(s: Sys, e: Event, dev: int): seq<Blocks.Write> {
    var x := RefAt(s, e.h).block;
    if x.dev != dev || x.blockno < 0 then []
    else
      match e
      case Write(_, data) => [Blocks.Write(x.blockno, data)]
      case Install(h) => [Blocks.Write(x.blockno, DataAt(s, RefAt(s, h).b))]
      case _ => []
  }

  predicate Pins(s: Sys, e: Event, dev: int) {
    e.Pin? && RefAt(s, e.h).block.dev == dev && RefAt(s, e.h).block.blockno >= 0
  }

  function Bwrites(s: Sys, es: seq<Event>, dev: int): seq<Blocks.Write>
    decreases |es|
  {
    if es == [] then [] else WriteOf(s, es[0], dev) + Bwrites(Step(s, es[0]), es[1..], dev)
  }

  predicate NoPins(s: Sys, es: seq<Event>, dev: int)
    decreases |es|
  {
    es == [] || (!Pins(s, es[0], dev) && NoPins(Step(s, es[0]), es[1..], dev))
  }

  function Unpin(cache: map<nat, Data>, ws: seq<Blocks.Write>): map<nat, Data>
    decreases |ws|
  {
    if ws == [] then cache else Unpin(cache - {ws[0].no}, ws[1..])
  }

  lemma EffectWrites(s: Sys, e: Event, dev: int, v: View)
    requires !Pins(s, e, dev)
    ensures Effect(s, e, dev, v) == View(Blocks.Apply(v.disk, WriteOf(s, e, dev)), Unpin(v.cache, WriteOf(s, e, dev)))
  {
    var ws := WriteOf(s, e, dev);
    Blocks.ApplyNothing(v.disk);
    if ws != [] {
      assert ws[..|ws| - 1] == [] && ws[1..] == [];
    }
  }

  lemma {:induction false} UnpinConcat(cache: map<nat, Data>, a: seq<Blocks.Write>, b: seq<Blocks.Write>)
    ensures Unpin(cache, a + b) == Unpin(Unpin(cache, a), b)
    decreases |a|
  {
    if a == [] {
      assert a + b == b;
    } else {
      assert (a + b)[1..] == a[1..] + b;
      UnpinConcat(cache - {a[0].no}, a[1..], b);
    }
  }

  /** Steps that pin nothing write their blocks to the device, in order, and unpin them. */
  lemma {:induction false} EffectsAreWrites(s: Sys, es: seq<Event>, dev: int, v: View)
    requires NoPins(s, es, dev)
    ensures Effects(s, es, dev, v) == View(Blocks.Apply(v.disk, Bwrites(s, es, dev)), Unpin(v.cache, Bwrites(s, es, dev)))
    decreases |es|
  {
    hide Effect, WriteOf, Pins, Step, Blocks.Apply;
    if es == [] {
      Blocks.ApplyNothing(v.disk);
    } else {
      var ws, rest := WriteOf(s, es[0], dev), Bwrites(Step(s, es[0]), es[1..], dev);
      EffectWrites(s, es[0], dev, v);
      EffectsAreWrites(Step(s, es[0]), es[1..], dev, Effect(s, es[0], dev, v));
      Blocks.ApplyConcat(v.disk, ws, rest);
      UnpinConcat(v.cache, ws, rest);
    }
  }

  lemma {:induction false} Unpinned(cache: map<nat, Data>, ws: seq<Blocks.Write>)
    requires forall k :: k in cache ==> exists i :: 0 <= i < |ws| && ws[i].no == k
    ensures Unpin(cache, ws) == map[]
    decreases |ws|
  {
    if ws == [] {
      assert forall k :: k !in cache;
    } else {
      forall k | k in cache - {ws[0].no} ensures exists i :: 0 <= i < |ws| - 1 && ws[1..][i].no == k {
        var i :| 0 <= i < |ws| && ws[i].no == k;
        assert ws[1..][i - 1].no == k;
      }
      Unpinned(cache - {ws[0].no}, ws[1..]);
    }
  }

  /** commit writes every logged block home. */
  lemma CommitCovers(g: Log.Geometry, d: Blocks.Disk, cache: map<nat, Data>, blocks: seq<nat>, k: nat) returns (i: nat)
    requires k in blocks
    ensures i < |Log.CommitWrites(g, d, cache, blocks)| && Log.CommitWrites(g, d, cache, blocks)[i].no == k
  {
    hide Log.RecordWrites, Log.HeadWrite, Log.Committed;
    var m :| 0 <= m < |blocks| && blocks[m] == k;
    i := |blocks| + 1 + m;
    var rest := Log.InstallAndClear(g, Log.Committed(g, d, cache, blocks), blocks);
    assert rest[m].no == k;
    assert Log.CommitWrites(g, d, cache, blocks)[i] == rest[m];
  }

  // ---------------------------------------------------------------- the machine

  /** The step of LogRun that an action is; only Use is none. */
  function Image(w: World, a: Action, dev: int): LogRun.Event {
    match a
    case Use(_) => LogRun.BeginOp(0)
    case BeginOp(op) => LogRun.BeginOp(op)
    case LogWrite(slot, h, data) =>
      var k := RefAt(w.cs, h).block.blockno;
      LogRun.LogWrite(slot, if k >= 0 then k else 0, data)
    case EndOp(slot) => LogRun.EndOp(slot)
    case Commit(_) => LogRun.CommitDone
    case Crash(es, again, _) => LogRun.Crash(|Bwrites(w.cs, es, dev)|, again)
  }

  /** What recovery leaves of the device. */
  function Restarted(w: World, g: Log.Geometry, dev: int, es: seq<Event>, again: seq<nat>): View {
    View(Log.AfterCrashes(g, Blocks.Apply(w.v.disk, Bwrites(w.cs, es, dev)), again), map[])
  }

  /** The bookkeeping of log.c is LogRun's; the cache takes its own steps, and the view follows them.
      None stands for a panic of the log. */
  function Do(g: Log.Geometry, dev: int, w: World, a: Action): Option<World> {
    match a
    case Use(e) => Some(w.(cs := Step(w.cs, e)))
    case LogWrite(_, h, data) =>
      (match LogRun.Step(g, Abs(w), Image(w, a, dev))
       case Panic => None
       case Ran(s) => Some(World(Step(w.cs, Pin(h, data)), s.lh, s.used, s.committing, s.asleep, Effect(w.cs, Pin(h, data), dev, w.v))))
    case Commit(es) => Some(World(Run(w.cs, es), [], [], false, {}, Effects(w.cs, es, dev, w.v)))
    case Crash(es, again, cs) => Some(World(cs, [], [], false, {}, Restarted(w, g, dev, es, again)))
    case _ =>
      match LogRun.Step(g, Abs(w), Image(w, a, dev))
      case Panic => None
      case Ran(s) => Some(w.(lh := s.lh, used := s.used, committing := s.committing, asleep := s.asleep))
  }

  /** What may happen: the cache's own steps are legal for the cache and those of operations for LogRun;
      the writes during a commit are commit's, in order, and nothing is pinned meanwhile; a crash lets
      some first ones through, and the machine restarts with a cache over the recovered device. */
  ghost predicate Can(g: Log.Geometry, dev: int, w: World, a: Action, budget: nat) {
    match a
    case Use(e) => Legal(w.cs, e) && !Pins(w.cs, e, dev) && WriteOf(w.cs, e, dev) == []
    case LogWrite(slot, h, data) =>
      && Legal(w.cs, Pin(h, data)) && RefAt(w.cs, h).block.dev == dev && RefAt(w.cs, h).block.blockno >= 0
      && LogRun.Allowed(g, Abs(w), Image(w, a, dev), budget)
    case Commit(es) =>
      && w.committing && LegalRun(w.cs, es) && NoPins(w.cs, es, dev)
      && Bwrites(w.cs, es, dev) == LogRun.PendingWrites(g, Abs(w))
    case Crash(es, again, cs) =>
      && LegalRun(w.cs, es) && NoPins(w.cs, es, dev) && Bwrites(w.cs, es, dev) <= LogRun.PendingWrites(g, Abs(w))
      && Inv(cs) && Shows(cs, dev, Restarted(w, g, dev, es, again))
    case _ => LogRun.Allowed(g, Abs(w), Image(w, a, dev), budget)
  }

  ghost predicate CanAll(g: Log.Geometry, dev: int, w: World, acts: seq<Action>, budget: nat)
    decreases |acts|
  {
    acts == [] ||
    (Can(g, dev, w, acts[0], budget) && (Do(g, dev, w, acts[0]).Some? ==> CanAll(g, dev, Do(g, dev, w, acts[0]).value, acts[1..], budget)))
  }

  function DoAll(g: Log.Geometry, dev: int, w: World, acts: seq<Action>): Option<World>
    decreases |acts|
  {
    if acts == [] then Some(w)
    else match Do(g, dev, w, acts[0])
      case None => None
      case Some(u) => DoAll(g, dev, u, acts[1..])
  }

  /** The steps of the simple machine, atomic and without a cache. */
  function IdealAll(g: Log.Geometry, dev: int, w: World, m: LogRun.Ideal, acts: seq<Action>): LogRun.Ideal
    decreases |acts|
  {
    if acts == [] then m
    else match Do(g, dev, w, acts[0])
      case None => m
      case Some(u) => IdealAll(g, dev, u, IdealOf(g, dev, w, m, acts[0]), acts[1..])
  }

  function IdealOf(g: Log.Geometry, dev: int, w: World, m: LogRun.Ideal, a: Action): LogRun.Ideal {
    if a.Use? then m
    else
      var e := Image(w, a, dev);
      LogRun.IdealStep(m, e, LogRun.Survives(g, Abs(w), e))
  }

  // ---------------------------------------------------------------- the cache is in order, and follows LogRun

  ghost predicate Sound(dev: int, w: World) {
    Inv(w.cs) && Shows(w.cs, dev, w.v)
  }

  /** An action that is a step of LogRun does to the abstract state what that step does. */
  ghost predicate Follows(g: Log.Geometry, dev: int, w: World, a: Action, u: World) {
    Sound(dev, u) &&
    if a.Use? then Abs(u) == Abs(w) else LogRun.Step(g, Abs(w), Image(w, a, dev)) == LogRun.Ran(Abs(u))
  }

  lemma UseFollows(g: Log.Geometry, dev: int, w: World, e: Event, budget: nat)
    requires Sound(dev, w) && dev != 0 && Can(g, dev, w, Use(e), budget)
    ensures Follows(g, dev, w, Use(e), Do(g, dev, w, Use(e)).value)
  {
    hide Inv, Shows, Legal, Step;
    StepKeeps(w.cs, e);
    StepShows(w.cs, e, dev, w.v);
    EffectWrites(w.cs, e, dev, w.v);
    hide Effect;
    Blocks.ApplyNothing(w.v.disk);
  }

  lemma LogWriteFollows(g: Log.Geometry, dev: int, w: World, a: Action, budget: nat)
    requires Sound(dev, w) && dev != 0 && a.LogWrite? && Can(g, dev, w, a, budget) && Do(g, dev, w, a).Some?
    ensures Follows(g, dev, w, a, Do(g, dev, w, a).value)
  {
    hide Inv, Shows, Legal, Step, LogRun.Absorb;
    StepKeeps(w.cs, Pin(a.h, a.data));
    StepShows(w.cs, Pin(a.h, a.data), dev, w.v);
  }

  // A commit leaves nothing pinned.
  lemma NothingPinned(g: Log.Geometry, s: LogRun.Sys, k: nat) returns (i: nat)
    requires Log.Pins(s.cache, s.lh) && s.committing && k in s.cache
    ensures i < |LogRun.PendingWrites(g, s)| && LogRun.PendingWrites(g, s)[i].no == k
  {
    i := CommitCovers(g, s.disk, s.cache, s.lh, k);
  }

  lemma CommitFollows(g: Log.Geometry, dev: int, w: World, es: seq<Event>, budget: nat)
    requires Sound(dev, w) && dev != 0 && Can(g, dev, w, Commit(es), budget) && Log.Pins(w.v.cache, w.lh)
    ensures Follows(g, dev, w, Commit(es), Do(g, dev, w, Commit(es)).value)
  {
    hide Inv, Shows, LegalRun, Run, Log.Pins, LogRun.PendingWrites, Effects, Bwrites;
    RunShows(w.cs, es, dev, w.v);
    EffectsAreWrites(w.cs, es, dev, w.v);
    var ws := Bwrites(w.cs, es, dev);
    forall k | k in w.v.cache ensures exists i :: 0 <= i < |ws| && ws[i].no == k {
      var i := NothingPinned(g, Abs(w), k);
    }
    Unpinned(w.v.cache, ws);
  }

  lemma CrashFollows(g: Log.Geometry, dev: int, w: World, a: Action, budget: nat)
    requires Sound(dev, w) && a.Crash? && Can(g, dev, w, a, budget)
    ensures Follows(g, dev, w, a, Do(g, dev, w, a).value)
    ensures LogRun.Allowed(g, Abs(w), Image(w, a, dev), budget)
  {
    hide Inv, Shows, LegalRun, LogRun.PendingWrites, Bwrites;
    var ws, all := Bwrites(w.cs, a.es, dev), LogRun.PendingWrites(g, Abs(w));
    assert all[..|ws|] == ws;
  }

  lemma ActionFollows(g: Log.Geometry, dev: int, w: World, a: Action, budget: nat)
    requires Sound(dev, w) && dev != 0 && Can(g, dev, w, a, budget) && Log.Pins(w.v.cache, w.lh)
    requires Do(g, dev, w, a).Some?
    ensures Follows(g, dev, w, a, Do(g, dev, w, a).value)
  {
    hide Sound, Can;
    match a
    case Use(e) => UseFollows(g, dev, w, e, budget);
    case LogWrite(_, _, _) => LogWriteFollows(g, dev, w, a, budget);
    case Commit(es) => CommitFollows(g, dev, w, es, budget);
    case Crash(_, _, _) => CrashFollows(g, dev, w, a, budget);
    case BeginOp(_) => SoundSame(dev, w, Do(g, dev, w, a).value);
    case EndOp(_) => SoundSame(dev, w, Do(g, dev, w, a).value);
  }

  lemma SoundSame(dev: int, w: World, u: World)
    requires Sound(dev, w) && u.cs == w.cs && u.v == w.v
    ensures Sound(dev, u)
  {
  }

  // ---------------------------------------------------------------- every run

  ghost predicate Good(g: Log.Geometry, dev: int, w: World, m: LogRun.Ideal, budget: nat) {
    Sound(dev, w) && LogRun.Inv(g, Abs(w), budget) && LogRun.Matches(g, Abs(w), m)
  }

  lemma ActionKeeps(g: Log.Geometry, dev: int, w: World, m: LogRun.Ideal, a: Action, budget: nat)
    requires Good(g, dev, w, m, budget) && dev != 0 && Can(g, dev, w, a, budget)
    requires budget < Log.MAXOPBLOCKS && Log.LOGSIZE <= g.size
    ensures Do(g, dev, w, a).Some? && Good(g, dev, Do(g, dev, w, a).value, IdealOf(g, dev, w, m, a), budget)
  {
    hide Sound, LogRun.Matches, LogRun.Step, LogRun.IdealStep, LogRun.Survives;
    LogRun.QuietAndPinned(g, Abs(w), budget);
    hide LogRun.Inv;
    if !a.Use? {
      ImageAllowed(g, dev, w, a, budget);
      hide Can;
      LogRun.StepKeeps(g, Abs(w), m, Image(w, a, dev), budget);
    }
    hide Can;
    ActionFollows(g, dev, w, a, budget);
  }

  lemma ImageAllowed(g: Log.Geometry, dev: int, w: World, a: Action, budget: nat)
    requires Sound(dev, w) && Can(g, dev, w, a, budget) && !a.Use?
    ensures LogRun.Allowed(g, Abs(w), Image(w, a, dev), budget)
  {
    if a.Crash? {
      CrashFollows(g, dev, w, a, budget);
    }
  }

  /** Every run of the log over the cache, whatever else the cache is used for, whose operations add fewer
      than MAXOPBLOCKS blocks each: no panic of the log, cache and log in order, and the view and durable
      contents are those of the simple machine. */
  lemma {:induction false} OverCacheRefines(g: Log.Geometry, dev: int, w: World, m: LogRun.Ideal, acts: seq<Action>, budget: nat)
    requires Good(g, dev, w, m, budget) && dev != 0 && CanAll(g, dev, w, acts, budget)
    requires budget < Log.MAXOPBLOCKS && Log.LOGSIZE <= g.size
    ensures DoAll(g, dev, w, acts).Some?
    ensures Good(g, dev, DoAll(g, dev, w, acts).value, IdealAll(g, dev, w, m, acts), budget)
    decreases |acts|
  {
    hide Good, Can, Do, IdealOf;
    if acts != [] {
      ActionKeeps(g, dev, w, m, acts[0], budget);
      OverCacheRefines(g, dev, Do(g, dev, w, acts[0]).value, IdealOf(g, dev, w, m, acts[0]), acts[1..], budget);
    }
  }

  /** And whoever reads a home block then, through whatever buffer, gets the simple machine's view of it. */
  lemma ReadsAreIdeal(g: Log.Geometry, dev: int, w: World, m: LogRun.Ideal, budget: nat, h: int, k: nat)
    requires Good(g, dev, w, m, budget) && dev != 0 && Legal(w.cs, Lock(h))
    requires w.cs.refs[h].block == Block(dev, k) && k < |w.v.disk| && !Log.InLog(g, k)
    ensures DataAt(Step(w.cs, Lock(h)), w.cs.refs[h].b) == Blocks.ReadBlock(m.view, k)
  {
    hide Inv, Shows, LogRun.Inv;
    BreadShows(w.cs, h, dev, w.v, k);
    hide Legal, Step;
    assert Blocks.ReadBlock(Log.Installed(w.v.disk, w.v.cache), k) == Blocks.ReadBlock(m.view, k);
  }

  /** At boot, on a device with an empty log and a cache that shows it. */
  lemma BootIsGood(g: Log.Geometry, dev: int, cs: Sys, d: Blocks.Disk, budget: nat)
    requires Inv(cs) && Shows(cs, dev, View(d, map[])) && Log.Quiet(g, d)
    ensures Good(g, dev, World(cs, [], [], false, {}, View(d, map[])), LogRun.Ideal(d, d), budget)
  {
    hide Inv, Shows, LogRun.Inv, LogRun.Matches, Log.Quiet;
    LogRun.Restart(g, d, d, budget);
  }
}
