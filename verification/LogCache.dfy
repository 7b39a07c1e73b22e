/** What the log sees through the buffer cache (log.c over bio.c): its device is the disk, its pinned
    blocks are the dirty buffers, and every step of the cache does to them what LogDevice says. */
module LogCache {
  import Blocks
  import Log
  import opened Bio
  import opened BioRun

  /** The two things the log works on, for one device. */
  datatype View = View(disk: Blocks.Disk, cache: map<nat, Data>)

  ghost predicate Pinned(s: Sys, x: Block) {
    exists b :: 0 <= b < s.n && At(s.t, b).dirty && BlockOf(At(s.t, b)) == x
  }

  ghost predicate ShowsDisk(s: Sys, dev: int, disk: Blocks.Disk) {
    forall k: nat :: k < |disk| ==> disk[k] == Read(s.disk, Block(dev, k))
  }

  ghost predicate ShowsPinned(s: Sys, dev: int, cache: map<nat, Data>) {
    && (forall k: nat :: k in cache <==> Pinned(s, Block(dev, k)))
    && (forall k: nat :: k in cache ==> cache[k] == Read(s.latest, Block(dev, k)))
  }

  ghost predicate Shows(s: Sys, dev: int, v: View) {
    ShowsDisk(s, dev, v.disk) && ShowsPinned(s, dev, v.cache)
  }

  /** Bwrite and log_write as LogDevice specifies them. */
  function Written(v: View, no: nat, data: Data): View {
    View(Blocks.WriteBlock(v.disk, Blocks.Write(no, data)), v.cache - {no})
  }

  function Logged(v: View, no: nat, data: Data): View {
    v.(cache := v.cache[no := data])
  }

  /** What a step of the cache does to the view of device dev: finding, locking, reading and releasing
      buffers, and all that happens on other devices, does nothing. */
  function Effect(s: Sys, e: Event, dev: int, v: View): View {
    var x := RefAt(s, e.h).block;
    if x.dev != dev || x.blockno < 0 then v
    else
      match e
      case Write(h, data) => Written(v, x.blockno, data)
      case Install(h) => Written(v, x.blockno, DataAt(s, RefAt(s, h).b))
      case Pin(h, data) => Logged(v, x.blockno, data)
      case _ => v
  }

  // ---------------------------------------------------------------- pinned blocks

  lemma TouchPinned(s: Sys, s': Sys, h: int, b: int, x: Block)
    requires Unique(s.t, s.n) && Touches(s, s', h, b) && x.dev != 0
    ensures Pinned(s', x) <==> if x == BlockOf(s.t[b]) then s'.t[b].dirty else Pinned(s, x)
  {
    if x == BlockOf(s.t[b]) {
      if s'.t[b].dirty {
        assert At(s'.t, b).dirty && BlockOf(At(s'.t, b)) == x;
      }
    } else {
      SamePinned(s, s', x);
    }
  }

  lemma SamePinned(s: Sys, s': Sys, x: Block)
    requires s'.n == s.n
    requires forall c :: 0 <= c < s.n ==>
      (At(s'.t, c).dirty && BlockOf(At(s'.t, c)) == x <==> At(s.t, c).dirty && BlockOf(At(s.t, c)) == x)
    ensures Pinned(s', x) <==> Pinned(s, x)
  {
  }

  lemma GetPinned(s: Sys, s': Sys, h: int, y: Block, b: int, x: Block)
    requires GetsAt(s, s', h, y, b)
    ensures Pinned(s', x) <==> Pinned(s, x)
  {
    SamePinned(s, s', x);
  }

  lemma ReleasePinned(s: Sys, s': Sys, b: int, x: Block)
    requires Lowered(s.t, s'.t, b) && s'.n == s.n
    ensures Pinned(s', x) <==> Pinned(s, x)
  {
    forall c | 0 <= c < s.n
      ensures At(s'.t, c).dirty && BlockOf(At(s'.t, c)) == x <==> At(s.t, c).dirty && BlockOf(At(s.t, c)) == x
    {
      assert c < |s.t| ==> SameBut(s'.t[c], if c == b then s.t[c].(refcnt := s.t[c].refcnt - 1) else s.t[c]);
    }
    SamePinned(s, s', x);
  }

  // ---------------------------------------------------------------- every step has its effect

  // A step that pins and unpins nothing and stores nothing.
  lemma SameShows(s: Sys, s': Sys, dev: int, v: View)
    requires Shows(s, dev, v) && s'.disk == s.disk && s'.latest == s.latest
    requires forall k: nat :: Pinned(s', Block(dev, k)) <==> Pinned(s, Block(dev, k))
    ensures Shows(s', dev, v)
  {
    hide Pinned;
  }

  lemma GetShows(s: Sys, h: int, x: Block, dev: int, v: View)
    requires Inv(s) && Legal(s, Event.Get(h, x)) && Shows(s, dev, v)
    ensures Shows(DoGet(s, h, x), dev, v)
  {
    hide CountsOk, RefsOk, Unique, Coherent, Sorted, Linked, Got, GetTable, Shows, Pinned;
    var s', b := DoGet(s, h, x), Got(s.t, s.order, x.dev, x.blockno);
    LinkedLength(s.t, s.order, s.n);
    GotCases(s.t, s.order, s.n, x);
    GetKeeps(s.t, s.order, s.n, x.dev, x.blockno);
    forall k: nat ensures Pinned(s', Block(dev, k)) <==> Pinned(s, Block(dev, k)) {
      GetPinned(s, s', h, x, b, Block(dev, k));
    }
    SameShows(s, s', dev, v);
  }

  lemma ReleaseShows(s: Sys, h: int, dev: int, v: View)
    requires Inv(s) && Legal(s, Event.Release(h)) && Shows(s, dev, v)
    ensures Shows(DoRelease(s, h), dev, v)
  {
    hide RefsOk, Unique, Coherent, Sorted, Linked, ReleaseTable, ReleaseOrder, Lowered, Shows, Pinned;
    var s', b := DoRelease(s, h), s.refs[h].b;
    ReleaseLowers(s.t, s.order, s.n, b);
    forall k: nat ensures Pinned(s', Block(dev, k)) <==> Pinned(s, Block(dev, k)) {
      ReleasePinned(s, s', b, Block(dev, k));
    }
    SameShows(s, s', dev, v);
  }

  lemma WrittenShows(s: Sys, s': Sys, x: Block, data: Data, dev: int, v: View)
    requires Shows(s, dev, v) && s'.disk == s.disk[x := data]
    requires forall y :: y != x ==> Read(s'.latest, y) == Read(s.latest, y)
    requires forall k: nat :: Pinned(s', Block(dev, k)) <==> Pinned(s, Block(dev, k)) && Block(dev, k) != x
    ensures Shows(s', dev, if x.dev == dev && x.blockno >= 0 then Written(v, x.blockno, data) else v)
  {
    hide Pinned;
  }

  lemma LoggedShows(s: Sys, s': Sys, x: Block, data: Data, dev: int, v: View)
    requires Shows(s, dev, v) && s'.disk == s.disk && s'.latest == s.latest[x := data]
    requires forall k: nat :: Pinned(s', Block(dev, k)) <==> Pinned(s, Block(dev, k)) || Block(dev, k) == x
    ensures Shows(s', dev, if x.dev == dev && x.blockno >= 0 then Logged(v, x.blockno, data) else v)
  {
    hide Pinned;
  }

  // Lock, Write, Pin and Install touch the buffer of their caller only.
  lemma Held(s: Sys, e: Event)
    requires Inv(s) && Legal(s, e) && !e.Get? && !e.Release?
    ensures Unique(s.t, s.n) && Touches(s, Step(s, e), e.h, s.refs[e.h].b)
    ensures BlockOf(s.t[s.refs[e.h].b]) == s.refs[e.h].block == BlockOf(At(s.t, s.refs[e.h].b))
    ensures Step(s, e).t[s.refs[e.h].b].dirty <==> e.Pin? || (e.Lock? && s.t[s.refs[e.h].b].dirty)
  {
    hide ListOk, Sorted, Permutation;
    var b := s.refs[e.h].b;
    LockShape(s, e.h);
    assert CoherentAt(s, b);
    assert !e.Lock? ==> s.refs[e.h := s.refs[e.h].(locked := true)] == s.refs;
  }

  // The only buffer that caches a block decides whether it is pinned.
  lemma OwnPinned(s: Sys, b: int)
    requires Unique(s.t, s.n) && 0 <= b < s.n < |s.t| && s.t[b].dev != 0
    ensures Pinned(s, BlockOf(s.t[b])) <==> s.t[b].dirty
  {
    if s.t[b].dirty {
      assert At(s.t, b).dirty && BlockOf(At(s.t, b)) == BlockOf(s.t[b]);
    }
  }

  // Only the caller's block can be pinned or unpinned.
  lemma HeldPinned(s: Sys, e: Event, dev: int, k: nat)
    requires Inv(s) && Legal(s, e) && !e.Get? && !e.Release? && dev != 0
    ensures Pinned(Step(s, e), Block(dev, k)) <==>
      if Block(dev, k) == s.refs[e.h].block then e.Pin? || (e.Lock? && Pinned(s, Block(dev, k))) else Pinned(s, Block(dev, k))
  {
    hide Inv, Step, Pinned, Unique;
    Held(s, e);
    var b := s.refs[e.h].b;
    TouchPinned(s, Step(s, e), e.h, b, Block(dev, k));
    if BlockOf(s.t[b]) == Block(dev, k) {
      OwnPinned(s, b);
    }
  }

  lemma HolderShows(s: Sys, e: Event, dev: int, v: View)
    requires Inv(s) && Legal(s, e) && !e.Get? && !e.Release? && dev != 0 && Shows(s, dev, v)
    ensures Shows(Step(s, e), dev, Effect(s, e, dev, v))
  {
    hide Inv, Shows, Pinned, Touches, Unique, Written, Logged, DataAt, PutBuf, PutData;
    Held(s, e);
    var s', x := Step(s, e), s.refs[e.h].block;
    forall k: nat
      ensures Pinned(s', Block(dev, k)) <==>
        if Block(dev, k) == x then e.Pin? || (e.Lock? && Pinned(s, Block(dev, k))) else Pinned(s, Block(dev, k))
    {
      HeldPinned(s, e, dev, k);
    }
    match e
    case Lock(_) => SameShows(s, s', dev, v);
    case Write(_, data) => WrittenShows(s, s', x, data, dev, v);
    case Pin(_, data) => LoggedShows(s, s', x, data, dev, v);
    case Install(h) => WrittenShows(s, s', x, DataAt(s, s.refs[h].b), dev, v);
  }

  /** Every step of the cache does to what the log sees what LogDevice's own accesses do. */
  lemma StepShows(s: Sys, e: Event, dev: int, v: View)
    requires Inv(s) && Legal(s, e) && dev != 0 && Shows(s, dev, v)
    ensures Shows(Step(s, e), dev, Effect(s, e, dev, v))
  {
    hide Inv, Shows, DoGet, DoRelease, Written, Logged;
    match e
    case Get(h, x) => GetShows(s, h, x, dev, v);
    case Release(h) => ReleaseShows(s, h, dev, v);
    case _ => HolderShows(s, e, dev, v);
  }

  /** bread gets what LogDevice reads: the pinned contents if there are some, else the disk's. */
  lemma BreadShows(s: Sys, h: int, dev: int, v: View, k: nat)
    requires Inv(s) && Legal(s, Lock(h)) && dev != 0 && Shows(s, dev, v)
    requires s.refs[h].block == Block(dev, k) && k < |v.disk|
    ensures DataAt(Step(s, Lock(h)), s.refs[h].b) == Log.ReadThrough(v.disk, v.cache, k)
  {
    BreadIsLatest(s, h);
    hide ListOk, CountsOk, RefsOk, Unique, Sorted;
    if k !in v.cache {
      assert OnDisk(s, Block(dev, k)) by {
        hide OnDisk;
        assert !Pinned(s, Block(dev, k));
      }
    }
  }

  function Effects(s: Sys, es: seq<Event>, dev: int, v: View): View
    decreases |es|
  {
    if es == [] then v else Effects(Step(s, es[0]), es[1..], dev, Effect(s, es[0], dev, v))
  }

  /** In every run of the cache, recycling and other users included, the log's device and pinned
      blocks are what its own bwrites and log_writes make them. */
  lemma {:induction false} RunShows(s: Sys, es: seq<Event>, dev: int, v: View)
    requires Inv(s) && LegalRun(s, es) && dev != 0 && Shows(s, dev, v)
    ensures Inv(Run(s, es)) && Shows(Run(s, es), dev, Effects(s, es, dev, v))
    decreases |es|
  {
    hide Inv, Shows, Legal, Step, Effect;
    if es != [] {
      StepKeeps(s, es[0]);
      StepShows(s, es[0], dev, v);
      RunShows(Step(s, es[0]), es[1..], dev, Effect(s, es[0], dev, v));
    }
  }

  /** At boot the view is the disk with nothing pinned. */
  lemma BootShows(t: seq<Buf>, order: seq<int>, n: nat, disk: map<Block, Data>, dev: int, d: Blocks.Disk)
    requires Permutation(order, n) && Linked(t, order, n)
    requires forall i :: 0 <= i < |t| ==> SameBut(t[i], Buf(0, 0, false, false, 0, 0, 0))
    requires forall k: nat :: k < |d| ==> d[k] == Read(disk, Block(dev, k))
    ensures Inv(Boot(t, order, n, disk)) && Shows(Boot(t, order, n, disk), dev, View(d, map[]))
  {
    BootIsSound(t, order, n, disk);
    hide Linked, Inv, Permutation;
  }
}
