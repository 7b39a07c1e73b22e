/** Processes sharing the buffer cache (bio.c): every interleaving of bget, sleeping on a buffer's
    lock, bread, bwrite, log_write's pinning and brelse, over a disk. */
module BioRun {
  import Blocks
  import opened Bio

  /** What a block contains. */
  type Data = Blocks.Block

  datatype Block = Block(dev: int, blockno: int)

  /** A buffer that a caller of bget got for a block; it may still sleep on its lock. */
  datatype Ref = Ref(b: int, block: Block, locked: bool)

  /** n buffers with their contents, the list order, the disk, the references by caller, and when
      each buffer was last put in front; `latest` is what was last stored in a block. */
  datatype Sys = Sys(t: seq<Buf>, order: seq<int>, n: nat, data: seq<Data>, disk: map<Block, Data>,
                     refs: map<int, Ref>, stamp: seq<int>, clock: int, latest: map<Block, Data>)

  datatype Event =
    | Get(h: int, block: Block)          // bget up to acquiresleep
    | Lock(h: int)                       // acquiresleep returns; bread reads the block if need be
    | Write(h: int, v: Data)             // the holder stores v and calls bwrite
    | Pin(h: int, v: Data)               // the holder stores v and calls log_write
    | Install(h: int)                    // bwrite of what is there
    | Release(h: int)                    // brelse

  function Read(disk: map<Block, Data>, x: Block): Data {
    if x in disk then disk[x] else Blocks.ZeroBlock()
  }

  function BlockOf(b: Buf): Block {
    Block(b.dev, b.blockno)
  }

  function RefAt(s: Sys, h: int): Ref {
    if h in s.refs then s.refs[h] else Ref(0, Block(0, 0), false)
  }

  predicate Legal(s: Sys, e: Event) {
    match e
    case Get(h, x) => h !in s.refs && Got(s.t, s.order, x.dev, x.blockno) >= 0
    case Lock(h) => h in s.refs && !s.refs[h].locked && forall g :: g in s.refs && s.refs[g].b == s.refs[h].b ==> !s.refs[g].locked
    case _ => e.h in s.refs && s.refs[e.h].locked
  }

  function PutBuf(t: seq<Buf>, b: int, x: Buf): (r: seq<Buf>)
    ensures |r| == |t|
  {
    if 0 <= b < |t| then t[b := x] else t
  }

  function PutData<T>(d: seq<T>, b: int, v: T): (r: seq<T>)
    ensures |r| == |d|
  {
    if 0 <= b < |d| then d[b := v] else d
  }

  function DoGet(s: Sys, h: int, x: Block): Sys {
    s.(t := GetTable(s.t, s.order, x.dev, x.blockno),
       refs := s.refs[h := Ref(Got(s.t, s.order, x.dev, x.blockno), x, false)])
  }

  function DoLock(s: Sys, h: int): Sys {
    var r := RefAt(s, h);
    var b := At(s.t, r.b);
    s.(refs := s.refs[h := r.(locked := true)],
       data := if b.valid then s.data else PutData(s.data, r.b, Read(s.disk, BlockOf(b))),
       t := if b.valid then s.t else PutBuf(s.t, r.b, b.(valid := true, dirty := false)))
  }

  function DoWrite(s: Sys, h: int, v: Data): Sys {
    var r := RefAt(s, h);
    var b := At(s.t, r.b);
    s.(data := PutData(s.data, r.b, v), disk := s.disk[BlockOf(b) := v], latest := s.latest[BlockOf(b) := v],
       t := PutBuf(s.t, r.b, b.(valid := true, dirty := false)))
  }

  function DoPin(s: Sys, h: int, v: Data): Sys {
    var r := RefAt(s, h);
    var b := At(s.t, r.b);
    s.(data := PutData(s.data, r.b, v), latest := s.latest[BlockOf(b) := v], t := PutBuf(s.t, r.b, b.(dirty := true)))
  }

  function DataAt(s: Sys, b: int): Data {
    if 0 <= b < |s.data| then s.data[b] else Blocks.ZeroBlock()
  }

  function DoInstall(s: Sys, h: int): Sys {
    var r := RefAt(s, h);
    var b := At(s.t, r.b);
    s.(disk := s.disk[BlockOf(b) := DataAt(s, r.b)], t := PutBuf(s.t, r.b, b.(valid := true, dirty := false)))
  }

  /** The position of b in the list. */
  function Position(order: seq<int>, b: int): (k: int)
    ensures 0 <= k <= |order| && (k < |order| ==> order[k] == b) && (b in order ==> k < |order|)
  {
    if order == [] || order[0] == b then 0 else 1 + Position(order[1..], b)
  }

  function DoRelease(s: Sys, h: int): Sys {
    var b := RefAt(s, h).b;
    var front := At(s.t, b).refcnt == 1;
    s.(refs := s.refs - {h}, t := ReleaseTable(s.t, s.order, s.n, b),
       order := ReleaseOrder(s.t, s.order, Position(s.order, b)),
       stamp := if front then PutData(s.stamp, b, s.clock) else s.stamp, clock := s.clock + 1)
  }

  function Step(s: Sys, e: Event): Sys {
    match e
    case Get(h, x) => DoGet(s, h, x)
    case Lock(h) => DoLock(s, h)
    case Write(h, v) => DoWrite(s, h, v)
    case Pin(h, v) => DoPin(s, h, v)
    case Install(h) => DoInstall(s, h)
    case Release(h) => DoRelease(s, h)
  }

  // ---------------------------------------------------------------- invariants

  predicate ListOk(s: Sys) {
    Permutation(s.order, s.n) && Linked(s.t, s.order, s.n) && |s.data| == s.n == |s.stamp|
  }

  function Users(refs: map<int, Ref>, b: int): set<int> {
    set h | h in refs && refs[h].b == b
  }

  /** A buffer's count is the number of its users. */
  predicate CountsOk(s: Sys) {
    && |s.t| == s.n + 1
    && (forall h :: h in s.refs ==> 0 <= s.refs[h].b < s.n)
    && (forall b :: 0 <= b < s.n ==> s.t[b].refcnt == |Users(s.refs, b)|)
  }

  /** Every buffer in use caches the block it was asked for, also after its user slept. */
  predicate RefsOk(s: Sys) {
    && (forall h :: h in s.refs ==> BlockOf(At(s.t, s.refs[h].b)) == s.refs[h].block)
    && (forall h :: h in s.refs && s.refs[h].locked ==> At(s.t, s.refs[h].b).valid)
    && (forall g, h :: g in s.refs && h in s.refs && g != h && s.refs[g].b == s.refs[h].b ==> !s.refs[g].locked || !s.refs[h].locked)
  }

  /** Apart from device 0, no two buffers cache the same block. */
  predicate Unique(t: seq<Buf>, n: int) {
    forall b, c :: 0 <= b < c < n && c < |t| && t[b].dev != 0 ==> BlockOf(t[b]) != BlockOf(t[c])
  }

  predicate CoherentAt(s: Sys, b: int) {
    var x := At(s.t, b);
    (x.dirty ==> x.valid) && (x.dev != 0 && x.valid ==> DataAt(s, b) == Read(s.latest, BlockOf(x)))
  }

  predicate OnDisk(s: Sys, x: Block) {
    Read(s.disk, x) == Read(s.latest, x)
  }

  /** A block is on disk as last stored unless a dirty buffer caches it. */
  ghost predicate Coherent(s: Sys) {
    && (forall b :: 0 <= b < s.n ==> CoherentAt(s, b))
    && (forall x: Block :: x.dev != 0 && !OnDisk(s, x) ==> exists b :: 0 <= b < s.n && At(s.t, b).dirty && BlockOf(At(s.t, b)) == x)
  }

  /** The list is in order of last release. */
  predicate Sorted(order: seq<int>, stamp: seq<int>, clock: int) {
    && (forall k :: 0 <= k < |order| ==> 0 <= order[k] < |stamp| && stamp[order[k]] < clock)
    && (forall j, k :: 0 <= j < k < |order| && 0 <= order[j] < |stamp| && 0 <= order[k] < |stamp| ==> stamp[order[j]] > stamp[order[k]])
  }

  ghost predicate Inv(s: Sys) {
    ListOk(s) && CountsOk(s) && RefsOk(s) && Unique(s.t, s.n) && Coherent(s) && Sorted(s.order, s.stamp, s.clock)
  }

  // ---------------------------------------------------------------- the least recently released

  /** The buffer that bget recycles was released before every other unused clean one. */
  lemma VictimIsOldest(s: Sys, b: int)
    requires Permutation(s.order, s.n) && Sorted(s.order, s.stamp, s.clock) && |s.stamp| == s.n && 0 <= b < s.n && Idle(At(s.t, b))
    ensures var k := Victim(s.t, s.order, |s.order|);
      k >= 0 && 0 <= s.order[k] < s.n && s.stamp[s.order[k]] <= s.stamp[b]
  {
    var k := Victim(s.t, s.order, |s.order|);
    assert b in s.order;
    var j :| 0 <= j < |s.order| && s.order[j] == b;
    assert j <= k;
  }

  /** bget panics exactly when no buffer caches the block and none is unused and clean. */
  lemma PanicsExactly(t: seq<Buf>, order: seq<int>, n: nat, x: Block)
    requires Permutation(order, n)
    ensures Got(t, order, x.dev, x.blockno) == -1 <==>
      forall b :: 0 <= b < n ==> !Caches(At(t, b), x.dev, x.blockno) && !Idle(At(t, b))
  {
    var f, v := Find(t, order, x.dev, x.blockno, 0), Victim(t, order, |order|);
    forall b | 0 <= b < n ensures b in order {
    }
    if Got(t, order, x.dev, x.blockno) == -1 {
      forall b | 0 <= b < n ensures !Caches(At(t, b), x.dev, x.blockno) && !Idle(At(t, b)) {
        assert b in order;
        var j :| 0 <= j < |order| && order[j] == b;
      }
    } else {
      assert 0 <= order[if f < |order| then f else v] < n;
    }
  }

  // ---------------------------------------------------------------- what bget found

  /** The buffer bget returns: one that caches the block already, or the victim, if there was none. */
  lemma GotCases(t: seq<Buf>, order: seq<int>, n: nat, x: Block)
    requires Permutation(order, n) && |t| == n + 1 && Got(t, order, x.dev, x.blockno) >= 0
    ensures var b, t' := Got(t, order, x.dev, x.blockno), GetTable(t, order, x.dev, x.blockno);
      && 0 <= b < n
      && (forall i :: 0 <= i < |t| && i != b ==> t'[i] == t[i])
      && (|| (BlockOf(t[b]) == x && t'[b] == t[b].(refcnt := t[b].refcnt + 1))
          || (Idle(t[b]) && t'[b] == Recycled(t[b], x.dev, x.blockno) && forall c :: 0 <= c < n ==> BlockOf(t[c]) != x))
  {
    var f := Find(t, order, x.dev, x.blockno, 0);
    if f >= |order| {
      forall c | 0 <= c < n ensures BlockOf(t[c]) != x {
        assert c in order;
        var j :| 0 <= j < |order| && order[j] == c;
        assert !Caches(At(t, order[j]), x.dev, x.blockno);
      }
    }
    hide Find, Victim;
  }

  /** What a step does to buffer b: its flags and count only, unless it is recycled. */
  predicate GetsAt(s: Sys, s': Sys, h: int, x: Block, b: int) {
    && 0 <= b < s.n && |s.t| == s.n + 1 == |s'.t| && h !in s.refs
    && (forall i :: 0 <= i < |s.t| && i != b ==> s'.t[i] == s.t[i])
    && (|| (BlockOf(s.t[b]) == x && s'.t[b] == s.t[b].(refcnt := s.t[b].refcnt + 1))
        || (Idle(s.t[b]) && s'.t[b] == Recycled(s.t[b], x.dev, x.blockno) && forall c :: 0 <= c < s.n ==> BlockOf(s.t[c]) != x))
    && s' == s.(t := s'.t, refs := s.refs[h := Ref(b, x, false)])
  }

  lemma UsersAdd(refs: map<int, Ref>, h: int, r: Ref, b: int)
    requires h !in refs
    ensures |Users(refs[h := r], b)| == |Users(refs, b)| + if r.b == b then 1 else 0
  {
    if r.b == b {
      assert Users(refs[h := r], b) == Users(refs, b) + {h};
    } else {
      assert Users(refs[h := r], b) == Users(refs, b);
    }
  }

  lemma UsersRemove(refs: map<int, Ref>, h: int, b: int)
    requires h in refs
    ensures |Users(refs - {h}, b)| == |Users(refs, b)| - if refs[h].b == b then 1 else 0
  {
    if refs[h].b == b {
      assert Users(refs, b) == Users(refs - {h}, b) + {h};
    } else {
      assert Users(refs, b) == Users(refs - {h}, b);
    }
  }

  lemma NoUser(refs: map<int, Ref>, h: int, b: int)
    requires |Users(refs, b)| == 0 && h in refs
    ensures refs[h].b != b
  {
    assert refs[h].b == b ==> h in Users(refs, b);
  }

  lemma GetCounts(s: Sys, s': Sys, h: int, x: Block, b: int)
    requires CountsOk(s) && GetsAt(s, s', h, x, b)
    ensures CountsOk(s')
  {
    forall c | 0 <= c < s.n ensures s'.t[c].refcnt == |Users(s'.refs, c)| {
      UsersAdd(s.refs, h, Ref(b, x, false), c);
    }
  }

  lemma GetRefs(s: Sys, s': Sys, h: int, x: Block, b: int)
    requires CountsOk(s) && RefsOk(s) && GetsAt(s, s', h, x, b)
    ensures RefsOk(s')
  {
    if Idle(s.t[b]) {
      forall g | g in s.refs ensures s.refs[g].b != b {
        NoUser(s.refs, g, b);
      }
    }
    forall g | g in s.refs ensures BlockOf(At(s'.t, s.refs[g].b)) == s.refs[g].block && (s.refs[g].locked ==> At(s'.t, s.refs[g].b).valid) {
    }
  }

  lemma GetCoherent(s: Sys, s': Sys, h: int, x: Block, b: int)
    requires Coherent(s) && GetsAt(s, s', h, x, b)
    ensures Coherent(s')
  {
    hide Users;
    forall c | 0 <= c < s.n ensures CoherentAt(s', c) {
      assert CoherentAt(s, c);
    }
    forall y: Block | y.dev != 0 && !OnDisk(s', y)
      ensures exists c :: 0 <= c < s.n && At(s'.t, c).dirty && BlockOf(At(s'.t, c)) == y
    {
      assert !OnDisk(s, y);
      var c :| 0 <= c < s.n && At(s.t, c).dirty && BlockOf(At(s.t, c)) == y;
      assert At(s'.t, c).dirty && BlockOf(At(s'.t, c)) == y;
    }
  }

  lemma GetUnique(s: Sys, s': Sys, h: int, x: Block, b: int)
    requires Unique(s.t, s.n) && GetsAt(s, s', h, x, b)
    ensures Unique(s'.t, s.n)
  {
  }

  // ---------------------------------------------------------------- steps on a held buffer

  /** A step on the buffer b that h has or gets the lock of: its contents and flags, and it is valid. */
  predicate Touches(s: Sys, s': Sys, h: int, b: int) {
    && h in s.refs && s.refs[h].b == b && 0 <= b < s.n && |s.t| == s.n + 1 == |s'.t| && |s'.data| == |s.data|
    && s'.refs == s.refs[h := s.refs[h].(locked := true)]
    && s'.order == s.order && s'.n == s.n && s'.stamp == s.stamp && s'.clock == s.clock
    && s'.t[b] == s.t[b].(valid := true, dirty := s'.t[b].dirty)
    && (forall i :: 0 <= i < |s.t| && i != b ==> s'.t[i] == s.t[i])
    && (forall i :: 0 <= i < |s.data| && i != b ==> s'.data[i] == s.data[i])
    && (forall g :: g in s.refs && g != h && s.refs[g].b == b ==> !s.refs[g].locked)
  }

  lemma TouchRest(s: Sys, s': Sys, h: int, b: int)
    requires ListOk(s) && CountsOk(s) && RefsOk(s) && Unique(s.t, s.n) && Touches(s, s', h, b)
    ensures ListOk(s') && CountsOk(s') && RefsOk(s') && Unique(s'.t, s'.n)
  {
    assert ListOk(s') by {
      FieldsKeepLinks(s.t, s'.t, s.order, s.n);
    }
    hide Linked, Permutation;
    assert CountsOk(s') by {
      forall c | 0 <= c < s.n ensures s'.t[c].refcnt == |Users(s'.refs, c)| {
        assert Users(s'.refs, c) == Users(s.refs, c);
      }
    }
    hide Users;
    assert forall i :: 0 <= i < |s.t| ==> BlockOf(s'.t[i]) == BlockOf(s.t[i]);
  }

  /** What a step on buffer b does to the block x it caches; the other blocks stay as they are. */
  ghost predicate Stores(s: Sys, s': Sys, x: Block) {
    forall y: Block :: y != x ==> Read(s'.disk, y) == Read(s.disk, y) && Read(s'.latest, y) == Read(s.latest, y)
  }

  lemma TouchCoherent(s: Sys, s': Sys, h: int, b: int)
    requires Coherent(s) && Unique(s.t, s.n) && Touches(s, s', h, b) && |s.data| == s.n
    requires CoherentAt(s', b) && Stores(s, s', BlockOf(s.t[b]))
    requires s.t[b].dev != 0 ==> s'.t[b].dirty || OnDisk(s', BlockOf(s.t[b]))
    ensures Coherent(s')
  {
    var x := BlockOf(s.t[b]);
    forall c | 0 <= c < s.n ensures CoherentAt(s', c) {
      assert CoherentAt(s, c);
      assert c != b && s.t[c].dev != 0 ==> BlockOf(s.t[c]) != x;
    }
    forall y: Block | y.dev != 0 && !OnDisk(s', y)
      ensures exists c :: 0 <= c < s.n && At(s'.t, c).dirty && BlockOf(At(s'.t, c)) == y
    {
      if y == x {
        assert At(s'.t, b).dirty && BlockOf(At(s'.t, b)) == y;
      } else {
        assert !OnDisk(s, y);
        var c :| 0 <= c < s.n && At(s.t, c).dirty && BlockOf(At(s.t, c)) == y;
        assert At(s'.t, c).dirty && BlockOf(At(s'.t, c)) == y;
      }
    }
  }

  // A block whose only buffer is not dirty is on disk.
  lemma CleanOnDisk(s: Sys, b: int)
    requires Coherent(s) && Unique(s.t, s.n) && 0 <= b < s.n && |s.t| == s.n + 1 && s.t[b].dev != 0 && !s.t[b].dirty
    ensures OnDisk(s, BlockOf(s.t[b]))
  {
    hide OnDisk, CoherentAt;
    var x := BlockOf(s.t[b]);
    forall c | 0 <= c < s.n && At(s.t, c).dirty ensures BlockOf(At(s.t, c)) != x {
      assert c != b;
    }
  }

  lemma LockKeeps(s: Sys, h: int)
    requires Inv(s) && Legal(s, Lock(h))
    ensures Inv(DoLock(s, h))
  {
    hide ListOk, Sorted, Permutation;
    var s', b := DoLock(s, h), s.refs[h].b;
    LockShape(s, h);
    assert Touches(s, s', h, b);
    TouchRest(s, s', h, b);
    assert CoherentAt(s, b);
    if !s.t[b].valid && s.t[b].dev != 0 {
      CleanOnDisk(s, b);
    }
    if s.t[b].dev != 0 && !s.t[b].dirty {
      CleanOnDisk(s, b);
    }
    TouchCoherent(s, s', h, b);
  }

  lemma LockShape(s: Sys, h: int)
    requires ListOk(s)
    ensures |s.data| == s.n && |s.t| == s.n + 1
  {
  }

  /** The caller of bread has what was last stored in the block it asked for. */
  lemma BreadIsLatest(s: Sys, h: int)
    requires Inv(s) && Legal(s, Lock(h)) && s.refs[h].block.dev != 0
    ensures var s' := DoLock(s, h); DataAt(s', s.refs[h].b) == Read(s'.latest, s.refs[h].block)
  {
    LockKeeps(s, h);
    hide ListOk, Sorted, Unique, CountsOk;
    var s', b := DoLock(s, h), s.refs[h].b;
    assert 0 <= b < s.n && |s.t| == s.n + 1 by {
      LockShape(s, h);
      UserInRange(s, h);
    }
    assert CoherentAt(s', b);
  }

  lemma UserInRange(s: Sys, h: int)
    requires CountsOk(s) && h in s.refs
    ensures 0 <= s.refs[h].b < s.n
  {
  }

  lemma HolderKeeps(s: Sys, e: Event)
    requires Inv(s) && Legal(s, e) && (e.Write? || e.Pin? || e.Install?)
    ensures Inv(Step(s, e))
  {
    hide ListOk, Sorted, Permutation;
    var h := e.h;
    var s', b := Step(s, e), s.refs[h].b;
    LockShape(s, h);
    assert CoherentAt(s, b);
    assert s.refs[h := s.refs[h].(locked := true)] == s.refs;
    assert Touches(s, s', h, b);
    TouchRest(s, s', h, b);
    TouchCoherent(s, s', h, b);
  }

  lemma GetKeepsAll(s: Sys, h: int, x: Block)
    requires Inv(s) && Legal(s, Event.Get(h, x))
    ensures Inv(DoGet(s, h, x))
  {
    hide CountsOk, RefsOk, Unique, Coherent, Sorted, Linked, Got, GetTable;
    var b := Got(s.t, s.order, x.dev, x.blockno);
    LinkedLength(s.t, s.order, s.n);
    GotCases(s.t, s.order, s.n, x);
    GetKeeps(s.t, s.order, s.n, x.dev, x.blockno);
    var s' := DoGet(s, h, x);
    assert GetsAt(s, s', h, x, b);
    GetCounts(s, s', h, x, b);
    GetRefs(s, s', h, x, b);
    GetUnique(s, s', h, x, b);
    GetCoherent(s, s', h, x, b);
  }

  lemma LinkedLength(t: seq<Buf>, order: seq<int>, n: int)
    requires Linked(t, order, n)
    ensures |t| == n + 1
  {
  }

  // ---------------------------------------------------------------- brelse

  /** brelse changes the count of b and the links. */
  predicate Lowered(t: seq<Buf>, t': seq<Buf>, b: int) {
    && |t'| == |t| && 0 <= b < |t|
    && forall i :: 0 <= i < |t| ==> SameBut(t'[i], if i == b then t[i].(refcnt := t[i].refcnt - 1) else t[i])
  }

  lemma ReleaseLowers(t: seq<Buf>, order: seq<int>, n: int, b: int)
    requires 0 <= b < |t| && 0 <= n < |t|
    ensures Lowered(t, ReleaseTable(t, order, n, b), b)
  {
    hide Unlinked, Fronted;
    var t1 := t[b := t[b].(refcnt := t[b].refcnt - 1)];
    if t1[b].refcnt != 0 {
      Itself(t1);
    } else {
      var t2 := Unlinked(t1, b);
      UnlinkSame(t1, b);
      FrontSame(t2, b, n);
      forall i | 0 <= i < |t| ensures SameBut(Fronted(t2, b, n)[i], t1[i]) {
        assert SameBut(t2[i], t1[i]) && SameBut(Fronted(t2, b, n)[i], t2[i]);
      }
    }
  }

  lemma ReleaseCounts(s: Sys, s': Sys, h: int, b: int)
    requires CountsOk(s) && h in s.refs && s.refs[h].b == b && Lowered(s.t, s'.t, b) && s'.refs == s.refs - {h} && s'.n == s.n
    ensures CountsOk(s')
  {
    forall c | 0 <= c < s.n ensures s'.t[c].refcnt == |Users(s'.refs, c)| {
      UsersRemove(s.refs, h, c);
      assert SameBut(s'.t[c], if c == b then s.t[c].(refcnt := s.t[c].refcnt - 1) else s.t[c]);
    }
  }

  lemma ReleaseRest(s: Sys, s': Sys, h: int, b: int)
    requires RefsOk(s) && Unique(s.t, s.n) && Coherent(s) && |s.t| == s.n + 1 && h in s.refs && Lowered(s.t, s'.t, b)
    requires s'.refs == s.refs - {h} && s'.n == s.n && s'.data == s.data && s'.disk == s.disk && s'.latest == s.latest
    ensures RefsOk(s') && Unique(s'.t, s'.n) && Coherent(s')
  {
    forall i ensures BlockOf(At(s'.t, i)) == BlockOf(At(s.t, i)) && At(s'.t, i).valid == At(s.t, i).valid && At(s'.t, i).dirty == At(s.t, i).dirty {
      if 0 <= i < |s.t| {
        assert SameBut(s'.t[i], if i == b then s.t[i].(refcnt := s.t[i].refcnt - 1) else s.t[i]);
      }
    }
    hide Lowered, SameBut;
    assert Unique(s'.t, s'.n) by {
      forall c, d | 0 <= c < d < s.n && s'.t[c].dev != 0 ensures BlockOf(s'.t[c]) != BlockOf(s'.t[d]) {
        assert BlockOf(At(s'.t, c)) == BlockOf(At(s.t, c)) && BlockOf(At(s'.t, d)) == BlockOf(At(s.t, d));
      }
    }
    forall c | 0 <= c < s.n ensures CoherentAt(s', c) {
      assert CoherentAt(s, c);
    }
    forall y: Block | y.dev != 0 && !OnDisk(s', y)
      ensures exists c :: 0 <= c < s.n && At(s'.t, c).dirty && BlockOf(At(s'.t, c)) == y
    {
      assert !OnDisk(s, y);
      var c :| 0 <= c < s.n && At(s.t, c).dirty && BlockOf(At(s.t, c)) == y;
      assert At(s'.t, c).dirty && BlockOf(At(s'.t, c)) == y;
    }
  }

  lemma FrontSorted(order: seq<int>, stamp: seq<int>, clock: int, n: int, k: int)
    requires Sorted(order, stamp, clock) && Distinct(order, n) && |stamp| == n && 0 <= k < |order|
    ensures Sorted([order[k]] + Without(order, k), PutData(stamp, order[k], clock), clock + 1)
  {
    var b, r := order[k], Without(order, k);
    WithoutDistinct(order, n, k);
    forall j | 0 <= j < |r| ensures r[j] == order[if j < k then j else j + 1] && r[j] != b {
    }
    hide Distinct, Without;
  }

  lemma ReleaseSorted(s: Sys, h: int)
    requires Sorted(s.order, s.stamp, s.clock) && Permutation(s.order, s.n) && |s.stamp| == s.n && h in s.refs && 0 <= s.refs[h].b < s.n
    ensures Sorted(DoRelease(s, h).order, DoRelease(s, h).stamp, DoRelease(s, h).clock)
  {
    hide ReleaseTable, Without, PutData, Sorted, Distinct;
    var b := s.refs[h].b;
    assert b in s.order;
    var k := Position(s.order, b);
    AllDistinct(s.order, s.n);
    if At(s.t, b).refcnt == 1 {
      FrontSorted(s.order, s.stamp, s.clock, s.n, k);
    } else {
      LaterSorted(s.order, s.stamp, s.clock);
    }
  }

  lemma LaterSorted(order: seq<int>, stamp: seq<int>, clock: int)
    requires Sorted(order, stamp, clock)
    ensures Sorted(order, stamp, clock + 1)
  {
  }

  lemma ReleaseKeepsAll(s: Sys, h: int)
    requires Inv(s) && Legal(s, Event.Release(h))
    ensures Inv(DoRelease(s, h))
  {
    hide CountsOk, RefsOk, Unique, Coherent, Sorted, Linked, ReleaseTable, ReleaseOrder, Lowered, Distinct;
    var s', b := DoRelease(s, h), s.refs[h].b;
    UserInRange(s, h);
    LinkedLength(s.t, s.order, s.n);
    assert b in s.order;
    ReleaseKeeps(s.t, s.order, s.n, Position(s.order, b));
    ReleaseLowers(s.t, s.order, s.n, b);
    ReleaseCounts(s, s', h, b);
    ReleaseRest(s, s', h, b);
    ReleaseSorted(s, h);
    StampLength(s, h);
  }

  lemma StampLength(s: Sys, h: int)
    ensures |DoRelease(s, h).stamp| == |s.stamp| && DoRelease(s, h).data == s.data
  {
    hide ReleaseTable, ReleaseOrder;
  }

  // ---------------------------------------------------------------- every run

  lemma StepKeeps(s: Sys, e: Event)
    requires Inv(s) && Legal(s, e)
    ensures Inv(Step(s, e))
  {
    hide Inv, DoGet, DoLock, DoWrite, DoPin, DoInstall, DoRelease;
    match e
    case Get(h, x) => GetKeepsAll(s, h, x);
    case Lock(h) => LockKeeps(s, h);
    case Release(h) => ReleaseKeepsAll(s, h);
    case _ => HolderKeeps(s, e);
  }

  predicate LegalRun(s: Sys, es: seq<Event>)
    decreases |es|
  {
    es == [] || (Legal(s, es[0]) && LegalRun(Step(s, es[0]), es[1..]))
  }

  function Run(s: Sys, es: seq<Event>): Sys
    decreases |es|
  {
    if es == [] then s else Run(Step(s, es[0]), es[1..])
  }

  /** In every run the list stays a cycle through all buffers in order of release, counts are exact,
      no block of a device other than 0 is cached twice, held buffers cache what was asked for, and
      recycling loses nothing that was stored. */
  lemma {:induction false} RunKeeps(s: Sys, es: seq<Event>)
    requires Inv(s) && LegalRun(s, es)
    ensures Inv(Run(s, es))
    decreases |es|
  {
    hide Inv, Step, Legal;
    if es != [] {
      StepKeeps(s, es[0]);
      RunKeeps(Step(s, es[0]), es[1..]);
    }
  }

  /** The cache after binit, over a disk. */
  function Boot(t: seq<Buf>, order: seq<int>, n: nat, disk: map<Block, Data>): Sys {
    Sys(t, order, n, seq(n, _ => Blocks.ZeroBlock()), disk, map[], seq(n, b => |order| - Position(order, b)), |order| + 1, disk)
  }

  lemma {:induction false} PositionAt(order: seq<int>, k: nat)
    requires k < |order| && forall i, j :: 0 <= i < j < |order| ==> order[i] != order[j]
    ensures Position(order, order[k]) == k
  {
    if k > 0 {
      PositionAt(order[1..], k - 1);
    }
  }

  lemma BootIsSound(t: seq<Buf>, order: seq<int>, n: nat, disk: map<Block, Data>)
    requires Permutation(order, n) && Linked(t, order, n)
    requires forall i :: 0 <= i < |t| ==> SameBut(t[i], Buf(0, 0, false, false, 0, 0, 0))
    ensures Inv(Boot(t, order, n, disk))
  {
    hide Linked, LinkedAt;
    LinkedLength(t, order, n);
    var s := Boot(t, order, n, disk);
    forall k | 0 <= k < |order| ensures Position(order, order[k]) == k {
      PositionAt(order, k);
    }
    forall b ensures Users(map[], b) == {} {
    }
    assert CountsOk(s);
    hide Permutation, Position;
    assert Coherent(s) && RefsOk(s) && Unique(s.t, s.n);
  }
}
