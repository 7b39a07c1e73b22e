/** malloc, free and morecore (umalloc.c): pointer loops over headers relinked in place,
    tied to the ordered block list of Heap. */
module Umalloc {
  import opened Heap

  const UINT_LIMIT: nat := 0x1_0000_0000
  const HEADER: nat := 8                 // sizeof(Header)
  const MIN_MORE: nat := 4096            // units morecore asks for at least

  datatype Option<T> = None | Some(value: T)

  // ---------------------------------------------------------------- the size of a request

  /** nunits, in the 32-bit arithmetic of malloc. */
  function Units(nbytes: nat): nat {
    (nbytes + HEADER - 1) % UINT_LIMIT / HEADER + 1
  }

  /** The units after the header hold the request exactly when the rounding does not wrap. */
  lemma UnitsExact(nbytes: nat)
    requires nbytes < UINT_LIMIT
    ensures nbytes <= (Units(nbytes) - 1) * HEADER <==> nbytes <= UINT_LIMIT - HEADER
  {
    if nbytes <= UINT_LIMIT - HEADER {
      assert Units(nbytes) == (nbytes + 7) / 8 + 1;
    } else {
      assert (nbytes + 7) % UINT_LIMIT == nbytes + 7 - UINT_LIMIT;
      assert Units(nbytes) == 1;
    }
  }

  /** The units morecore asks for. */
  function Chunk(nu: nat): nat {
    if nu < MIN_MORE then MIN_MORE else nu
  }

  /** nu * sizeof(Header) as the int that sbrk gets: how far the break moves, down if negative. */
  function Moves(nu: nat): int {
    var bytes := nu * HEADER % UINT_LIMIT;
    if bytes < UINT_LIMIT / 2 then bytes else bytes - UINT_LIMIT
  }

  /** The memory that sbrk adds to the process is the chunk morecore puts in the list. */
  predicate Obtained(nu: nat) {
    Moves(nu) == nu * HEADER
  }

  /** A request that is not met from the list gets a block that holds it, in memory the process has,
      exactly up to 2^31 - 16 bytes: beyond that sbrk gets a negative number, or the rounding wraps. */
  lemma RequestExact(nbytes: nat)
    requires nbytes < UINT_LIMIT
    ensures Obtained(Chunk(Units(nbytes))) && nbytes <= (Units(nbytes) - 1) * HEADER <==>
      nbytes <= UINT_LIMIT / 2 - 2 * HEADER
  {
    UnitsExact(nbytes);
    if nbytes <= UINT_LIMIT - HEADER {
      assert Units(nbytes) == (nbytes + 7) / 8 + 1;
    }
  }

  // ---------------------------------------------------------------- the headers in memory

  function After(ns: seq<Block>, i: nat): nat {
    if i + 1 < |ns| then i + 1 else 0
  }

  /** The headers of the listed blocks form the cycle ns. */
  predicate Linked(ptr: map<int, int>, size: map<int, int>, ns: seq<Block>) {
    forall i :: 0 <= i < |ns| ==> HeaderOk(ptr, size, ns[i], ns[After(ns, i)].at)
  }

  function At(m: map<int, int>, x: int): int {
    if x in m then m[x] else 0
  }

  predicate HeaderOk(ptr: map<int, int>, size: map<int, int>, b: Block, next: int) {
    At(size, b.at) == b.len && At(ptr, b.at) == next
  }

  // Where the (grown) freed block links to.
  function Behind(ns: seq<Block>, k: nat, b: Block): int {
    if !(1 <= k <= |ns|) then 0
    else if JoinsRight(ns, k, b) then ns[After(ns, k)].at
    else ns[After(ns, k - 1)].at
  }

  // The headers free(b) leaves when p is the k-1st block.
  ghost predicate Relinked(ptr: map<int, int>, size: map<int, int>, ns: seq<Block>, k: nat, b: Block,
                           ptr': map<int, int>, size': map<int, int>)
  {
    1 <= k <= |ns| &&
    var p, grown := ns[k - 1], Grown(ns, k, b);
    && (forall x :: x != p.at && x != b.at ==> At(ptr', x) == At(ptr, x) && At(size', x) == At(size, x))
    && (if JoinsLeft(ns, k, b) then HeaderOk(ptr', size', Block(p.at, p.len + grown.len), Behind(ns, k, b))
        else HeaderOk(ptr', size', p, b.at) && HeaderOk(ptr', size', grown, Behind(ns, k, b)))
  }

  // Where free(b) changes the list, and by how much the blocks behind it move up.
  function Spot(ns: seq<Block>, k: nat, b: Block): int {
    if JoinsLeft(ns, k, b) then k - 1 else k
  }

  function Shift(ns: seq<Block>, k: nat, b: Block): int {
    k + (if JoinsRight(ns, k, b) then 1 else 0) - Spot(ns, k, b) - 1
  }

  lemma InsertAt(ns: seq<Block>, k: nat, b: Block)
    requires 1 <= k <= |ns|
    ensures var t, m, d := Insert(ns, k, b), Spot(ns, k, b), Shift(ns, k, b);
      && |t| == |ns| - d && 0 <= m < |t|
      && (forall i :: 0 <= i < m ==> t[i] == ns[i])
      && t[m].at == (if JoinsLeft(ns, k, b) then ns[k - 1].at else b.at)
      && t[m].len == (if JoinsLeft(ns, k, b) then ns[k - 1].len else 0) + Grown(ns, k, b).len
      && (forall i :: m < i < |t| ==> t[i] == ns[i + d])
  {
    var g, back := Grown(ns, k, b), Rest(ns, k, b);
    if JoinsLeft(ns, k, b) {
      assert Insert(ns, k, b) == ns[..k - 1] + [Block(ns[k - 1].at, ns[k - 1].len + g.len)] + back;
    } else {
      assert Insert(ns, k, b) == ns[..k] + [g] + back;
    }
    hide Insert, Grown;
  }

  predicate Distinct(ns: seq<Block>) {
    forall i, j :: 0 <= i < j < |ns| ==> ns[i].at != ns[j].at
  }

  // What the address comparisons of free amount to.
  lemma Comparisons(ns: seq<Block>, k: nat, b: Block)
    requires Ordered(ns) && Apart(ns, b) && SplitsAt(ns, b.at, k)
    ensures 1 <= k <= |ns| && Distinct(ns) && (forall i :: 0 <= i < |ns| ==> ns[i].at != b.at)
    ensures JoinsLeft(ns, k, b) <==> ns[k - 1].at + ns[k - 1].len == b.at
    ensures JoinsLeft(ns, k, b) ==> k >= 2
    ensures JoinsRight(ns, k, b) <==> b.at + b.len == ns[After(ns, k - 1)].at
    ensures After(ns, k - 1) == if k < |ns| then k else 0
  {
  }

  lemma HeaderBefore(ptr: map<int, int>, size: map<int, int>, ns: seq<Block>, k: nat, b: Block,
                     ptr': map<int, int>, size': map<int, int>, i: nat)
    requires Ordered(ns) && Apart(ns, b) && SplitsAt(ns, b.at, k) && i < Spot(ns, k, b)
    requires Linked(ptr, size, ns) && Relinked(ptr, size, ns, k, b, ptr', size')
    ensures var t := Insert(ns, k, b); i < |t| && HeaderOk(ptr', size', t[i], t[After(t, i)].at)
  {
    hide Ordered, Apart, SplitsAt, Spaced, Insert, Rest, JoinsRight, JoinsLeft, Distinct;
    InsertAt(ns, k, b);
    Comparisons(ns, k, b);
    assert HeaderOk(ptr, size, ns[i], ns[After(ns, i)].at);
    if i != k - 1 {
      DistinctAt(ns, i, k - 1);
    }
  }

  lemma HeaderSpot(ptr: map<int, int>, size: map<int, int>, ns: seq<Block>, k: nat, b: Block,
                   ptr': map<int, int>, size': map<int, int>)
    requires Ordered(ns) && Apart(ns, b) && SplitsAt(ns, b.at, k)
    requires Linked(ptr, size, ns) && Relinked(ptr, size, ns, k, b, ptr', size')
    ensures var t, m := Insert(ns, k, b), Spot(ns, k, b); 0 <= m < |t| && HeaderOk(ptr', size', t[m], t[After(t, m)].at)
  {
    hide Ordered, Apart, SplitsAt, Spaced, Insert, Rest, Distinct;
    InsertAt(ns, k, b);
    Comparisons(ns, k, b);
    var q := After(ns, k - 1);
    assert HeaderOk(ptr, size, ns[q], ns[After(ns, q)].at);
    assert HeaderOk(ptr, size, ns[k - 1], ns[After(ns, k - 1)].at);
  }

  // One block of the list that free leaves, away from the spot it changes.
  lemma InsertElem(ns: seq<Block>, k: nat, b: Block, i: nat)
    requires 1 <= k <= |ns| && i < |Insert(ns, k, b)|
    ensures |Insert(ns, k, b)| == |ns| - Shift(ns, k, b)
    ensures i < Spot(ns, k, b) ==> Insert(ns, k, b)[i] == ns[i]
    ensures i > Spot(ns, k, b) ==> i + Shift(ns, k, b) < |ns| && Insert(ns, k, b)[i] == ns[i + Shift(ns, k, b)]
  {
    hide Insert, Grown, Rest, JoinsLeft, JoinsRight;
    InsertAt(ns, k, b);
  }

  lemma DistinctAt(ns: seq<Block>, i: nat, j: nat)
    requires Distinct(ns) && i < |ns| && j < |ns| && i != j
    ensures ns[i].at != ns[j].at
  {
  }

  lemma ShiftedNext(ns: seq<Block>, k: nat, b: Block, i: nat) returns (j: nat)
    requires Ordered(ns) && Apart(ns, b) && SplitsAt(ns, b.at, k)
    requires Spot(ns, k, b) < i < |Insert(ns, k, b)|
    ensures k <= j < |ns| && ns[j].at != b.at && ns[j].at != ns[k - 1].at
    ensures var t := Insert(ns, k, b); t[i] == ns[j] && t[After(t, i)].at == ns[After(ns, j)].at
  {
    hide Ordered, Apart, SplitsAt, Spaced, Insert, Grown, Rest, Distinct, JoinsLeft, JoinsRight;
    Comparisons(ns, k, b);
    InsertElem(ns, k, b, i);
    assert i + Shift(ns, k, b) >= k;
    j := i + Shift(ns, k, b);
    InsertElem(ns, k, b, 0);
    DistinctAt(ns, k - 1, j);
    if i + 1 < |Insert(ns, k, b)| {
      InsertElem(ns, k, b, i + 1);
    }
  }

  lemma HeaderBehind(ptr: map<int, int>, size: map<int, int>, ns: seq<Block>, k: nat, b: Block,
                     ptr': map<int, int>, size': map<int, int>, i: nat)
    requires Ordered(ns) && Apart(ns, b) && SplitsAt(ns, b.at, k)
    requires Linked(ptr, size, ns) && Relinked(ptr, size, ns, k, b, ptr', size')
    requires Spot(ns, k, b) < i < |Insert(ns, k, b)|
    ensures var t := Insert(ns, k, b); HeaderOk(ptr', size', t[i], t[After(t, i)].at)
  {
    var j := ShiftedNext(ns, k, b, i);
    hide Ordered, Apart, SplitsAt, Insert, Spot, Grown, Behind;
    assert HeaderOk(ptr, size, ns[j], ns[After(ns, j)].at);
  }

  lemma RelinkedIsInsert(ptr: map<int, int>, size: map<int, int>, ns: seq<Block>, k: nat, b: Block,
                         ptr': map<int, int>, size': map<int, int>)
    requires Ordered(ns) && Apart(ns, b) && SplitsAt(ns, b.at, k)
    requires Linked(ptr, size, ns) && Relinked(ptr, size, ns, k, b, ptr', size')
    ensures Linked(ptr', size', Insert(ns, k, b))
  {
    var t, m := Insert(ns, k, b), Spot(ns, k, b);
    hide Ordered, Apart, SplitsAt, Insert, Spot, HeaderOk, Relinked;
    forall i | 0 <= i < |t|
      ensures HeaderOk(ptr', size', t[i], t[After(t, i)].at)
    {
      if i < m {
        HeaderBefore(ptr, size, ns, k, b, ptr', size', i);
      } else if i > m {
        HeaderBehind(ptr, size, ns, k, b, ptr', size', i);
      } else {
        HeaderSpot(ptr, size, ns, k, b, ptr', size');
      }
    }
  }

  lemma OrderedDistinct(ns: seq<Block>)
    requires Ordered(ns)
    ensures Distinct(ns)
  {
    forall i, j | 0 <= i < j < |ns| ensures ns[i].at != ns[j].at {
      assert ns[i].len >= 0 && ns[i].at + ns[i].len < ns[j].at;
    }
  }

  // Block i of the list without block j, and its successor.
  lemma TakenNext(ns: seq<Block>, j: nat, i: nat) returns (i': nat)
    requires Ordered(ns) && 1 <= j < |ns| && i < |ns| - 1
    ensures var t := Take(ns, j, ns[j].len);
      && |t| == |ns| - 1 && i' < |ns| && t[i] == ns[i']
      && t[After(t, i)].at == (if i' == j - 1 then ns[After(ns, j)].at else ns[After(ns, i')].at)
      && (i' != j - 1 ==> ns[i'].at != ns[j - 1].at)
  {
    hide Ordered, Spaced, Distinct;
    OrderedDistinct(ns);
    assert |Take(ns, j, ns[j].len)| == |ns| - 1;
    i' := if i < j then i else i + 1;
    if i' != j - 1 {
      DistinctAt(ns, i', j - 1);
    }
    var t := Take(ns, j, ns[j].len);
    assert t == ns[..j] + ns[j + 1..];
    assert t[0] == ns[0];
  }

  lemma TakeAll(ptr: map<int, int>, size: map<int, int>, ns: seq<Block>, j: nat, n: nat)
    requires Ordered(ns) && Linked(ptr, size, ns) && 1 <= j < |ns| && n == ns[j].len
    ensures Linked(ptr[ns[j - 1].at := ns[After(ns, j)].at], size, Take(ns, j, n))
  {
    var t, ptr' := Take(ns, j, n), ptr[ns[j - 1].at := ns[After(ns, j)].at];
    forall i | 0 <= i < |t| ensures HeaderOk(ptr', size, t[i], t[After(t, i)].at) {
      var i' := TakenNext(ns, j, i);
      hide Ordered, Take;
      assert HeaderOk(ptr, size, ns[i'], ns[After(ns, i')].at);
    }
  }

  lemma TakeTail(ptr: map<int, int>, size: map<int, int>, ns: seq<Block>, j: nat, n: nat)
    requires Ordered(ns) && Linked(ptr, size, ns) && 1 <= j < |ns| && 1 <= n < ns[j].len
    ensures var b := ns[j];
      Linked(ptr, size[b.at := b.len - n][b.at + b.len - n := n], Take(ns, j, n))
  {
    var t, b := Take(ns, j, n), ns[j];
    var size' := size[b.at := b.len - n][b.at + b.len - n := n];
    forall i | 0 <= i < |ns| ensures ns[i].at != b.at + b.len - n && (i != j ==> ns[i].at != b.at) {
    }
    hide Ordered;
    forall i | 0 <= i < |t| ensures HeaderOk(ptr, size', t[i], t[After(t, i)].at) {
      assert HeaderOk(ptr, size, ns[i], ns[After(ns, i)].at);
      assert t[After(t, i)].at == ns[After(ns, i)].at;
    }
  }

  // ---------------------------------------------------------------- next fit

  /** The first block with room for n units among `steps` blocks from block j on, in cyclic order. */
  function Scan(ns: seq<Block>, j: nat, steps: nat, n: nat): Option<nat>
    decreases steps
  {
    if steps == 0 || j >= |ns| then None
    else if ns[j].len >= n then Some(j)
    else Scan(ns, After(ns, j), steps - 1, n)
  }

  /** The block malloc takes: one lap, starting behind block f. */
  function NextFit(ns: seq<Block>, f: nat, n: nat): Option<nat> {
    Scan(ns, After(ns, f), |ns|, n)
  }

  /** Steps from block j to block t along the cycle. */
  function Dist(ns: seq<Block>, j: nat, t: nat): int {
    if j <= t then t - j else |ns| - j + t
  }

  lemma {:induction false} ScanMisses(ns: seq<Block>, j: nat, steps: nat, n: nat, t: nat)
    requires j < |ns| && t < |ns| && Dist(ns, j, t) < steps && ns[t].len >= n
    ensures Scan(ns, j, steps, n).Some?
    decreases steps
  {
    if ns[j].len < n {
      ScanMisses(ns, After(ns, j), steps - 1, n, t);
    }
  }

  lemma {:induction false} ScanHit(ns: seq<Block>, j: nat, steps: nat, n: nat)
    requires j < |ns| && Scan(ns, j, steps, n).Some?
    ensures Scan(ns, j, steps, n).value < |ns| && ns[Scan(ns, j, steps, n).value].len >= n
    decreases steps
  {
    if ns[j].len < n {
      ScanHit(ns, After(ns, j), steps - 1, n);
    }
  }

  /** One lap finds room exactly when some block has it. */
  lemma NextFitExact(ns: seq<Block>, f: nat, n: nat)
    requires f < |ns|
    ensures NextFit(ns, f, n).Some? <==> exists t :: 0 <= t < |ns| && ns[t].len >= n
  {
    if NextFit(ns, f, n).Some? {
      ScanHit(ns, After(ns, f), |ns|, n);
    }
    if t :| 0 <= t < |ns| && ns[t].len >= n {
      ScanMisses(ns, After(ns, f), |ns|, n, t);
    }
  }

  // ---------------------------------------------------------------- who has which unit

  predicate AllocUnit(alloc: map<int, int>, u: int) {
    exists a :: a in alloc && Covers(Block(a, alloc[a]), u)
  }

  /** Every unit obtained from sbrk is in exactly one free or one allocated block. */
  ghost predicate Partition(ns: seq<Block>, alloc: map<int, int>, owned: set<int>) {
    && Ordered(ns)
    && (forall a :: a in alloc ==> Apart(ns, Block(a, alloc[a])))
    && (forall a, b :: a in alloc && b in alloc && a < b ==> a + alloc[a] <= b)
    && (forall u :: u in owned <==> FreeUnit(ns, u) || AllocUnit(alloc, u))
  }

  lemma ApartInsert(ns: seq<Block>, k: nat, b: Block, c: Block)
    requires Ordered(ns) && Apart(ns, b) && SplitsAt(ns, b.at, k) && Apart(ns, c)
    requires b.at + b.len <= c.at || c.at + c.len <= b.at
    ensures Apart(Insert(ns, k, b), c)
  {
    InsertOrdered(ns, k, b);
    InsertAt(ns, k, b);
    Comparisons(ns, k, b);
    hide Insert, Ordered;
  }

  lemma AllocUnitRemove(alloc: map<int, int>, a: int, u: int)
    requires a in alloc
    ensures AllocUnit(alloc, u) <==> AllocUnit(alloc - {a}, u) || Covers(Block(a, alloc[a]), u)
  {
    if AllocUnit(alloc, u) {
      var c :| c in alloc && Covers(Block(c, alloc[c]), u);
      assert c != a ==> c in alloc - {a} && (alloc - {a})[c] == alloc[c];
    }
    if AllocUnit(alloc - {a}, u) {
      var c :| c in alloc - {a} && Covers(Block(c, (alloc - {a})[c]), u);
      assert c in alloc && Covers(Block(c, alloc[c]), u);
    }
  }

  lemma AllocUnitAdd(alloc: map<int, int>, a: int, n: nat, u: int)
    requires a !in alloc
    ensures AllocUnit(alloc[a := n], u) <==> AllocUnit(alloc, u) || Covers(Block(a, n), u)
  {
    assert alloc[a := n] - {a} == alloc;
    AllocUnitRemove(alloc[a := n], a, u);
  }

  lemma FreeKeeps(ns: seq<Block>, alloc: map<int, int>, owned: set<int>, k: nat, bp: int)
    requires Partition(ns, alloc, owned) && bp in alloc && SplitsAt(ns, bp, k)
    ensures Partition(Insert(ns, k, Block(bp, alloc[bp])), alloc - {bp}, owned)
  {
    var b := Block(bp, alloc[bp]);
    InsertOrdered(ns, k, b);
    forall a | a in alloc - {bp} ensures Apart(Insert(ns, k, b), Block(a, alloc[a])) {
      assert a in alloc && a != bp;
      if a < bp {
        assert a + alloc[a] <= bp;
      } else {
        assert bp + alloc[bp] <= a;
      }
      ApartInsert(ns, k, b, Block(a, alloc[a]));
    }
    forall u ensures u in owned <==> FreeUnit(Insert(ns, k, b), u) || AllocUnit(alloc - {bp}, u) {
      InsertUnits(ns, k, b, u);
      AllocUnitRemove(alloc, bp, u);
    }
  }

  lemma TakeKeeps(ns: seq<Block>, alloc: map<int, int>, owned: set<int>, j: nat, n: nat)
    requires Partition(ns, alloc, owned) && 1 <= j < |ns| && 1 <= n <= ns[j].len
    ensures var a := ns[j].at + ns[j].len - n;
      a !in alloc && Partition(Take(ns, j, n), alloc[a := n], owned)
  {
    var a, t := ns[j].at + ns[j].len - n, Take(ns, j, n);
    TakeOrdered(ns, j, n);
    forall c | c in alloc ensures c != a && (c + alloc[c] <= ns[j].at || ns[j].at + ns[j].len <= c) {
      assert Apart(ns, Block(c, alloc[c]));
    }
    TakenApart(ns, j, n);
    forall c | c in alloc ensures Apart(t, Block(c, alloc[c])) {
      assert Apart(ns, Block(c, alloc[c]));
      StillApart(ns, j, n, Block(c, alloc[c]));
    }
    forall u ensures u in owned <==> FreeUnit(t, u) || AllocUnit(alloc[a := n], u) {
      TakeUnits(ns, j, n, u);
      AllocUnitAdd(alloc, a, n, u);
      assert Covers(Block(a, n), u) ==> FreeUnit(ns, u) by {
        assert Covers(Block(a, n), u) ==> Covers(ns[j], u);
      }
    }
  }

  lemma TakenApart(ns: seq<Block>, j: nat, n: nat)
    requires Ordered(ns) && 1 <= j < |ns| && 1 <= n <= ns[j].len
    ensures Apart(Take(ns, j, n), Block(ns[j].at + ns[j].len - n, n))
  {
  }

  lemma StillApart(ns: seq<Block>, j: nat, n: nat, b: Block)
    requires Ordered(ns) && 1 <= j < |ns| && 1 <= n <= ns[j].len && Apart(ns, b)
    ensures Apart(Take(ns, j, n), b)
  {
  }

  /** The units [at, at + n). */
  function Range(at: int, n: nat): (r: set<int>)
    ensures forall u :: u in r <==> at <= u < at + n
  {
    if n == 0 then {} else Range(at, n - 1) + {at + n - 1}
  }

  /** A chunk fresh from sbrk counts as allocated until morecore frees it. */
  lemma ChunkKeeps(ns: seq<Block>, alloc: map<int, int>, owned: set<int>, at: int, n: nat)
    requires Partition(ns, alloc, owned) && n >= 1 && ns[0].at < at
    requires forall u :: u in owned ==> u < at
    ensures at !in alloc && Partition(ns, alloc[at := n], owned + Range(at, n))
  {
    forall a | a in alloc ensures a + alloc[a] <= at {
      assert Apart(ns, Block(a, alloc[a]));
      assert Covers(Block(a, alloc[a]), a + alloc[a] - 1);
      assert AllocUnit(alloc, a + alloc[a] - 1);
    }
    forall i | 0 <= i < |ns| ensures ns[i].at + ns[i].len <= at {
      if i >= 1 {
        assert Covers(ns[i], ns[i].at + ns[i].len - 1);
        assert FreeUnit(ns, ns[i].at + ns[i].len - 1);
      }
    }
    forall u ensures u in owned + Range(at, n) <==> FreeUnit(ns, u) || AllocUnit(alloc[at := n], u) {
      AllocUnitAdd(alloc, at, n, u);
    }
  }

  // ---------------------------------------------------------------- counting the units

  lemma {:induction false} RangeSize(at: int, n: nat)
    ensures |Range(at, n)| == n
  {
    if n > 0 {
      RangeSize(at, n - 1);
    }
  }

  function FreeTotal(ns: seq<Block>): int {
    if ns == [] then 0 else FreeTotal(ns[..|ns| - 1]) + ns[|ns| - 1].len
  }

  function BlockUnits(b: Block): set<int> {
    if b.len >= 0 then Range(b.at, b.len) else {}
  }

  function FreeSet(ns: seq<Block>): set<int> {
    if ns == [] then {} else FreeSet(ns[..|ns| - 1]) + BlockUnits(ns[|ns| - 1])
  }

  lemma {:induction false} FreeSetIs(ns: seq<Block>, u: int)
    ensures u in FreeSet(ns) <==> FreeUnit(ns, u)
    decreases |ns|
  {
    hide FreeUnit, BlockUnits;
    if ns == [] {
      NoUnit(u);
    } else {
      var front, b := ns[..|ns| - 1], ns[|ns| - 1];
      FreeSetIs(front, u);
      assert ns == front + [b];
      FreeUnitConcat(front, [b], u);
      FreeUnitOne(b, u);
      assert u in BlockUnits(b) <==> Covers(b, u) by {
        BlockUnit(b, u);
      }
    }
  }

  lemma NoUnit(u: int)
    ensures !FreeUnit([], u)
  {
  }

  lemma BlockUnit(b: Block, u: int)
    ensures u in BlockUnits(b) <==> Covers(b, u)
    ensures b.len >= 0 ==> |BlockUnits(b)| == b.len
  {
    if b.len >= 0 {
      RangeSize(b.at, b.len);
    }
  }

  lemma SetSum(a: set<int>, b: set<int>, c: set<int>)
    requires forall u :: u in c <==> u in a || u in b
    requires forall u :: !(u in a && u in b)
    ensures |c| == |a| + |b|
  {
    forall u | u in a ensures u !in b {
    }
    assert a !! b;
    forall u | u in c ensures u in a + b {
    }
    forall u | u in a + b ensures u in c {
    }
    assert c == a + b;
  }

  lemma {:induction false} FreeSetSize(ns: seq<Block>)
    requires Spaced(ns) && forall i :: 0 <= i < |ns| ==> ns[i].len >= 0
    ensures |FreeSet(ns)| == FreeTotal(ns)
    decreases |ns|
  {
    if ns != [] {
      var front, b := ns[..|ns| - 1], ns[|ns| - 1];
      FreeSetSize(front);
      forall u ensures !(u in FreeSet(front) && u in BlockUnits(b)) {
        BeforeLast(ns, u);
      }
      hide FreeSet, FreeTotal, BlockUnits, Spaced;
      SetSum(FreeSet(front), BlockUnits(b), FreeSet(front) + BlockUnits(b));
      FreeSetLast(ns);
      BlockUnit(b, 0);
    }
  }

  lemma FreeSetLast(ns: seq<Block>)
    requires ns != []
    ensures FreeSet(ns) == FreeSet(ns[..|ns| - 1]) + BlockUnits(ns[|ns| - 1])
    ensures FreeTotal(ns) == FreeTotal(ns[..|ns| - 1]) + ns[|ns| - 1].len
  {
  }

  lemma BeforeLast(ns: seq<Block>, u: int)
    requires Spaced(ns) && ns != []
    ensures !(u in FreeSet(ns[..|ns| - 1]) && u in BlockUnits(ns[|ns| - 1]))
  {
    hide FreeSet, BlockUnits;
    var front, b := ns[..|ns| - 1], ns[|ns| - 1];
    FreeSetIs(front, u);
    BlockUnit(b, u);
    forall i | 0 <= i < |front| && Covers(front[i], u) ensures !Covers(b, u) {
      assert ns[i].at + ns[i].len < b.at;
    }
  }

  ghost function Pick<T>(s: set<T>): (x: T)
    requires s != {}
    ensures x in s
  {
    var x :| x in s;
    x
  }

  /** The lengths of the allocated blocks at these addresses. */
  ghost function Lengths(alloc: map<int, int>, at: set<int>): int
    requires at <= alloc.Keys
  {
    if at == {} then 0 else var a := Pick(at); Lengths(alloc, at - {a}) + alloc[a]
  }

  ghost function AllocTotal(alloc: map<int, int>): int {
    Lengths(alloc, alloc.Keys)
  }

  predicate UnitOf(alloc: map<int, int>, at: set<int>, u: int) {
    exists a :: a in at && a in alloc && Covers(Block(a, alloc[a]), u)
  }

  predicate Separate(alloc: map<int, int>) {
    && (forall a :: a in alloc ==> alloc[a] >= 0)
    && (forall a, b :: a in alloc && b in alloc && a < b ==> a + alloc[a] <= b)
  }

  lemma UnitOfMore(alloc: map<int, int>, at: set<int>, a: int, u: int)
    requires a in at && a in alloc
    ensures UnitOf(alloc, at, u) <==> UnitOf(alloc, at - {a}, u) || Covers(Block(a, alloc[a]), u)
  {
  }

  lemma NotTwice(alloc: map<int, int>, at: set<int>, a: int, u: int)
    requires Separate(alloc) && a in alloc && UnitOf(alloc, at - {a}, u)
    ensures !Covers(Block(a, alloc[a]), u)
  {
  }

  lemma {:induction false} AllocSetSize(alloc: map<int, int>, at: set<int>) returns (s: set<int>)
    requires Separate(alloc) && at <= alloc.Keys
    ensures (forall u :: u in s <==> UnitOf(alloc, at, u)) && |s| == Lengths(alloc, at)
    decreases |at|
  {
    hide UnitOf, Separate, BlockUnits;
    if at == {} {
      s := {};
      forall u ensures !UnitOf(alloc, {}, u) {
        NoUnitOf(alloc, u);
      }
    } else {
      var a := Pick(at);
      var b := Block(a, alloc[a]);
      var rest := AllocSetSize(alloc, at - {a});
      s := rest + BlockUnits(b);
      forall u ensures (u in s <==> UnitOf(alloc, at, u)) && !(u in rest && u in BlockUnits(b)) {
        UnitOfMore(alloc, at, a, u);
        BlockUnit(b, u);
        if UnitOf(alloc, at - {a}, u) {
          NotTwice(alloc, at, a, u);
        }
      }
      SetSum(rest, BlockUnits(b), s);
      SeparateLength(alloc, a);
      BlockUnit(b, 0);
    }
  }

  lemma NoUnitOf(alloc: map<int, int>, u: int)
    ensures !UnitOf(alloc, {}, u)
  {
  }

  lemma SeparateLength(alloc: map<int, int>, a: int)
    requires Separate(alloc) && a in alloc
    ensures alloc[a] >= 0
  {
  }

  lemma NotBoth(ns: seq<Block>, alloc: map<int, int>, owned: set<int>, u: int)
    requires Partition(ns, alloc, owned)
    ensures !(FreeUnit(ns, u) && AllocUnit(alloc, u))
  {
    forall a, i | a in alloc && 0 <= i < |ns| && Covers(ns[i], u) ensures !Covers(Block(a, alloc[a]), u) {
      assert Apart(ns, Block(a, alloc[a]));
    }
  }

  lemma PartitionFacts(ns: seq<Block>, alloc: map<int, int>, owned: set<int>)
    requires Partition(ns, alloc, owned)
    ensures Spaced(ns) && (forall i :: 0 <= i < |ns| ==> ns[i].len >= 0) && Separate(alloc)
    ensures forall u :: u in owned <==> FreeUnit(ns, u) || UnitOf(alloc, alloc.Keys, u)
  {
    hide Spaced, FreeUnit;
    forall a | a in alloc ensures alloc[a] >= 0 {
      assert Apart(ns, Block(a, alloc[a]));
    }
    forall u ensures AllocUnit(alloc, u) <==> UnitOf(alloc, alloc.Keys, u) {
    }
  }

  /** Free plus allocated units are the units obtained from sbrk, and no unit is both. */
  lemma UnitsAddUp(ns: seq<Block>, alloc: map<int, int>, owned: set<int>)
    requires Partition(ns, alloc, owned)
    ensures FreeTotal(ns) + AllocTotal(alloc) == |owned|
    ensures forall u :: !(FreeUnit(ns, u) && AllocUnit(alloc, u))
  {
    hide FreeTotal, FreeSet, Lengths, Partition, Spaced, Separate, UnitOf, FreeUnit, AllocUnit;
    PartitionFacts(ns, alloc, owned);
    FreeSetSize(ns);
    var s := AllocSetSize(alloc, alloc.Keys);
    forall u ensures !(FreeUnit(ns, u) && AllocUnit(alloc, u)) {
      NotBoth(ns, alloc, owned, u);
    }
    forall u ensures u in FreeSet(ns) <==> FreeUnit(ns, u) {
      FreeSetIs(ns, u);
    }
    forall u ensures UnitOf(alloc, alloc.Keys, u) <==> AllocUnit(alloc, u) {
      SameUnits(alloc, u);
    }
    SetSum(FreeSet(ns), s, owned);
  }

  lemma SameUnits(alloc: map<int, int>, u: int)
    ensures UnitOf(alloc, alloc.Keys, u) <==> AllocUnit(alloc, u)
  {
  }
}
