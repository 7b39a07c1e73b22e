/** The free list of the K&R allocator (umalloc.c) as an ordered sequence of blocks:
    what inserting and taking blocks does to it. Addresses count headers of 8 bytes. */
module Heap {

  datatype Block = Block(at: int, len: int)

  /** The cycle cut open at `base`: ascending, base first with length 0, no two blocks
      overlapping or touching. */
  predicate Ordered(ns: seq<Block>) {
    && |ns| >= 1 && ns[0].len == 0
    && (forall i :: 1 <= i < |ns| ==> ns[i].len >= 1)
    && Spaced(ns)
  }

  predicate Spaced(ns: seq<Block>) {
    forall i, j :: 0 <= i < j < |ns| ==> ns[i].at + ns[i].len < ns[j].at
  }

  predicate Covers(b: Block, u: int) {
    b.at <= u < b.at + b.len
  }

  predicate FreeUnit(ns: seq<Block>, u: int) {
    exists i :: 0 <= i < |ns| && Covers(ns[i], u)
  }

  /** b lies above base and overlaps no block of the list. */
  predicate Apart(ns: seq<Block>, b: Block) {
    && b.len >= 1
    && |ns| >= 1 && ns[0].at < b.at
    && forall i :: 0 <= i < |ns| ==> b.at + b.len <= ns[i].at || ns[i].at + ns[i].len <= b.at
  }

  /** The first k blocks lie below address a, the others above. */
  predicate SplitsAt(ns: seq<Block>, a: int, k: nat) {
    && 1 <= k <= |ns|
    && (forall i :: 0 <= i < k ==> ns[i].at < a)
    && (forall i :: k <= i < |ns| ==> a < ns[i].at)
  }

  predicate JoinsRight(ns: seq<Block>, k: nat, b: Block) {
    k < |ns| && b.at + b.len == ns[k].at
  }

  predicate JoinsLeft(ns: seq<Block>, k: nat, b: Block) {
    1 <= k <= |ns| && ns[k - 1].at + ns[k - 1].len == b.at
  }

  /** b, together with the block after it if the two touch. */
  function Grown(ns: seq<Block>, k: nat, b: Block): Block {
    if JoinsRight(ns, k, b) then Block(b.at, b.len + ns[k].len) else b
  }

  function Rest(ns: seq<Block>, k: nat, b: Block): seq<Block>
    requires k <= |ns|
  {
    if JoinsRight(ns, k, b) then ns[k + 1..] else ns[k..]
  }

  /** The list after free(b), coalesced on both sides. */
  function Insert(ns: seq<Block>, k: nat, b: Block): seq<Block> {
    var g := Grown(ns, k, b);
    if !(1 <= k <= |ns|) then ns
    else if JoinsLeft(ns, k, b) then ns[..k - 1] + [Block(ns[k - 1].at, ns[k - 1].len + g.len)] + Rest(ns, k, b)
    else ns[..k] + [g] + Rest(ns, k, b)
  }

  /** The list after malloc took n units from the end of block j. */
  function Take(ns: seq<Block>, j: nat, n: int): seq<Block> {
    if !(j < |ns|) then ns
    else if ns[j].len == n then ns[..j] + ns[j + 1..] else ns[j := Block(ns[j].at, ns[j].len - n)]
  }

  lemma SpacedConcat(a: seq<Block>, b: seq<Block>)
    requires Spaced(a) && Spaced(b)
    requires forall i, j :: 0 <= i < |a| && 0 <= j < |b| ==> a[i].at + a[i].len < b[j].at
    ensures Spaced(a + b)
  {
  }

  lemma FreeUnitConcat(a: seq<Block>, b: seq<Block>, u: int)
    ensures FreeUnit(a + b, u) <==> FreeUnit(a, u) || FreeUnit(b, u)
  {
    if FreeUnit(a, u) {
      var i :| 0 <= i < |a| && Covers(a[i], u);
      assert (a + b)[i] == a[i];
    }
    if FreeUnit(b, u) {
      var i :| 0 <= i < |b| && Covers(b[i], u);
      assert (a + b)[|a| + i] == b[i];
    }
  }

  lemma FreeUnitOne(b: Block, u: int)
    ensures FreeUnit([b], u) <==> Covers(b, u)
  {
    assert [b][0] == b;
  }

  // Cutting the list around block k.
  lemma FreeUnitSplit(ns: seq<Block>, k: nat, u: int)
    requires k <= |ns|
    ensures FreeUnit(ns, u) <==> FreeUnit(ns[..k], u) || FreeUnit(ns[k..], u)
    ensures k < |ns| ==> (FreeUnit(ns[k..], u) <==> Covers(ns[k], u) || FreeUnit(ns[k + 1..], u))
  {
    assert ns == ns[..k] + ns[k..];
    FreeUnitConcat(ns[..k], ns[k..], u);
    if k < |ns| {
      assert ns[k..] == [ns[k]] + ns[k + 1..];
      FreeUnitConcat([ns[k]], ns[k + 1..], u);
      FreeUnitOne(ns[k], u);
    }
  }

  // A block spliced between a front and a back part of the list.
  lemma SplicedSpaced(front: seq<Block>, m: Block, back: seq<Block>)
    requires Spaced(front) && Spaced(back)
    requires forall i :: 0 <= i < |front| ==> front[i].at + front[i].len < m.at
    requires forall j :: 0 <= j < |back| ==> m.at + m.len < back[j].at
    requires m.len >= 0
    ensures Spaced(front + [m] + back)
  {
    SpacedConcat(front, [m]);
    forall i, j | 0 <= i < |front + [m]| && 0 <= j < |back|
      ensures (front + [m])[i].at + (front + [m])[i].len < back[j].at
    {
    }
    SpacedConcat(front + [m], back);
  }

  lemma BackSpaced(ns: seq<Block>, k: nat, b: Block)
    requires Ordered(ns) && Apart(ns, b) && SplitsAt(ns, b.at, k)
    ensures Spaced(Rest(ns, k, b))
    ensures forall j :: 0 <= j < |Rest(ns, k, b)| ==> Grown(ns, k, b).at + Grown(ns, k, b).len < Rest(ns, k, b)[j].at
  {
    assert forall i :: k <= i < |ns| ==> b.at + b.len <= ns[i].at;
    assert forall i :: k < i < |ns| ==> ns[k].at + ns[k].len < ns[i].at;
  }

  lemma FrontSpaced(ns: seq<Block>, k: nat, b: Block)
    requires Ordered(ns) && Apart(ns, b) && SplitsAt(ns, b.at, k)
    ensures Spaced(ns[..k]) && Spaced(ns[..k - 1])
    ensures ns[k - 1].at + ns[k - 1].len <= b.at
    ensures forall i :: 0 <= i < k - 1 ==> ns[i].at + ns[i].len < ns[k - 1].at
    ensures JoinsLeft(ns, k, b) ==> k >= 2
  {
  }

  lemma InsertSpaced(ns: seq<Block>, k: nat, b: Block)
    requires Ordered(ns) && Apart(ns, b) && SplitsAt(ns, b.at, k)
    ensures Spaced(Insert(ns, k, b))
  {
    FrontSpaced(ns, k, b);
    BackSpaced(ns, k, b);
    hide Apart, SplitsAt, Spaced, Rest;
    var g, back := Grown(ns, k, b), Rest(ns, k, b);
    if JoinsLeft(ns, k, b) {
      SplicedSpaced(ns[..k - 1], Block(ns[k - 1].at, ns[k - 1].len + g.len), back);
    } else {
      SplicedSpaced(ns[..k], g, back);
    }
  }

  /** free keeps the list ordered, with base first and no two blocks touching. */
  lemma InsertOrdered(ns: seq<Block>, k: nat, b: Block)
    requires Ordered(ns) && Apart(ns, b) && SplitsAt(ns, b.at, k)
    ensures Ordered(Insert(ns, k, b)) && Insert(ns, k, b)[0] == ns[0]
  {
    InsertSpaced(ns, k, b);
    FrontSpaced(ns, k, b);
    hide Spaced, Apart, SplitsAt;
  }

  lemma CoversTwo(at: int, n: int, m: int, u: int)
    requires 0 <= n && 0 <= m
    ensures Covers(Block(at, n + m), u) <==> Covers(Block(at, n), u) || Covers(Block(at + n, m), u)
  {
  }

  // The units from block k on, with b in front.
  lemma BackUnits(ns: seq<Block>, k: nat, b: Block, u: int)
    requires Ordered(ns) && 1 <= k <= |ns| && b.len >= 1
    ensures Covers(Grown(ns, k, b), u) || FreeUnit(Rest(ns, k, b), u) <==> Covers(b, u) || FreeUnit(ns[k..], u)
  {
    FreeUnitSplit(ns, k, u);
    hide FreeUnit, Covers, Spaced;
    if JoinsRight(ns, k, b) {
      CoversTwo(b.at, b.len, ns[k].len, u);
    }
  }

  /** free adds exactly the units of the freed block. */
  lemma InsertUnits(ns: seq<Block>, k: nat, b: Block, u: int)
    requires Ordered(ns) && Apart(ns, b) && SplitsAt(ns, b.at, k)
    ensures FreeUnit(Insert(ns, k, b), u) <==> FreeUnit(ns, u) || Covers(b, u)
  {
    var g, back := Grown(ns, k, b), Rest(ns, k, b);
    BackUnits(ns, k, b, u);
    FrontSpaced(ns, k, b);
    assert g.at == b.at && g.len >= 1 && ns[k - 1].len >= 0;
    hide FreeUnit, Covers, Spaced, Apart, Ordered, SplitsAt, Grown, Rest;
    FreeUnitSplit(ns, k, u);
    if JoinsLeft(ns, k, b) {
      var p := ns[k - 1];
      FreeUnitSplit(ns[..k], k - 1, u);
      assert ns[..k][..k - 1] == ns[..k - 1] && ns[..k][k - 1..] == [p];
      FreeUnitOne(p, u);
      CoversTwo(p.at, p.len, g.len, u);
      FreeUnitThree(ns[..k - 1], Block(p.at, p.len + g.len), back, u);
    } else {
      FreeUnitThree(ns[..k], g, back, u);
    }
  }

  lemma FreeUnitThree(front: seq<Block>, m: Block, back: seq<Block>, u: int)
    ensures FreeUnit(front + [m] + back, u) <==> FreeUnit(front, u) || Covers(m, u) || FreeUnit(back, u)
  {
    hide FreeUnit, Covers;
    FreeUnitConcat(front + [m], back, u);
    FreeUnitConcat(front, [m], u);
    FreeUnitOne(m, u);
  }

  /** A list that has room for n units after b of at least n units was freed. */
  lemma InsertHolds(ns: seq<Block>, k: nat, b: Block) returns (j: nat)
    requires Ordered(ns) && Apart(ns, b) && SplitsAt(ns, b.at, k)
    ensures 1 <= j < |Insert(ns, k, b)| && Insert(ns, k, b)[j].len >= b.len
  {
    j := if JoinsLeft(ns, k, b) then k - 1 else k;
  }

  lemma TakeOrdered(ns: seq<Block>, j: nat, n: nat)
    requires Ordered(ns) && j < |ns| && 1 <= n <= ns[j].len
    ensures Ordered(Take(ns, j, n)) && Take(ns, j, n)[0] == ns[0]
  {
  }

  // The blocks before block j lie below it, those after it above.
  lemma OnItsSide(ns: seq<Block>, j: nat, u: int)
    requires Ordered(ns) && j < |ns|
    ensures FreeUnit(ns[..j], u) ==> u < ns[j].at
    ensures FreeUnit(ns[j + 1..], u) ==> ns[j].at + ns[j].len < u
  {
    if FreeUnit(ns[..j], u) {
      var i :| 0 <= i < j && Covers(ns[..j][i], u);
      assert ns[i].at + ns[i].len < ns[j].at;
    }
    if FreeUnit(ns[j + 1..], u) {
      var i :| 0 <= i < |ns| - j - 1 && Covers(ns[j + 1..][i], u);
      assert ns[j].at + ns[j].len < ns[j + 1 + i].at;
    }
  }

  /** malloc removes exactly the units it returns. */
  lemma TakeUnits(ns: seq<Block>, j: nat, n: nat, u: int)
    requires Ordered(ns) && j < |ns| && 1 <= n <= ns[j].len
    ensures FreeUnit(Take(ns, j, n), u) <==>
      FreeUnit(ns, u) && !Covers(Block(ns[j].at + ns[j].len - n, n), u)
  {
    var t := Take(ns, j, n);
    OnItsSide(ns, j, u);
    FreeUnitSplit(ns, j, u);
    hide Ordered, FreeUnit;
    if ns[j].len == n {
      FreeUnitConcat(ns[..j], ns[j + 1..], u);
    } else {
      FreeUnitSplit(t, j, u);
      assert t[..j] == ns[..j] && t[j + 1..] == ns[j + 1..];
    }
  }
}
