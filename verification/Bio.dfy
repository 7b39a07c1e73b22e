/** The buffer cache (bio.c): a circular doubly linked list of buffers in most recently used order,
    searched by bget and relinked by brelse. */
module Bio {

  /** A struct buf; prev and next are indices of bcache.buf, the head of the list coming last. */
  datatype Buf = Buf(dev: int, blockno: int, valid: bool, dirty: bool, refcnt: int, prev: int, next: int)

  // ---------------------------------------------------------------- the list

  /** The node at position k of the list, the head on either side of it. */
  function Node(order: seq<int>, n: int, k: int): int {
    if 0 <= k < |order| then order[k] else n
  }

  /** Some buffers below n, each once. */
  predicate Distinct(order: seq<int>, n: int) {
    && (forall k :: 0 <= k < |order| ==> 0 <= order[k] < n)
    && (forall j, k :: 0 <= j < k < |order| ==> order[j] != order[k])
  }

  /** `order` is a permutation of the buffers below n. */
  predicate Permutation(order: seq<int>, n: int) {
    Distinct(order, n) && forall b :: 0 <= b < n ==> b in order
  }

  predicate LinkedAt(t: seq<Buf>, order: seq<int>, n: int, k: int) {
    var b := Node(order, n, k);
    0 <= b < |t| && t[b].next == Node(order, n, k + 1) && t[b].prev == if k == -1 then Node(order, n, |order| - 1) else Node(order, n, k - 1)
  }

  /** Following next from the head leads through `order` and back, and prev the other way. */
  predicate Linked(t: seq<Buf>, order: seq<int>, n: int) {
    |t| == n + 1 && forall k :: -1 <= k < |order| ==> LinkedAt(t, order, n, k)
  }

  function SetNext(t: seq<Buf>, b: int, x: int): (r: seq<Buf>)
    ensures |r| == |t|
  {
    if 0 <= b < |t| then t[b := t[b].(next := x)] else t
  }

  function SetPrev(t: seq<Buf>, b: int, x: int): (r: seq<Buf>)
    ensures |r| == |t|
  {
    if 0 <= b < |t| then t[b := t[b].(prev := x)] else t
  }

  function Without(order: seq<int>, k: int): seq<int> {
    if 0 <= k < |order| then order[..k] + order[k + 1..] else order
  }

  /** b->next->prev = b->prev; b->prev->next = b->next. */
  function Unlinked(t: seq<Buf>, b: int): (r: seq<Buf>)
    requires 0 <= b < |t|
    ensures |r| == |t|
  {
    SetNext(SetPrev(t, t[b].next, t[b].prev), t[b].prev, t[b].next)
  }

  /** b->next = head.next; b->prev = &head; head.next->prev = b; head.next = b. */
  function Fronted(t: seq<Buf>, b: int, n: int): (r: seq<Buf>)
    requires 0 <= b < |t| && 0 <= n < |t|
    ensures |r| == |t|
  {
    var t1 := SetPrev(SetNext(t, b, t[n].next), b, n);
    SetNext(SetPrev(t1, t1[n].next, b), n, b)
  }

  lemma WithoutAt(order: seq<int>, n: int, k: int, j: int)
    requires 0 <= k < |order| && -1 <= j <= |order| - 1
    ensures |Without(order, k)| == |order| - 1
    ensures Node(Without(order, k), n, j) == if j < k then Node(order, n, j) else Node(order, n, j + 1)
  {
  }

  lemma WithoutDistinct(order: seq<int>, n: int, k: int)
    requires Distinct(order, n) && 0 <= k < |order|
    ensures Distinct(Without(order, k), n) && order[k] !in Without(order, k)
    ensures forall b :: b in order && b != order[k] ==> b in Without(order, k)
  {
    var r := Without(order, k);
    forall b | b in order && b != order[k] ensures b in r {
      var j :| 0 <= j < |order| && order[j] == b;
      assert r[if j < k then j else j - 1] == b;
    }
  }

  lemma UnlinkKeeps(t: seq<Buf>, order: seq<int>, n: int, k: int)
    requires Distinct(order, n) && Linked(t, order, n) && 0 <= k < |order| && 0 <= n
    ensures Linked(Unlinked(t, order[k]), Without(order, k), n)
  {
    hide Without;
    var b, r := order[k], Without(order, k);
    var t' := Unlinked(t, b);
    assert LinkedAt(t, order, n, k);
    WithoutAt(order, n, k, -1);
    forall j | -1 <= j < |r| ensures LinkedAt(t', r, n, j) {
      WithoutAt(order, n, k, j);
      WithoutAt(order, n, k, j + 1);
      if j >= 0 { WithoutAt(order, n, k, j - 1); } else { WithoutAt(order, n, k, |r| - 1); }
      assert LinkedAt(t, order, n, if j < k then j else j + 1);
    }
  }

  lemma FrontKeeps(t: seq<Buf>, order: seq<int>, n: int, b: int)
    requires Distinct(order, n) && Linked(t, order, n) && 0 <= b < n && b !in order
    ensures Linked(Fronted(t, b, n), [b] + order, n) && Distinct([b] + order, n)
  {
    var t', r := Fronted(t, b, n), [b] + order;
    assert LinkedAt(t, order, n, -1);
    forall j | -1 <= j < |r| ensures LinkedAt(t', r, n, j) {
      if j >= 1 {
        assert LinkedAt(t, order, n, j - 1);
      }
    }
  }

  // ---------------------------------------------------------------- the search

  predicate Caches(b: Buf, dev: int, blockno: int) {
    b.dev == dev && b.blockno == blockno
  }

  predicate Idle(b: Buf) {
    b.refcnt == 0 && !b.dirty
  }

  function At(t: seq<Buf>, i: int): Buf {
    if 0 <= i < |t| then t[i] else Buf(0, 0, false, false, 0, 0, 0)
  }

  /** The first position from k on whose buffer caches the block, or the end of the list. */
  function Find(t: seq<Buf>, order: seq<int>, dev: int, blockno: int, k: nat): (r: nat)
    ensures k <= |order| ==> k <= r <= |order| && (r < |order| ==> Caches(At(t, order[r]), dev, blockno))
    ensures k <= |order| ==> forall j :: k <= j < r ==> !Caches(At(t, order[j]), dev, blockno)
    decreases |order| - k
  {
    if k >= |order| || Caches(At(t, order[k]), dev, blockno) then k else Find(t, order, dev, blockno, k + 1)
  }

  /** The last position below k whose buffer is unused and clean, or -1. */
  function Victim(t: seq<Buf>, order: seq<int>, k: nat): (r: int)
    ensures k <= |order| ==> -1 <= r < k && (r >= 0 ==> Idle(At(t, order[r]))) && forall j :: r < j < k ==> !Idle(At(t, order[j]))
  {
    if k == 0 || k > |order| then -1 else if Idle(At(t, order[k - 1])) then k - 1 else Victim(t, order, k - 1)
  }

  /** A recycled buffer. */
  function Recycled(b: Buf, dev: int, blockno: int): Buf {
    b.(dev := dev, blockno := blockno, valid := false, dirty := false, refcnt := 1)
  }

  /** bget under bcache.lock: the buffer it finds or recycles, -1 for the panic. */
  function Got(t: seq<Buf>, order: seq<int>, dev: int, blockno: int): (b: int) {
    var f, v := Find(t, order, dev, blockno, 0), Victim(t, order, |order|);
    if f < |order| then order[f] else if 0 <= v < |order| then order[v] else -1
  }

  function GetTable(t: seq<Buf>, order: seq<int>, dev: int, blockno: int): (r: seq<Buf>)
    ensures |r| == |t|
  {
    var b := Got(t, order, dev, blockno);
    if !(0 <= b < |t|) then t
    else if Find(t, order, dev, blockno, 0) < |order| then t[b := t[b].(refcnt := t[b].refcnt + 1)]
    else t[b := Recycled(t[b], dev, blockno)]
  }

  /** brelse under bcache.lock for the buffer at position k. */
  function ReleaseTable(t: seq<Buf>, order: seq<int>, n: int, b: int): (r: seq<Buf>)
    ensures |r| == |t|
  {
    if !(0 <= b < |t| && 0 <= n < |t|) then t
    else
      var t1 := t[b := t[b].(refcnt := t[b].refcnt - 1)];
      if t1[b].refcnt != 0 then t1 else Fronted(Unlinked(t1, b), b, n)
  }

  function ReleaseOrder(t: seq<Buf>, order: seq<int>, k: int): seq<int> {
    if 0 <= k < |order| && At(t, order[k]).refcnt == 1 then [order[k]] + Without(order, k) else order
  }

  /** Relinking touches nothing but prev and next. */
  predicate SameBut(a: Buf, b: Buf) {
    a == b.(prev := a.prev, next := a.next)
  }

  lemma SetSame(t: seq<Buf>, t0: seq<Buf>, b: int, x: int)
    requires |t| == |t0| && forall i :: 0 <= i < |t| ==> SameBut(t[i], t0[i])
    ensures forall i :: 0 <= i < |t| ==> SameBut(SetNext(t, b, x)[i], t0[i]) && SameBut(SetPrev(t, b, x)[i], t0[i])
  {
  }

  lemma UnlinkSame(t: seq<Buf>, b: int)
    requires 0 <= b < |t|
    ensures forall i :: 0 <= i < |t| ==> SameBut(Unlinked(t, b)[i], t[i])
  {
    hide SetNext, SetPrev, SameBut;
    Itself(t);
    SetSame(t, t, t[b].next, t[b].prev);
    SetSame(SetPrev(t, t[b].next, t[b].prev), t, t[b].prev, t[b].next);
  }

  lemma FrontSame(t: seq<Buf>, b: int, n: int)
    requires 0 <= b < |t| && 0 <= n < |t|
    ensures forall i :: 0 <= i < |t| ==> SameBut(Fronted(t, b, n)[i], t[i])
  {
    hide SetNext, SetPrev, SameBut;
    Itself(t);
    var t0 := SetNext(t, b, t[n].next);
    var t1 := SetPrev(t0, b, n);
    SetSame(t, t, b, t[n].next);
    SetSame(t0, t, b, n);
    SetSame(t1, t, t1[n].next, b);
    SetSame(SetPrev(t1, t1[n].next, b), t, n, b);
  }

  lemma Itself(t: seq<Buf>)
    ensures forall i :: 0 <= i < |t| ==> SameBut(t[i], t[i])
  {
  }

  lemma FieldsKeepLinks(t: seq<Buf>, t': seq<Buf>, order: seq<int>, n: int)
    requires Linked(t, order, n) && |t'| == |t|
    requires forall i :: 0 <= i < |t| ==> t'[i].prev == t[i].prev && t'[i].next == t[i].next
    ensures Linked(t', order, n)
  {
    forall k | -1 <= k < |order| ensures LinkedAt(t', order, n, k) {
      assert LinkedAt(t, order, n, k);
    }
  }

  /** After brelse the list is again a cycle through all buffers, a freed one first. */
  lemma ReleaseKeeps(t: seq<Buf>, order: seq<int>, n: int, k: int)
    requires Permutation(order, n) && Linked(t, order, n) && 0 <= k < |order|
    ensures Permutation(ReleaseOrder(t, order, k), n) && Linked(ReleaseTable(t, order, n, order[k]), ReleaseOrder(t, order, k), n)
  {
    hide Without, Unlinked, Fronted, LinkedAt;
    var b := order[k];
    var t1 := t[b := t[b].(refcnt := t[b].refcnt - 1)];
    FieldsKeepLinks(t, t1, order, n);
    if t1[b].refcnt == 0 {
      UnlinkKeeps(t1, order, n, k);
      WithoutDistinct(order, n, k);
      FrontKeeps(Unlinked(t1, b), Without(order, k), n, b);
      forall c | 0 <= c < n ensures c in [b] + Without(order, k) {
        assert c in order;
      }
    }
  }

  lemma GetKeeps(t: seq<Buf>, order: seq<int>, n: int, dev: int, blockno: int)
    requires Linked(t, order, n)
    ensures Linked(GetTable(t, order, dev, blockno), order, n)
  {
    hide Linked, Find, Victim;
    FieldsKeepLinks(t, GetTable(t, order, dev, blockno), order, n);
  }

  // ---------------------------------------------------------------- walking the list

  lemma FirstAndLast(t: seq<Buf>, order: seq<int>, n: int)
    requires Linked(t, order, n) && Distinct(order, n) && 0 <= n
    ensures |t| == n + 1 && t[n].next == Node(order, n, 0) && t[n].prev == Node(order, n, |order| - 1)
    ensures 0 <= t[n].next <= n && 0 <= t[n].prev <= n
  {
    assert LinkedAt(t, order, n, -1);
  }

  lemma Walk(t: seq<Buf>, order: seq<int>, n: int, k: int)
    requires Linked(t, order, n) && Distinct(order, n) && 0 <= n && Node(order, n, k) != n
    ensures 0 <= k < |order| && order[k] == Node(order, n, k) && 0 <= order[k] < n == |t| - 1
    ensures t[order[k]].next == Node(order, n, k + 1) && t[order[k]].prev == Node(order, n, k - 1)
    ensures 0 <= t[order[k]].next <= n && 0 <= t[order[k]].prev <= n
  {
    assert LinkedAt(t, order, n, k);
  }

  lemma AllDistinct(order: seq<int>, n: int)
    requires Permutation(order, n)
    ensures Distinct(order, n)
  {
  }

  lemma Around(order: seq<int>, n: int, k: int)
    requires Distinct(order, n) && Node(order, n, k) == n
    ensures !(0 <= k < |order|)
  {
  }

  lemma FindNext(t: seq<Buf>, order: seq<int>, dev: int, blockno: int, k: nat)
    ensures Find(t, order, dev, blockno, k) ==
      if k >= |order| || Caches(At(t, order[k]), dev, blockno) then k else Find(t, order, dev, blockno, k + 1)
  {
  }

  lemma VictimNext(t: seq<Buf>, order: seq<int>, k: nat)
    ensures Victim(t, order, k) ==
      if k == 0 || k > |order| then -1 else if Idle(At(t, order[k - 1])) then k - 1 else Victim(t, order, k - 1)
  {
  }

  lemma UnlinkedLinks(t: seq<Buf>, order: seq<int>, n: int, k: int)
    requires Linked(t, order, n) && Distinct(order, n) && 0 <= n && 0 <= k < |order|
    ensures var b := order[k];
      && 0 <= b < n == |t| - 1 && 0 <= t[b].next <= n && 0 <= t[b].prev <= n && t[b].next != b && t[b].prev != b
      && var t1 := t[b := t[b].(refcnt := t[b].refcnt - 1)]; 0 <= Unlinked(t1, b)[n].next <= n
  {
    hide Without, Unlinked, Linked, LinkedAt;
    var b := order[k];
    Walk(t, order, n, k);
    var t1 := t[b := t[b].(refcnt := t[b].refcnt - 1)];
    FieldsKeepLinks(t, t1, order, n);
    UnlinkKeeps(t1, order, n, k);
    WithoutDistinct(order, n, k);
    FirstAndLast(Unlinked(t1, b), Without(order, k), n);
  }

  /** The buffer that holds the block, or else the last buffer of the list that nobody uses and that needs
      no write; -1 if there is neither. */
  predicate RightBuffer(t: seq<Buf>, t': seq<Buf>, order: seq<int>, n: nat, dev: int, blockno: int, b: int) {
    && |t| == n + 1 && |t'| == |t| && (forall i :: 0 <= i <= n && i != b ==> t'[i] == t[i])
    && if b == -1 then
         forall i :: 0 <= i < n ==> !(t[i].dev == dev && t[i].blockno == blockno) && (t[i].refcnt != 0 || t[i].dirty)
       else
         && 0 <= b < n
         && if t[b].dev == dev && t[b].blockno == blockno then t'[b] == t[b].(refcnt := t[b].refcnt + 1)
            else
              && (forall i :: 0 <= i < n ==> !(t[i].dev == dev && t[i].blockno == blockno))
              && t[b].refcnt == 0 && !t[b].dirty
              && t'[b] == t[b].(dev := dev, blockno := blockno, valid := false, dirty := false, refcnt := 1)
              && (forall j, k :: 0 <= j < k < |order| && order[j] == b && 0 <= order[k] < n ==>
                    t[order[k]].refcnt != 0 || t[order[k]].dirty)
  }

  lemma GotRight(t: seq<Buf>, order: seq<int>, n: nat, dev: int, blockno: int)
    requires Permutation(order, n) && |t| == n + 1
    ensures RightBuffer(t, GetTable(t, order, dev, blockno), order, n, dev, blockno, Got(t, order, dev, blockno))
  {
    hide Linked;
    var f, v, b := Find(t, order, dev, blockno, 0), Victim(t, order, |order|), Got(t, order, dev, blockno);
    AllDistinct(order, n);
    if f >= |order| {
      forall i | 0 <= i < n ensures !(t[i].dev == dev && t[i].blockno == blockno) && (b == -1 ==> t[i].refcnt != 0 || t[i].dirty) {
        assert i in order;
        var j :| 0 <= j < |order| && order[j] == i;
        assert !Caches(At(t, order[j]), dev, blockno);
      }
    }
    hide Find, Victim, Permutation;
  }

  class Bcache {
    const bufs: array<Buf>
    const n: nat                         // NBUF; bufs[n] is bcache.head
    ghost var order: seq<int>

    ghost predicate Valid()
      reads this, bufs
    {
      bufs.Length == n + 1 && Permutation(order, n) && Linked(bufs[..], order, n)
    }

    /** binit. */
    constructor (n: nat)
      ensures Valid() && this.n == n && fresh(bufs)
      ensures forall i :: 0 <= i < n ==> SameBut(bufs[i], Buf(0, 0, false, false, 0, 0, 0))
    {
      this.n := n;
      bufs := new Buf[n + 1](_ => Buf(0, 0, false, false, 0, n, n));
      order := [];
      new;
      var b := 0;
      while b < n
        invariant 0 <= b <= n && bufs.Length == n + 1 && Linked(bufs[..], order, n) && Distinct(order, n)
        invariant forall c :: c in order <==> 0 <= c < b
        invariant forall i :: 0 <= i <= n ==> SameBut(bufs[i], Buf(0, 0, false, false, 0, 0, 0))
      {
        FrontKeeps(bufs[..], order, n, b);
        FrontSame(bufs[..], b, n);
        FirstAndLast(bufs[..], order, n);
        LinkFront(b);
        order := [b] + order;
        b := b + 1;
      }
    }

    /** The four assignments that put b behind the head. */
    method LinkFront(b: nat)
      requires b < n && bufs.Length == n + 1 && 0 <= bufs[n].next <= n
      modifies bufs
      ensures bufs[..] == Fronted(old(bufs[..]), b, n)
    {
      bufs[b] := bufs[b].(next := bufs[n].next);
      bufs[b] := bufs[b].(prev := n);
      var first := bufs[n].next;
      bufs[first] := bufs[first].(prev := b);
      bufs[n] := bufs[n].(next := b);
    }

    /** bget up to acquiresleep; -1 stands for the "no buffers" panic. */
    method Bget(dev: int, blockno: int) returns (b: int)
      requires Valid()
      modifies bufs
      ensures Valid() && order == old(order)
      ensures bufs[..] == GetTable(old(bufs[..]), order, dev, blockno)
      ensures b == Got(old(bufs[..]), order, dev, blockno)
      ensures RightBuffer(old(bufs[..]), bufs[..], order, n, dev, blockno, b)
    {
      hide Linked, Permutation, Distinct, Find, Victim, LinkedAt, Node, RightBuffer;
      ghost var t := bufs[..];
      GotRight(t, order, n, dev, blockno);
      GetKeeps(t, order, n, dev, blockno);
      AllDistinct(order, n);
      FirstAndLast(t, order, n);
      b := bufs[n].next;
      ghost var k := 0;
      FindNext(t, order, dev, blockno, 0);
      while b != n
        invariant bufs[..] == t && 0 <= k <= |order| && b == Node(order, n, k) && 0 <= b <= n
        invariant Find(t, order, dev, blockno, k) == Find(t, order, dev, blockno, 0)
        decreases |order| - k
      {
        Walk(t, order, n, k);
        FindNext(t, order, dev, blockno, k);
        if bufs[b].dev == dev && bufs[b].blockno == blockno {
          bufs[b] := bufs[b].(refcnt := bufs[b].refcnt + 1);
          return;
        }
        b := bufs[b].next;
        k := k + 1;
      }
      Around(order, n, k);
      FindNext(t, order, dev, blockno, k);
      b := bufs[n].prev;
      k := |order| - 1;
      VictimNext(t, order, |order|);
      while b != n
        invariant bufs[..] == t && -1 <= k < |order| && b == Node(order, n, k) && 0 <= b <= n
        invariant Victim(t, order, k + 1) == Victim(t, order, |order|)
        decreases k
      {
        Walk(t, order, n, k);
        VictimNext(t, order, k + 1);
        if bufs[b].refcnt == 0 && !bufs[b].dirty {
          bufs[b] := bufs[b].(dev := dev, blockno := blockno, valid := false, dirty := false, refcnt := 1);
          return;
        }
        b := bufs[b].prev;
        k := k - 1;
      }
      Around(order, n, k);
      VictimNext(t, order, 0);
      b := -1;
    }

    /** brelse of a buffer someone holds, after releasesleep. */
    method Brelse(b: nat)
      requires Valid() && b < n && bufs[b].refcnt >= 1
      modifies bufs, this`order
      ensures Valid() && exists k :: 0 <= k < |old(order)| && old(order)[k] == b && order == ReleaseOrder(old(bufs[..]), old(order), k)
      ensures bufs[..] == ReleaseTable(old(bufs[..]), old(order), n, b)
    {
      hide Linked, Without, Distinct;
      ghost var t := bufs[..];
      assert b in order;
      ghost var k :| 0 <= k < |order| && order[k] == b;
      ReleaseKeeps(t, order, n, k);
      bufs[b] := bufs[b].(refcnt := bufs[b].refcnt - 1);
      if bufs[b].refcnt == 0 {
        UnlinkedLinks(t, order, n, k);
        var next := bufs[b].next;
        bufs[next] := bufs[next].(prev := bufs[b].prev);
        var prev := bufs[b].prev;
        bufs[prev] := bufs[prev].(next := bufs[b].next);
        assert bufs[..] == Unlinked(t[b := t[b].(refcnt := t[b].refcnt - 1)], b);
        LinkFront(b);
        order := [b] + Without(order, k);
      }
    }
  }
}
