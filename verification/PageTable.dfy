/** Two-level page tables in physical frames (p2/solution/vm.c) on values: what they mean as
    flat maps from page numbers to entries, and who owns every frame. */
module PageTable {

  const NENTRIES: int := 1024            // NPDENTRIES and NPTENTRIES
  const NPAGES: int := 0x10_0000         // pages of the 32-bit address space
  const KERNPAGE: int := 0x8_0000        // KERNBASE / PGSIZE
  const PGSIZE: int := 4096
  const PTE_W: int := 2
  const PTE_U: int := 4

  /** Frames as words; a kfree'd frame is full of ones bytes, so every word of it looks present. */
  type Frames = map<int, seq<int>>

  function Zeroes(): (s: seq<int>)
    ensures |s| == NENTRIES
  {
    seq(NENTRIES, _ => 0)
  }

  function Junk(): (s: seq<int>)
    ensures |s| == NENTRIES
  {
    seq(NENTRIES, _ => 0x0101_0101)
  }

  // ---------------------------------------------------------------- entries

  predicate Present(w: int) {
    w % 2 == 1
  }

  function FrameOf(w: int): int {
    w / PGSIZE
  }

  function Flags(w: int): int {
    w % PGSIZE
  }

  /** pa | perm | PTE_P for a page-aligned pa. */
  function Entry(frame: int, perm: int): int {
    frame * PGSIZE + if perm % 2 == 1 then perm else perm + 1
  }

  lemma EntryParts(frame: int, perm: int)
    requires 0 <= perm < PGSIZE
    ensures Present(Entry(frame, perm)) && FrameOf(Entry(frame, perm)) == frame
    ensures Flags(Entry(frame, perm)) == if perm % 2 == 1 then perm else perm + 1
  {
    var half := perm / 2;
    var low := 2 * half + 1;
    assert Entry(frame, perm) == frame * PGSIZE + low && 0 <= low < PGSIZE;
    Digits(frame, low);
    assert frame * PGSIZE + low == 2 * (2048 * frame + half) + 1;
    Odd(2048 * frame + half);
    hide Entry;
  }

  lemma Digits(q: int, r: int)
    requires 0 <= r < PGSIZE
    ensures (q * PGSIZE + r) / PGSIZE == q && (q * PGSIZE + r) % PGSIZE == r
  {
  }

  lemma Odd(n: int)
    ensures (2 * n + 1) % 2 == 1
  {
  }

  // ---------------------------------------------------------------- words of frames

  function Word(mem: Frames, f: int, i: int): int {
    if f in mem && 0 <= i < |mem[f]| then mem[f][i] else 0
  }

  function Put(mem: Frames, f: int, i: int, w: int): Frames {
    if f in mem && 0 <= i < |mem[f]| then mem[f := mem[f][i := w]] else mem
  }

  lemma PutWord(mem: Frames, f: int, i: int, w: int, g: int, j: int)
    requires f in mem && 0 <= i < |mem[f]|
    ensures Word(Put(mem, f, i, w), g, j) == if g == f && j == i then w else Word(mem, g, j)
  {
  }

  /** The entry the hardware finds for page v under directory d; 0 if there is none. */
  function Lookup(mem: Frames, d: int, v: int): int {
    var pde := Word(mem, d, v / NENTRIES);
    if Present(pde) then Word(mem, FrameOf(pde), v % NENTRIES) else 0
  }

  // ---------------------------------------------------------------- the flat view

  /** The entries of one address space by page number, the absent ones left out. */
  type PageMap = map<int, int>

  function At(m: PageMap, v: int): int {
    if v in m then m[v] else 0
  }

  /** What a frame is used for: a directory, a page table, a user page, or something else. */
  datatype Use = Dir(d: int) | Table(d: int, k: int) | User(d: int, v: int) | Held

  predicate Owns(owner: map<int, Use>, f: int, u: Use) {
    f in owner && owner[f] == u
  }

  predicate Shape(mem: Frames, owner: map<int, Use>) {
    forall f :: f in owner ==> f in mem && |mem[f]| == NENTRIES
  }

  /** A present directory entry leads to its own page table, with permissions that restrict nothing. */
  predicate TableOk(mem: Frames, owner: map<int, Use>, d: int, k: int) {
    Present(Word(mem, d, k)) ==>
      Owns(owner, FrameOf(Word(mem, d, k)), Table(d, k)) && Flags(Word(mem, d, k)) == PTE_W + PTE_U + 1
  }

  predicate Linked(mem: Frames, flat: map<int, PageMap>, f: int, u: Use) {
    match u
    case Dir(d) => f == d && d in flat
    case Table(d, k) => d in flat && 0 <= k < NENTRIES && Present(Word(mem, d, k)) && FrameOf(Word(mem, d, k)) == f
    case _ => true
  }

  ghost predicate Tables(mem: Frames, owner: map<int, Use>, flat: map<int, PageMap>) {
    && (forall d :: d in flat ==> Owns(owner, d, Dir(d)))
    && (forall d, k :: d in flat && 0 <= k < NENTRIES ==> TableOk(mem, owner, d, k))
    && (forall f :: f in owner ==> Linked(mem, flat, f, owner[f]))
  }

  predicate PagesOk(m: PageMap) {
    forall v :: v in m ==> 0 <= v < NPAGES && Present(m[v])
  }

  ghost predicate Refines(mem: Frames, flat: map<int, PageMap>) {
    && (forall d, v :: d in flat && 0 <= v < NPAGES ==> Lookup(mem, d, v) == At(flat[d], v))
    && (forall d :: d in flat ==> PagesOk(flat[d]))
  }

  /** The directories and page tables in memory stand for the maps in flat. */
  ghost predicate Trees(mem: Frames, owner: map<int, Use>, flat: map<int, PageMap>) {
    Shape(mem, owner) && Tables(mem, owner, flat) && Refines(mem, flat)
  }

  /** Every user page has a frame of its own. */
  ghost predicate Users(owner: map<int, Use>, flat: map<int, PageMap>) {
    && (forall d, v :: d in flat && v in flat[d] && v < KERNPAGE ==> Owns(owner, FrameOf(flat[d][v]), User(d, v)))
    && (forall f :: f in owner && owner[f].User? ==>
          owner[f].d in flat && owner[f].v < KERNPAGE && owner[f].v in flat[owner[f].d] && FrameOf(flat[owner[f].d][owner[f].v]) == f)
  }

  predicate Distinct(s: seq<int>) {
    forall i, j :: 0 <= i < j < |s| ==> s[i] != s[j]
  }

  /** No frame of [first, limit) is lost: each is on the free list once, or in use. */
  ghost predicate Conserved(free: seq<int>, owner: map<int, Use>, first: int, limit: int) {
    && Distinct(free)
    && (forall f :: f in free ==> first <= f < limit && f !in owner)
    && (forall f :: f in owner ==> first <= f < limit)
    && (forall f :: first <= f < limit ==> f in free || f in owner)
  }

  // ---------------------------------------------------------------- one entry changes

  /** Page v of directory d mapped to w, or unmapped if w is 0. */
  function Remap(flat: map<int, PageMap>, d: int, v: int, w: int): map<int, PageMap> {
    if d in flat then flat[d := if w == 0 then flat[d] - {v} else flat[d][v := w]] else flat
  }

  ghost predicate EntryOf(mem: Frames, owner: map<int, Use>, flat: map<int, PageMap>, d: int, v: int, t: int) {
    d in flat && 0 <= v < NPAGES && Owns(owner, t, Table(d, v / NENTRIES)) && Trees(mem, owner, flat)
  }

  lemma SetLookup(mem: Frames, owner: map<int, Use>, flat: map<int, PageMap>, d: int, v: int, t: int, w: int, e: int, u: int)
    requires EntryOf(mem, owner, flat, d, v, t) && e in flat && 0 <= u < NPAGES
    ensures Lookup(Put(mem, t, v % NENTRIES, w), e, u) == if e == d && u == v then w else Lookup(mem, e, u)
  {
    hide Put, Word, Refines, Present, FrameOf;
    var k := u / NENTRIES;
    assert TableOk(mem, owner, e, k);
    assert Owns(owner, e, Dir(e));
    assert Linked(mem, flat, t, owner[t]);
    PutWord(mem, t, v % NENTRIES, w, e, k);
    PutWord(mem, t, v % NENTRIES, w, FrameOf(Word(mem, e, k)), u % NENTRIES);
  }

  lemma SetTables(mem: Frames, owner: map<int, Use>, flat: map<int, PageMap>, d: int, v: int, t: int, w: int)
    requires EntryOf(mem, owner, flat, d, v, t)
    ensures Shape(Put(mem, t, v % NENTRIES, w), owner)
    ensures Tables(Put(mem, t, v % NENTRIES, w), owner, Remap(flat, d, v, w))
  {
    hide Word, Refines, Present, FrameOf, PagesOk;
    var mem' := Put(mem, t, v % NENTRIES, w);
    forall e, k | e in flat ensures Word(mem', e, k) == Word(mem, e, k) {
      assert Owns(owner, e, Dir(e));
      PutWord(mem, t, v % NENTRIES, w, e, k);
    }
    forall e, k | e in flat && 0 <= k < NENTRIES ensures TableOk(mem', owner, e, k) {
      assert TableOk(mem, owner, e, k);
    }
    forall f | f in owner ensures Linked(mem', Remap(flat, d, v, w), f, owner[f]) {
      assert Linked(mem, flat, f, owner[f]);
    }
  }

  /** Writing one entry changes the flat map at that page only. */
  lemma SetEntry(mem: Frames, owner: map<int, Use>, flat: map<int, PageMap>, d: int, v: int, t: int, w: int)
    requires EntryOf(mem, owner, flat, d, v, t) && (w == 0 || Present(w))
    ensures Trees(Put(mem, t, v % NENTRIES, w), owner, Remap(flat, d, v, w))
  {
    hide Put, Word, Shape, Tables, Lookup;
    var mem', flat' := Put(mem, t, v % NENTRIES, w), Remap(flat, d, v, w);
    SetTables(mem, owner, flat, d, v, t, w);
    forall e, u | e in flat' && 0 <= u < NPAGES ensures Lookup(mem', e, u) == At(flat'[e], u) {
      SetLookup(mem, owner, flat, d, v, t, w, e, u);
      assert Lookup(mem, e, u) == At(flat[e], u);
    }
  }

  // ---------------------------------------------------------------- a new page table

  /** walkpgdir's fresh, zeroed page table t, entered at index k of directory d. */
  function WithTable(mem: Frames, d: int, k: int, t: int): Frames {
    Put(mem[t := Zeroes()], d, k, Entry(t, PTE_W + PTE_U))
  }

  ghost predicate NeedsTable(mem: Frames, owner: map<int, Use>, flat: map<int, PageMap>, d: int, k: int, t: int) {
    && Trees(mem, owner, flat)
    && d in flat && 0 <= k < NENTRIES && !Present(Word(mem, d, k)) && t !in owner
  }

  lemma TableWord(mem: Frames, owner: map<int, Use>, flat: map<int, PageMap>, d: int, k: int, t: int, f: int, i: int)
    requires NeedsTable(mem, owner, flat, d, k, t)
    ensures Word(WithTable(mem, d, k, t), f, i) ==
      if f == d && i == k then Entry(t, PTE_W + PTE_U) else if f == t then 0 else Word(mem, f, i)
  {
    hide Refines, Present, FrameOf, Put, Entry;
    assert Owns(owner, d, Dir(d));
    PutWord(mem[t := Zeroes()], d, k, Entry(t, PTE_W + PTE_U), f, i);
  }

  lemma TableLookup(mem: Frames, owner: map<int, Use>, flat: map<int, PageMap>, d: int, k: int, t: int, e: int, u: int)
    requires NeedsTable(mem, owner, flat, d, k, t) && e in flat && 0 <= u < NPAGES
    ensures Lookup(WithTable(mem, d, k, t), e, u) == Lookup(mem, e, u)
  {
    hide Refines, WithTable, Word, Entry, Present, FrameOf;
    EntryParts(t, PTE_W + PTE_U);
    var pde := Word(mem, e, u / NENTRIES);
    assert TableOk(mem, owner, e, u / NENTRIES) && Owns(owner, e, Dir(e)) && Owns(owner, d, Dir(d));
    TableWord(mem, owner, flat, d, k, t, e, u / NENTRIES);
    TableWord(mem, owner, flat, d, k, t, FrameOf(pde), u % NENTRIES);
    TableWord(mem, owner, flat, d, k, t, t, u % NENTRIES);
  }

  lemma TableTables(mem: Frames, owner: map<int, Use>, flat: map<int, PageMap>, d: int, k: int, t: int)
    requires NeedsTable(mem, owner, flat, d, k, t)
    ensures Shape(WithTable(mem, d, k, t), owner[t := Table(d, k)])
    ensures Tables(WithTable(mem, d, k, t), owner[t := Table(d, k)], flat)
  {
    hide Refines, Word, Entry, Present, FrameOf, PagesOk;
    EntryParts(t, PTE_W + PTE_U);
    var mem', owner' := WithTable(mem, d, k, t), owner[t := Table(d, k)];
    forall e, j | e in flat ensures Word(mem', e, j) == if e == d && j == k then Entry(t, PTE_W + PTE_U) else Word(mem, e, j) {
      assert Owns(owner, e, Dir(e));
      TableWord(mem, owner, flat, d, k, t, e, j);
    }
    forall e, j | e in flat && 0 <= j < NENTRIES ensures TableOk(mem', owner', e, j) {
      assert TableOk(mem, owner, e, j);
    }
    forall f | f in owner' ensures Linked(mem', flat, f, owner'[f]) {
      if f != t {
        assert Linked(mem, flat, f, owner[f]);
      }
    }
  }

  /** A new page table changes no address space. */
  lemma NewTable(mem: Frames, owner: map<int, Use>, flat: map<int, PageMap>, d: int, k: int, t: int)
    requires NeedsTable(mem, owner, flat, d, k, t)
    ensures Trees(WithTable(mem, d, k, t), owner[t := Table(d, k)], flat)
  {
    hide Shape, Tables, WithTable, Word, Lookup;
    TableTables(mem, owner, flat, d, k, t);
    forall e, u | e in flat && 0 <= u < NPAGES ensures Lookup(WithTable(mem, d, k, t), e, u) == At(flat[e], u) {
      TableLookup(mem, owner, flat, d, k, t, e, u);
    }
  }

  // ---------------------------------------------------------------- frames that are not tables

  /** The trees do not depend on frames that are neither directories nor page tables. */
  lemma SameTrees(mem: Frames, owner: map<int, Use>, mem': Frames, owner': map<int, Use>, flat: map<int, PageMap>)
    requires Trees(mem, owner, flat) && Shape(mem', owner')
    requires forall f :: f in owner && (owner[f].Dir? || owner[f].Table?) ==> f in owner' && owner'[f] == owner[f] && mem'[f] == mem[f]
    requires forall f :: f in owner' && (owner'[f].Dir? || owner'[f].Table?) ==> f in owner && owner'[f] == owner[f]
    ensures Trees(mem', owner', flat)
  {
    hide Present, FrameOf, PagesOk;
    forall e, k | e in flat ensures Word(mem', e, k) == Word(mem, e, k) {
      assert Owns(owner, e, Dir(e));
    }
    forall e, k | e in flat && 0 <= k < NENTRIES ensures TableOk(mem', owner', e, k) {
      assert TableOk(mem, owner, e, k);
    }
    forall f | f in owner' ensures Linked(mem', flat, f, owner'[f]) {
      if owner'[f].Dir? || owner'[f].Table? {
        assert Linked(mem, flat, f, owner[f]);
      }
    }
    forall e, u | e in flat && 0 <= u < NPAGES ensures Lookup(mem', e, u) == At(flat[e], u) {
      assert TableOk(mem, owner, e, u / NENTRIES);
      assert Lookup(mem, e, u) == At(flat[e], u);
    }
  }

  // ---------------------------------------------------------------- a new and a dead directory

  lemma NewDirTables(mem: Frames, owner: map<int, Use>, flat: map<int, PageMap>, d: int)
    requires Trees(mem, owner, flat) && d !in owner
    ensures Tables(mem[d := Zeroes()], owner[d := Dir(d)], flat[d := map[]])
  {
    hide Refines, PagesOk, FrameOf;
    var mem', owner', flat' := mem[d := Zeroes()], owner[d := Dir(d)], flat[d := map[]];
    forall e, k | e in flat' && 0 <= k < NENTRIES ensures TableOk(mem', owner', e, k) {
      if e == d {
        assert Word(mem', d, k) == 0;
      } else {
        assert TableOk(mem, owner, e, k);
      }
    }
    forall f | f in owner' ensures Linked(mem', flat', f, owner'[f]) {
      if f != d {
        assert Linked(mem, flat, f, owner[f]);
        if owner[f].Table? {
          assert Owns(owner, owner[f].d, Dir(owner[f].d));
        }
      }
    }
  }

  /** A zeroed directory is an empty address space. */
  lemma NewDir(mem: Frames, owner: map<int, Use>, flat: map<int, PageMap>, d: int)
    requires Trees(mem, owner, flat) && d !in owner
    ensures d !in flat && Trees(mem[d := Zeroes()], owner[d := Dir(d)], flat[d := map[]])
  {
    hide FrameOf, Linked;
    assert d in flat ==> Owns(owner, d, Dir(d));
    NewDirTables(mem, owner, flat, d);
    var mem', flat' := mem[d := Zeroes()], flat[d := map[]];
    assert PagesOk(map[]);
    forall e, u | e in flat' && 0 <= u < NPAGES ensures Lookup(mem', e, u) == At(flat'[e], u) {
      if e == d {
        assert Word(mem', d, u / NENTRIES) == 0;
      } else {
        assert TableOk(mem, owner, e, u / NENTRIES);
        assert Owns(owner, e, Dir(e));
        assert Lookup(mem, e, u) == At(flat[e], u);
      }
    }
  }

  predicate Of(u: Use, d: int) {
    !u.Held? && u.d == d
  }

  function Without(owner: map<int, Use>, d: int): map<int, Use> {
    map f | f in owner && !Of(owner[f], d) :: owner[f]
  }

  /** Dropping a directory and its tables leaves the other address spaces as they are. */
  lemma DeadDir(mem: Frames, owner: map<int, Use>, flat: map<int, PageMap>, d: int, mem': Frames)
    requires Trees(mem, owner, flat) && d in flat
    requires forall f :: f in Without(owner, d) ==> f in mem' && mem'[f] == mem[f]
    ensures Trees(mem', Without(owner, d), flat - {d})
  {
    hide FrameOf, PagesOk, Present;
    var owner', flat' := Without(owner, d), flat - {d};
    forall e | e in flat' ensures Owns(owner', e, Dir(e)) {
      assert Owns(owner, e, Dir(e));
    }
    forall e, k | e in flat' && 0 <= k < NENTRIES ensures TableOk(mem', owner', e, k) {
      assert TableOk(mem, owner, e, k);
      assert Owns(owner', e, Dir(e));
    }
    forall f | f in owner' ensures Linked(mem', flat', f, owner'[f]) {
      assert Linked(mem, flat, f, owner[f]);
      if owner[f].Table? {
        assert Owns(owner', owner[f].d, Dir(owner[f].d));
      }
    }
    forall e, u | e in flat' && 0 <= u < NPAGES ensures Lookup(mem', e, u) == At(flat'[e], u) {
      assert TableOk(mem, owner, e, u / NENTRIES) && Owns(owner', e, Dir(e));
      assert Lookup(mem, e, u) == At(flat[e], u);
    }
  }
}
