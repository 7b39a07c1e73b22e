/** The frames that the pages of an address space need and the frames there are (p2/solution/vm.c,
    kalloc.c): kalloc and mappages take from one what they take from the other. */
module FrameSpace {
  import opened PageTable
  import opened FrameSteps

  /** The numbers lo..hi. */
  function Range(lo: int, hi: int): (r: set<int>)
    ensures forall v :: v in r <==> lo <= v < hi
    ensures |r| == if lo < hi then hi - lo else 0
    decreases hi - lo
  {
    if lo < hi then Range(lo, hi - 1) + {hi - 1} else {}
  }

  /** The page tables that the pages in p hang on, by directory index. */
  function TablesOf(p: set<int>): set<int> {
    set v | v in p :: v / NENTRIES
  }

  lemma TablesOfUnion(p: set<int>, q: set<int>)
    ensures TablesOf(p + q) == TablesOf(p) + TablesOf(q)
  {
    forall k ensures k in TablesOf(p + q) <==> k in TablesOf(p) + TablesOf(q) {
    }
  }

  lemma TablesOfRange(lo: int, hi: int)
    requires 0 <= lo < hi
    ensures TablesOf(Range(lo, hi)) == Range(lo / NENTRIES, (hi - 1) / NENTRIES + 1)
  {
    hide Range;
    forall k ensures k in TablesOf(Range(lo, hi)) <==> lo / NENTRIES <= k <= (hi - 1) / NENTRIES {
      if lo / NENTRIES <= k <= (hi - 1) / NENTRIES {
        var v := if k * NENTRIES < lo then lo else k * NENTRIES;
        assert lo <= v < hi && v / NENTRIES == k;
        TableIn(Range(lo, hi), v);
      }
    }
    assert TablesOf(Range(lo, hi)) == Range(lo / NENTRIES, (hi - 1) / NENTRIES + 1);
  }

  /** Those that directory d does not have. */
  function LackTables(s: Memory, d: int, p: set<int>): set<int> {
    set k | k in TablesOf(p) && !Present(Word(s.mem, d, k))
  }

  /** The user pages in p that directory d does not map; each needs a frame of its own. */
  function LackPages(s: Memory, d: int, p: set<int>): set<int> {
    set v | v in p && v < KERNPAGE && !(d in s.flat && v in s.flat[d])
  }

  /** The free frames that mapping the pages in p would leave over. */
  function Slack(s: Memory, d: int, p: set<int>): int {
    |s.free| - |LackTables(s, d, p)| - |LackPages(s, d, p)|
  }

  /** From s to s' the frames left over grew by `gain`, whatever is to be mapped besides r. */
  ghost predicate Spends(s: Memory, s': Memory, d: int, r: set<int>, gain: int) {
    forall p :: r <= p ==> Slack(s', d, p) == Slack(s, d, p) + gain
  }

  lemma SpendsNothing(s: Memory, d: int, r: set<int>)
    ensures Spends(s, s, d, r, 0)
  {
  }

  lemma SpendsMore(s: Memory, s1: Memory, s2: Memory, d: int, r: set<int>, r1: set<int>, r2: set<int>, gain1: int, gain2: int)
    requires Spends(s, s1, d, r1, gain1) && Spends(s1, s2, d, r2, gain2) && r1 <= r && r2 <= r
    ensures Spends(s, s2, d, r, gain1 + gain2)
  {
    hide Slack;
    forall p | r <= p ensures Slack(s2, d, p) == Slack(s, d, p) + gain1 + gain2 {
      assert r1 <= p && r2 <= p;
      assert Slack(s1, d, p) == Slack(s, d, p) + gain1;
    }
  }

  // What is lacking is read off the directory's words and its flat map.
  lemma SameLack(s: Memory, s': Memory, d: int, p: set<int>)
    requires forall k :: Word(s'.mem, d, k) == Word(s.mem, d, k)
    ensures LackTables(s', d, p) == LackTables(s, d, p)
  {
    hide Word, Present, TablesOf;
    forall k ensures k in LackTables(s', d, p) <==> k in LackTables(s, d, p) {
      assert Word(s'.mem, d, k) == Word(s.mem, d, k);
    }
  }

  /** A frame that is held and not yet mapped is one less. */
  lemma TakenSpends(s: Memory, d: int, page: seq<int>)
    requires Sound(s) && s.free != [] && d in s.flat
    ensures Spends(s, Taken(s, page, Held), d, {}, -1)
  {
    hide Refines, Users, Linked, FrameOf, Present;
    var s' := Taken(s, page, Held);
    assert Owns(s.owner, d, Dir(d)) && s.free[0] in s.free;
    hide Sound, LackTables, LackPages;
    forall p ensures Slack(s', d, p) == Slack(s, d, p) - 1 {
      SameLack(s, s', d, p);
      SamePages(s, s', d, p);
    }
  }

  lemma SamePages(s: Memory, s': Memory, d: int, p: set<int>)
    requires s'.flat == s.flat
    ensures LackPages(s', d, p) == LackPages(s, d, p)
  {
    forall v ensures v in LackPages(s', d, p) <==> v in LackPages(s, d, p) {
    }
  }

  /** A new page table takes a frame and is one of those lacking. */
  lemma TabledSpends(s: Memory, d: int, v: int)
    requires Sound(s) && s.free != [] && d in s.flat && 0 <= v / NENTRIES < NENTRIES && !Present(Word(s.mem, d, v / NENTRIES))
    requires s.free[0] !in s.owner
    ensures Spends(s, Tabled(s, d, v / NENTRIES), d, {v}, 0)
  {
    var s', k, t := Tabled(s, d, v / NENTRIES), v / NENTRIES, s.free[0];
    hide Users, Conserved, Refines, WithTable, FrameOf, Present, Linked, Entry, Put;
    assert Owns(s.owner, d, Dir(d));
    forall j ensures Word(s'.mem, d, j) == if j == k then Entry(t, PTE_W + PTE_U) else Word(s.mem, d, j) {
      TableWord(s.mem, s.owner, s.flat, d, k, t, d, j);
    }
    EntryParts(t, PTE_W + PTE_U);
    hide Sound, LackPages, TablesOf, Word;
    forall p | {v} <= p ensures Slack(s', d, p) == Slack(s, d, p) {
      SamePages(s, s', d, p);
      assert v in p;
      TableIn(p, v);
      forall j ensures j in LackTables(s', d, p) <==> j in LackTables(s, d, p) - {k} {
        assert Word(s'.mem, d, j) == if j == k then Entry(t, PTE_W + PTE_U) else Word(s.mem, d, j);
      }
      assert LackTables(s', d, p) == LackTables(s, d, p) - {k};
    }
  }

  lemma TableIn(p: set<int>, v: int)
    requires v in p
    ensures v / NENTRIES in TablesOf(p)
  {
  }

  /** A user page mapped is one page less lacking; a kernel page has no frame of its own. */
  lemma MappedSpends(s: Memory, d: int, v: int, t: int, fr: int, perm: int)
    requires Sound(s) && d in s.flat && Owns(s.owner, t, Table(d, v / NENTRIES)) && v !in s.flat[d] && 0 <= perm < PGSIZE
    ensures Spends(s, MappedPage(s, d, v, t, fr, perm), d, {v}, if v < KERNPAGE then 1 else 0)
  {
    var s' := MappedPage(s, d, v, t, fr, perm);
    hide Users, Conserved, Refines, FrameOf, Present, Linked, Entry;
    assert Owns(s.owner, d, Dir(d));
    forall k ensures Word(s'.mem, d, k) == Word(s.mem, d, k) {
    }
    EntryNotZero(fr, perm);
    hide Sound, LackTables, Word, Put;
    forall p | {v} <= p ensures Slack(s', d, p) == Slack(s, d, p) + if v < KERNPAGE then 1 else 0 {
      SameLack(s, s', d, p);
      assert v in p;
      forall u ensures u in LackPages(s', d, p) <==> u in LackPages(s, d, p) && u != v {
      }
      assert LackPages(s', d, p) == LackPages(s, d, p) - {v};
      assert v in LackPages(s, d, p) <==> v < KERNPAGE;
    }
  }

  /** A new, empty directory takes a frame and lacks everything. */
  lemma DirSpace(s: Memory, p: set<int>)
    requires Sound(s) && s.free != []
    ensures Slack(WithDir(s), s.free[0], p) == |s.free| - 1 - |TablesOf(p)| - |set v | v in p && v < KERNPAGE|
  {
    hide Sound;
    var s', d := WithDir(s), s.free[0];
    forall k ensures k in LackTables(s', d, p) <==> k in TablesOf(p) {
      assert Word(s'.mem, d, k) == 0;
    }
    assert LackTables(s', d, p) == TablesOf(p);
    assert LackPages(s', d, p) == set v | v in p && v < KERNPAGE;
  }

  /** Without a free frame, what lacks a table or a page cannot be mapped. */
  lemma OutOfFrames(s: Memory, d: int, p: set<int>, v: int)
    requires s.free == [] && v in p
    ensures var table, page := !Present(Word(s.mem, d, v / NENTRIES)), v < KERNPAGE && !(d in s.flat && v in s.flat[d]);
      Slack(s, d, p) <= 0 - (if table then 1 else 0) - (if page then 1 else 0)
  {
    hide Word, Present, TablesOf;
    TableIn(p, v);
    if !Present(Word(s.mem, d, v / NENTRIES)) {
      assert v / NENTRIES in LackTables(s, d, p);
    }
    if v < KERNPAGE && !(d in s.flat && v in s.flat[d]) {
      assert v in LackPages(s, d, p);
    }
  }

  /** Where all pages are mapped, nothing lacks. */
  lemma AllMapped(s: Memory, d: int, p: set<int>)
    requires Sound(s) && d in s.flat && forall v :: v in p ==> 0 <= v < NPAGES && v in s.flat[d]
    ensures Slack(s, d, p) == |s.free|
  {
    hide Sound, Word, Present;
    forall k | k in TablesOf(p) ensures Present(Word(s.mem, d, k)) {
      var v :| v in p && v / NENTRIES == k;
      if !Present(Word(s.mem, d, k)) {
        NothingFound(s, d, k, v);
      }
    }
    assert LackTables(s, d, p) == {};
    assert LackPages(s, d, p) == {};
  }

  /** How many of the pages from v on are user pages. */
  function UserPages(v: int, done: nat): int {
    if v + done <= KERNPAGE then done else if v >= KERNPAGE then 0 else KERNPAGE - v
  }

  lemma RangeStart(s: Memory, d: int, v: int)
    ensures Spends(s, s, d, Range(v, v + 0), UserPages(v, 0))
  {
    hide Slack;
  }

  // One iteration of mappages: walkpgdir and the assignment to the entry.
  lemma RangeStep(s0: Memory, s1: Memory, s2: Memory, s3: Memory, d: int, v: int, done: nat)
    requires Spends(s0, s1, d, Range(v, v + done), UserPages(v, done))
    requires Spends(s1, s2, d, {v + done}, 0) && Spends(s2, s3, d, {v + done}, if v + done < KERNPAGE then 1 else 0)
    ensures Spends(s0, s3, d, Range(v, v + done + 1), UserPages(v, done + 1))
  {
    hide Spends;
    var r := Range(v, v + done + 1);
    SpendsMore(s0, s1, s2, d, r, Range(v, v + done), {v + done}, UserPages(v, done), 0);
    SpendsMore(s0, s2, s3, d, r, r, {v + done}, UserPages(v, done), if v + done < KERNPAGE then 1 else 0);
  }

  /** There are too few frames for mapping page v, whatever else is to be mapped with it. */
  ghost predicate TooFew(s: Memory, d: int, v: int) {
    forall p :: v in p ==> Slack(s, d, p) < 0
  }

  lemma NoFrame(s: Memory, d: int, v: int)
    requires s.free == [] && v < KERNPAGE && d in s.flat && v !in s.flat[d]
    ensures TooFew(s, d, v)
  {
    hide Slack;
    forall p | v in p ensures Slack(s, d, p) < 0 {
      OutOfFrames(s, d, p, v);
    }
  }

  // kalloc of a frame for user page v and mappages of the page: both, or too few frames.
  lemma PageSpends(s: Memory, s2: Memory, d: int, v: int, page: seq<int>, ok: bool, done: nat)
    requires Sound(s) && s.free != [] && d in s.flat && v !in s.flat[d] && v < KERNPAGE && done == (if ok then 1 else 0)
    requires Spends(Taken(s, page, Held), s2, d, Range(v, v + done), UserPages(v, done))
    requires !ok ==> s2.free == [] && s2.flat == s.flat && !Present(Word(s2.mem, d, v / NENTRIES))
    ensures ok ==> Spends(s, s2, d, {v}, 0)
    ensures !ok ==> TooFew(s, d, v)
  {
    hide Sound, Spends, Taken, TooFew, Slack, Present, Word;
    TakenSpends(s, d, page);
    SpendsMore(s, Taken(s, page, Held), s2, d, Range(v, v + done), {}, Range(v, v + done), -1, UserPages(v, done));
    if ok {
      assert Range(v, v + done) == {v};
    } else {
      NowTooFew(s, s2, d, v);
    }
  }

  lemma NowTooFew(s: Memory, s2: Memory, d: int, v: int)
    requires Spends(s, s2, d, Range(v, v + 0), -1) && s2.free == [] && !Present(Word(s2.mem, d, v / NENTRIES))
    requires v < KERNPAGE && d in s2.flat && v !in s2.flat[d]
    ensures TooFew(s, d, v)
  {
    hide Slack, Present, Word;
    forall p | v in p ensures Slack(s, d, p) < 0 {
      OutOfFrames(s2, d, p, v);
      assert Range(v, v + 0) <= p;
      assert Slack(s2, d, p) == Slack(s, d, p) - 1;
    }
  }
}
