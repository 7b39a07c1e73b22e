/** The blocks a write needs and the blocks the disk has (fs.c: balloc, bmap): each allocation takes one
    of either, so their difference never changes during a write. */
module FileSpace {
  import opened Files

  function FreeBlocks(fs: FsState, limit: int): set<int> {
    set c | 0 <= c < limit && c !in fs.used
  }

  /** A write to blocks lo..hi of a file goes through slot s: one of these, or the indirect block. */
  predicate Needs(lo: int, hi: int, s: int) {
    lo <= s < hi || (s == INDIRECT && hi > NDIRECT)
  }

  /** The slots that such a write has to allocate. */
  function Missing(fs: FsState, i: int, lo: int, hi: int): set<int> {
    set s | 0 <= s <= INDIRECT && Needs(lo, hi, s) && SlotAddr(fs, i, s) == 0
  }

  predicate Fits(fs: FsState, limit: int, i: int, lo: int, hi: int) {
    |Missing(fs, i, lo, hi)| <= |FreeBlocks(fs, limit)|
  }

  function Slack(fs: FsState, limit: int, i: int, lo: int, hi: int): int {
    |FreeBlocks(fs, limit)| - |Missing(fs, i, lo, hi)|
  }

  // The same slots and the same bitmap.
  lemma SameSlack(fs: FsState, fs': FsState, limit: int, i: int, lo: int, hi: int)
    requires fs'.used == fs.used && forall s :: IsSlot(s) ==> SlotAddr(fs', i, s) == SlotAddr(fs, i, s)
    ensures Slack(fs', limit, i, lo, hi) == Slack(fs, limit, i, lo, hi)
    ensures Missing(fs', i, lo, hi) == Missing(fs, i, lo, hi) && FreeBlocks(fs', limit) == FreeBlocks(fs, limit)
  {
    hide SlotAddr;
    forall s ensures s in Missing(fs', i, lo, hi) <==> s in Missing(fs, i, lo, hi) {
      assert IsSlot(s) ==> SlotAddr(fs', i, s) == SlotAddr(fs, i, s);
    }
    assert Missing(fs', i, lo, hi) == Missing(fs, i, lo, hi);
    assert FreeBlocks(fs', limit) == FreeBlocks(fs, limit);
  }

  /** An allocation takes one free block and fills one slot that was missing. */
  lemma AttachSlack(fs: FsState, owner: map<int, Slot>, limit: int, i: int, s: int, b: int, lo: int, hi: int)
    requires Attachable(fs, owner, limit, i, s, b) && Needs(lo, hi, s)
    ensures Slack(Attach(fs, i, s, b), limit, i, lo, hi) == Slack(fs, limit, i, lo, hi)
  {
    var fs' := Attach(fs, i, s, b);
    assert InodesOk(fs);
    AttachKeepsShape(fs, i, s, b);
    forall t | IsSlot(t) ensures SlotAddr(fs', i, t) == if t == s then b else SlotAddr(fs, i, t) {
      AttachAddr(fs, owner, limit, i, s, b, i, t);
    }
    hide Wf, Attach, SlotAddr;
    forall t ensures t in Missing(fs', i, lo, hi) <==> t in Missing(fs, i, lo, hi) - {s} {
      assert IsSlot(t) ==> SlotAddr(fs', i, t) == if t == s then b else SlotAddr(fs, i, t);
    }
    assert Missing(fs', i, lo, hi) == Missing(fs, i, lo, hi) - {s} && s in Missing(fs, i, lo, hi);
    forall c ensures c in FreeBlocks(fs', limit) <==> c in FreeBlocks(fs, limit) - {b} {
    }
    assert FreeBlocks(fs', limit) == FreeBlocks(fs, limit) - {b} && b in FreeBlocks(fs, limit);
  }

  lemma WriteSlack(fs: FsState, owner: map<int, Slot>, limit: int, i: int, s: int, at: int, bytes: seq<int>, lo: int, hi: int)
    requires Writable(fs, owner, limit, i, s, at, bytes)
    ensures Slack(WriteInto(fs, SlotAddr(fs, i, s), at, bytes), limit, i, lo, hi) == Slack(fs, limit, i, lo, hi)
  {
    var fs' := WriteInto(fs, SlotAddr(fs, i, s), at, bytes);
    forall t | IsSlot(t) ensures SlotAddr(fs', i, t) == SlotAddr(fs, i, t) {
      WriteAddr(fs, owner, limit, i, s, at, bytes, i, t);
    }
    hide Writable, SlotAddr, Splice, Get;
    SameSlack(fs, fs', limit, i, lo, hi);
  }

  lemma SizeSlack(fs: FsState, n: Inode, limit: int, i: int, lo: int, hi: int)
    requires i in fs.ino && n.addrs == fs.ino[i].addrs
    ensures Slack(fs.(ino := fs.ino[i := n]), limit, i, lo, hi) == Slack(fs, limit, i, lo, hi)
  {
    SameSlack(fs, fs.(ino := fs.ino[i := n]), limit, i, lo, hi);
  }

  /** A full disk cannot take a write that needs a block. */
  lemma FullDoesNotFit(fs: FsState, limit: int, i: int, lo: int, hi: int, s: int)
    requires FreeBlocks(fs, limit) == {} && IsSlot(s) && Needs(lo, hi, s) && SlotAddr(fs, i, s) == 0
    ensures Slack(fs, limit, i, lo, hi) < 0
  {
    hide SlotAddr;
    assert s in Missing(fs, i, lo, hi);
  }

  /** Where all blocks are there, nothing is missing. */
  lemma MappedFits(fs: FsState, limit: int, i: int, lo: int, hi: int)
    requires 0 <= lo < hi <= MAXFILE && forall s :: lo <= s < hi ==> SlotAddr(fs, i, s) != 0
    ensures Missing(fs, i, lo, hi) == {} && Slack(fs, limit, i, lo, hi) >= 0
  {
    assert SlotAddr(fs, i, hi - 1) != 0;
    assert hi > NDIRECT ==> SlotAddr(fs, i, INDIRECT) != 0;
    hide SlotAddr;
    forall s ensures s !in Missing(fs, i, lo, hi) {
    }
    assert Missing(fs, i, lo, hi) == {};
  }

  /** The files other than i have their blocks where they had them. */
  ghost predicate SlotsKept(fs: FsState, fs': FsState, i: int) {
    forall j, t :: j != i && IsSlot(t) ==> SlotAddr(fs', j, t) == SlotAddr(fs, j, t)
  }

  lemma SlotsKeptTrans(a: FsState, b: FsState, c: FsState, i: int)
    requires SlotsKept(a, b, i) && SlotsKept(b, c, i)
    ensures SlotsKept(a, c, i)
  {
    hide SlotAddr;
    forall j, t | j != i && IsSlot(t) ensures SlotAddr(c, j, t) == SlotAddr(a, j, t) {
      assert SlotAddr(b, j, t) == SlotAddr(a, j, t);
    }
  }

  // What another file lacks does not change.
  lemma OthersMissing(fs: FsState, fs': FsState, i: int, j: int, lo: int, hi: int)
    requires SlotsKept(fs, fs', i) && j != i
    ensures Missing(fs', j, lo, hi) == Missing(fs, j, lo, hi)
  {
    hide SlotAddr;
    forall s ensures s in Missing(fs', j, lo, hi) <==> s in Missing(fs, j, lo, hi) {
      assert IsSlot(s) ==> SlotAddr(fs', j, s) == SlotAddr(fs, j, s);
    }
  }

  /** What fs' has left, after the needs of any write to file i that covers blocks lo..hi, is what fs had left. */
  ghost predicate SpaceKept(fs: FsState, fs': FsState, limit: int, i: int, lo: int, hi: int) {
    forall l, h :: 0 <= l <= lo && hi <= h <= MAXFILE ==> Slack(fs', limit, i, l, h) == Slack(fs, limit, i, l, h)
  }

  lemma SpaceKeptSelf(fs: FsState, limit: int, i: int, lo: int, hi: int)
    ensures SpaceKept(fs, fs, limit, i, lo, hi)
  {
  }

  lemma SpaceKeptTrans(a: FsState, b: FsState, c: FsState, limit: int, i: int, lo: int, hi: int, lo': int, hi': int)
    requires SpaceKept(a, b, limit, i, lo, hi) && SpaceKept(b, c, limit, i, lo', hi') && lo <= lo' && hi' <= hi
    ensures SpaceKept(a, c, limit, i, lo, hi)
  {
    hide Slack;
    forall l, h | 0 <= l <= lo && hi <= h <= MAXFILE ensures Slack(c, limit, i, l, h) == Slack(a, limit, i, l, h) {
      assert Slack(b, limit, i, l, h) == Slack(a, limit, i, l, h);
    }
  }

  lemma AttachSpace(fs: FsState, owner: map<int, Slot>, limit: int, i: int, s: int, b: int, bn: int)
    requires Attachable(fs, owner, limit, i, s, b) && (s == bn || (s == INDIRECT && bn >= NDIRECT))
    ensures SpaceKept(fs, Attach(fs, i, s, b), limit, i, bn, bn + 1)
  {
    hide Attachable, Attach, Slack;
    forall l, h | 0 <= l <= bn && bn + 1 <= h <= MAXFILE
      ensures Slack(Attach(fs, i, s, b), limit, i, l, h) == Slack(fs, limit, i, l, h)
    {
      AttachSlack(fs, owner, limit, i, s, b, l, h);
    }
  }

  lemma WriteSpace(fs: FsState, owner: map<int, Slot>, limit: int, i: int, s: int, at: int, bytes: seq<int>, lo: int, hi: int)
    requires Writable(fs, owner, limit, i, s, at, bytes)
    ensures SpaceKept(fs, WriteInto(fs, SlotAddr(fs, i, s), at, bytes), limit, i, lo, hi)
  {
    hide Writable, WriteInto, SlotAddr, Slack;
    forall l, h | 0 <= l <= lo && hi <= h <= MAXFILE
      ensures Slack(WriteInto(fs, SlotAddr(fs, i, s), at, bytes), limit, i, l, h) == Slack(fs, limit, i, l, h)
    {
      WriteSlack(fs, owner, limit, i, s, at, bytes, l, h);
    }
  }

  lemma SizeSpace(fs: FsState, n: Inode, limit: int, i: int, lo: int, hi: int)
    requires i in fs.ino && n.addrs == fs.ino[i].addrs
    ensures SpaceKept(fs, fs.(ino := fs.ino[i := n]), limit, i, lo, hi)
  {
    hide Slack;
    forall l, h | 0 <= l <= lo && hi <= h <= MAXFILE
      ensures Slack(fs.(ino := fs.ino[i := n]), limit, i, l, h) == Slack(fs, limit, i, l, h)
    {
      SizeSlack(fs, n, limit, i, l, h);
    }
  }
}
