/** Inode files (fs.c) on values: block addresses, the bitmap, and the bytes of a file,
    with the invariant that every operation keeps. */
module Files {

  const BSIZE: int := 512
  const NDIRECT: int := 12
  const NINDIRECT: int := 128            // BSIZE / sizeof(uint)
  const MAXFILE: int := 140              // NDIRECT + NINDIRECT
  const INDIRECT: int := 140             // the slot of the indirect block itself
  const UINT_LIMIT: int := 0x1_0000_0000

  datatype Option<T> = None | Some(value: T)

  /** The cached copy of a disk inode: size in bytes, NDIRECT + 1 block addresses, 0 for none. */
  datatype Inode = Inode(size: int, addrs: seq<int>)

  /** Block contents, the set of blocks the bitmap marks, and the inodes. */
  datatype FsState = FsState(data: map<int, seq<int>>, used: set<int>, ino: map<int, Inode>)

  function Zeroes(): (b: seq<int>)
    ensures |b| == BSIZE
  {
    seq(BSIZE, _ => 0)
  }

  function Get(data: map<int, seq<int>>, b: int): (r: seq<int>)
    ensures |r| == BSIZE
  {
    if b in data && |data[b]| == BSIZE then data[b] else Zeroes()
  }

  // ---------------------------------------------------------------- words of the indirect block

  function Word(b: seq<int>, i: int): int {
    if 0 <= i < NINDIRECT && |b| == BSIZE
    then b[4 * i] + 0x100 * b[4 * i + 1] + 0x1_0000 * b[4 * i + 2] + 0x100_0000 * b[4 * i + 3]
    else 0
  }

  function SetWord(b: seq<int>, i: int, w: int): seq<int> {
    if 0 <= i < NINDIRECT && |b| == BSIZE
    then b[4 * i := w % 0x100][4 * i + 1 := w / 0x100 % 0x100]
          [4 * i + 2 := w / 0x1_0000 % 0x100][4 * i + 3 := w / 0x100_0000]
    else b
  }

  lemma LittleEndian(w: int)
    requires 0 <= w < UINT_LIMIT
    ensures w % 0x100 + 0x100 * (w / 0x100 % 0x100) + 0x1_0000 * (w / 0x1_0000 % 0x100) + 0x100_0000 * (w / 0x100_0000) == w
  {
    var a, b, c := w / 0x100, w / 0x1_0000, w / 0x100_0000;
    assert a / 0x100 == b && b / 0x100 == c;
    assert w == 0x100 * a + w % 0x100 && a == 0x100 * b + a % 0x100 && b == 0x100 * c + b % 0x100;
  }

  lemma WordSetWord(b: seq<int>, i: int, w: int, j: int)
    requires |b| == BSIZE && 0 <= i < NINDIRECT && 0 <= j < NINDIRECT && 0 <= w < UINT_LIMIT
    ensures |SetWord(b, i, w)| == BSIZE
    ensures Word(SetWord(b, i, w), j) == if j == i then w else Word(b, j)
  {
    LittleEndian(w);
  }

  lemma WordZeroes(i: int)
    ensures Word(Zeroes(), i) == 0
  {
  }

  // ---------------------------------------------------------------- block maps

  /** The block at slot s of inode i: data block s, or the indirect block at slot INDIRECT; 0 for none. */
  function SlotAddr(fs: FsState, i: int, s: int): int {
    if i !in fs.ino || |fs.ino[i].addrs| != NDIRECT + 1 then 0
    else
      var a := fs.ino[i].addrs;
      if 0 <= s < NDIRECT then a[s]
      else if s == INDIRECT then a[NDIRECT]
      else if a[NDIRECT] == 0 then 0
      else Word(Get(fs.data, a[NDIRECT]), s - NDIRECT)
  }

  predicate IsSlot(s: int) {
    0 <= s <= INDIRECT
  }

  predicate InodesOk(fs: FsState) {
    forall i :: i in fs.ino ==> |fs.ino[i].addrs| == NDIRECT + 1 && 0 <= fs.ino[i].size <= MAXFILE * BSIZE
  }

  /** A data block or indirect block of a file. */
  datatype Slot = Slot(i: int, s: int)

  /** `owner` names the one file and slot of every block that files use. */
  ghost predicate Owned(fs: FsState, owner: map<int, Slot>) {
    && (forall i, s :: i in fs.ino && IsSlot(s) && SlotAddr(fs, i, s) != 0 ==>
          SlotAddr(fs, i, s) in owner && owner[SlotAddr(fs, i, s)] == Slot(i, s))
    && (forall b :: b in owner ==> b in fs.used && b != 0 && owner[b].i in fs.ino && IsSlot(owner[b].s))
    && (forall b :: b in owner ==> SlotAddr(fs, owner[b].i, owner[b].s) == b)
  }

  predicate NoHole(fs: FsState, i: int, s: int) {
    i in fs.ino && s * BSIZE < fs.ino[i].size ==> SlotAddr(fs, i, s) != 0
  }

  ghost predicate NoHoles(fs: FsState) {
    forall i, s :: 0 <= s < MAXFILE ==> NoHole(fs, i, s)
  }

  /** The bitmap marks block 0 and nothing at or past the end of the disk. */
  predicate BitmapOk(fs: FsState, limit: int) {
    && 0 in fs.used && limit <= UINT_LIMIT
    && forall b :: b in fs.used ==> 0 <= b < limit
  }

  ghost predicate Wf(fs: FsState, owner: map<int, Slot>, limit: int) {
    InodesOk(fs) && Owned(fs, owner) && NoHoles(fs) && BitmapOk(fs, limit)
  }

  // ---------------------------------------------------------------- attaching a fresh block

  /** balloc's block b, zeroed and marked, entered at slot s of inode i. */
  function Attach(fs: FsState, i: int, s: int, b: int): FsState {
    var marked := fs.(used := fs.used + {b}, data := fs.data[b := Zeroes()]);
    if i !in fs.ino || |fs.ino[i].addrs| != NDIRECT + 1 then marked
    else
      var n := fs.ino[i];
      if 0 <= s < NDIRECT then marked.(ino := fs.ino[i := n.(addrs := n.addrs[s := b])])
      else if s == INDIRECT then marked.(ino := fs.ino[i := n.(addrs := n.addrs[NDIRECT := b])])
      else marked.(data := marked.data[n.addrs[NDIRECT] := SetWord(Get(marked.data, n.addrs[NDIRECT]), s - NDIRECT, b)])
  }

  /** What balloc and bmap rely on before b goes to slot s of inode i. */
  ghost predicate Attachable(fs: FsState, owner: map<int, Slot>, limit: int, i: int, s: int, b: int) {
    && Wf(fs, owner, limit)
    && i in fs.ino && IsSlot(s) && SlotAddr(fs, i, s) == 0
    && 0 < b < limit && b !in fs.used
    && (NDIRECT <= s < MAXFILE ==> SlotAddr(fs, i, INDIRECT) != 0)
  }

  lemma AttachAddr(fs: FsState, owner: map<int, Slot>, limit: int, i: int, s: int, b: int, j: int, t: int)
    requires Attachable(fs, owner, limit, i, s, b) && j in fs.ino && IsSlot(t)
    ensures SlotAddr(Attach(fs, i, s, b), j, t) == if j == i && t == s then b else SlotAddr(fs, j, t)
  {
    hide NoHoles, Word, SetWord;
    var fs' := Attach(fs, i, s, b);
    var ind := SlotAddr(fs, j, INDIRECT);
    assert ind != 0 ==> ind in owner && owner[ind] == Slot(j, INDIRECT);
    assert ind != b;
    if NDIRECT <= s < MAXFILE {
      var own := SlotAddr(fs, i, INDIRECT);
      assert own in owner && owner[own] == Slot(i, INDIRECT);
      if NDIRECT <= t < MAXFILE {
        WordSetWord(Get(fs.data, own), s - NDIRECT, b, t - NDIRECT);
      }
    } else if NDIRECT <= t < MAXFILE {
      WordZeroes(t - NDIRECT);
    }
  }

  lemma AttachKeepsShape(fs: FsState, i: int, s: int, b: int)
    requires InodesOk(fs)
    ensures InodesOk(Attach(fs, i, s, b)) && Attach(fs, i, s, b).ino.Keys == fs.ino.Keys
    ensures forall j :: j in fs.ino ==> Attach(fs, i, s, b).ino[j].size == fs.ino[j].size
    ensures Attach(fs, i, s, b).used == fs.used + {b}
  {
    hide SetWord;
  }

  lemma AttachOwned(fs: FsState, owner: map<int, Slot>, limit: int, i: int, s: int, b: int)
    requires Attachable(fs, owner, limit, i, s, b)
    ensures Owned(Attach(fs, i, s, b), owner[b := Slot(i, s)])
  {
    var fs', owner' := Attach(fs, i, s, b), owner[b := Slot(i, s)];
    AttachKeepsShape(fs, i, s, b);
    hide Attach, SlotAddr, NoHoles;
    forall j, t | j in fs'.ino && IsSlot(t) && SlotAddr(fs', j, t) != 0
      ensures SlotAddr(fs', j, t) in owner' && owner'[SlotAddr(fs', j, t)] == Slot(j, t)
    {
      AttachAddr(fs, owner, limit, i, s, b, j, t);
    }
    forall c | c in owner' ensures SlotAddr(fs', owner'[c].i, owner'[c].s) == c {
      AttachAddr(fs, owner, limit, i, s, b, owner'[c].i, owner'[c].s);
    }
  }

  lemma AttachWf(fs: FsState, owner: map<int, Slot>, limit: int, i: int, s: int, b: int)
    requires Attachable(fs, owner, limit, i, s, b)
    ensures Wf(Attach(fs, i, s, b), owner[b := Slot(i, s)], limit)
  {
    var fs' := Attach(fs, i, s, b);
    AttachKeepsShape(fs, i, s, b);
    AttachOwned(fs, owner, limit, i, s, b);
    hide Attach, SlotAddr, Owned;
    forall j, t | 0 <= t < MAXFILE ensures NoHole(fs', j, t) {
      assert NoHole(fs, j, t);
      if j in fs.ino {
        AttachAddr(fs, owner, limit, i, s, b, j, t);
      }
    }
  }

  // ---------------------------------------------------------------- bytes of a file

  /** Byte k of file i, as its block map says; 0 past the blocks it has. */
  function ByteAt(fs: FsState, i: int, k: int): int {
    Get(fs.data, SlotAddr(fs, i, k / BSIZE))[k % BSIZE]
  }

  function Content(fs: FsState, i: int): seq<int> {
    if i in fs.ino && fs.ino[i].size >= 0 then seq(fs.ino[i].size, k => ByteAt(fs, i, k)) else []
  }

  /** A new block changes no byte of any file, and reads as zeroes. */
  lemma AttachBytes(fs: FsState, owner: map<int, Slot>, limit: int, i: int, s: int, b: int, j: int, k: int)
    requires Attachable(fs, owner, limit, i, s, b) && j in fs.ino && 0 <= k < MAXFILE * BSIZE
    requires SlotAddr(fs, j, k / BSIZE) != 0
    ensures ByteAt(Attach(fs, i, s, b), j, k) == ByteAt(fs, j, k)
  {
    var t := k / BSIZE;
    var a := SlotAddr(fs, j, t);
    AttachAddr(fs, owner, limit, i, s, b, j, t);
    assert a in owner && owner[a] == Slot(j, t) && a != b;
    var ind := SlotAddr(fs, i, INDIRECT);
    assert ind != 0 ==> ind in owner && owner[ind] == Slot(i, INDIRECT);
    assert a != ind;
    assert Get(Attach(fs, i, s, b).data, a) == Get(fs.data, a) by {
      hide Word, SetWord, NoHoles, Owned;
    }
    hide Attach, SlotAddr, Get;
  }

  // ---------------------------------------------------------------- writing into a block

  function Splice(c: seq<int>, at: int, bytes: seq<int>): seq<int> {
    if 0 <= at <= |c| then
      c[..at] + bytes + (if at + |bytes| <= |c| then c[at + |bytes|..] else [])
    else c
  }

  /** memmove of bytes into the buffer of block a. */
  function WriteInto(fs: FsState, a: int, at: int, bytes: seq<int>): FsState {
    fs.(data := fs.data[a := Splice(Get(fs.data, a), at, bytes)])
  }

  ghost predicate Writable(fs: FsState, owner: map<int, Slot>, limit: int, i: int, s: int, at: int, bytes: seq<int>) {
    && Wf(fs, owner, limit)
    && i in fs.ino && 0 <= s < MAXFILE && SlotAddr(fs, i, s) != 0
    && 0 <= at && at + |bytes| <= BSIZE
  }

  lemma WriteAddr(fs: FsState, owner: map<int, Slot>, limit: int, i: int, s: int, at: int, bytes: seq<int>, j: int, t: int)
    requires Writable(fs, owner, limit, i, s, at, bytes) && IsSlot(t)
    ensures SlotAddr(WriteInto(fs, SlotAddr(fs, i, s), at, bytes), j, t) == SlotAddr(fs, j, t)
  {
    hide NoHoles, Word, Splice;
    if j in fs.ino {
      var ind, a := SlotAddr(fs, j, INDIRECT), SlotAddr(fs, i, s);
      assert ind != 0 ==> ind in owner && owner[ind] == Slot(j, INDIRECT);
      assert a in owner && owner[a] == Slot(i, s);
      assert ind != a;
    }
  }

  lemma WriteWf(fs: FsState, owner: map<int, Slot>, limit: int, i: int, s: int, at: int, bytes: seq<int>)
    requires Writable(fs, owner, limit, i, s, at, bytes)
    ensures Wf(WriteInto(fs, SlotAddr(fs, i, s), at, bytes), owner, limit)
  {
    var fs' := WriteInto(fs, SlotAddr(fs, i, s), at, bytes);
    forall j, t | IsSlot(t) ensures SlotAddr(fs', j, t) == SlotAddr(fs, j, t) {
      WriteAddr(fs, owner, limit, i, s, at, bytes, j, t);
    }
    hide SlotAddr, Get, Splice;
    forall j, t | 0 <= t < MAXFILE ensures NoHole(fs', j, t) {
      assert NoHole(fs, j, t);
    }
  }

  /** Writing a range of one block changes those bytes of that file and no others of any file. */
  lemma WriteBytes(fs: FsState, owner: map<int, Slot>, limit: int, i: int, s: int, at: int, bytes: seq<int>, j: int, k: int)
    requires Writable(fs, owner, limit, i, s, at, bytes) && j in fs.ino && 0 <= k < MAXFILE * BSIZE
    requires SlotAddr(fs, j, k / BSIZE) != 0
    ensures ByteAt(WriteInto(fs, SlotAddr(fs, i, s), at, bytes), j, k) ==
      if j == i && k / BSIZE == s && at <= k % BSIZE < at + |bytes| then bytes[k % BSIZE - at] else ByteAt(fs, j, k)
  {
    var t := k / BSIZE;
    var a, c := SlotAddr(fs, i, s), SlotAddr(fs, j, t);
    WriteAddr(fs, owner, limit, i, s, at, bytes, j, t);
    assert a in owner && owner[a] == Slot(i, s);
    assert c in owner && owner[c] == Slot(j, t);
    hide NoHoles, Owned, SlotAddr;
  }
}
