/** filewrite's chunks (file.c): each is one transaction of at most seven blocks, and
    together they are one splice of the file. */
module FileWrite {
  import opened Files
  import opened FileSpace
  import opened FileSystem

  lemma {:induction false} SubsetSize<T>(a: set<T>, b: set<T>)
    requires a <= b
    ensures |a| <= |b|
  {
    if a != {} {
      var x :| x in a;
      SubsetSize(a - {x}, b - {x});
    }
  }

  /** With one bitmap block, a chunk logs at most four data blocks, the indirect block, the
      bitmap block and the inode's block. */
  lemma ChunkLogsSeven(fs: FsState, limit: int, i: int, off: int, n: int, logged: set<LogBlock>)
    requires limit <= BPB && 0 <= off && 1 <= n <= CHUNK
    requires forall x :: x in logged ==> Touched(fs, limit, i, off / BSIZE, (off + n - 1) / BSIZE + 1, x)
    ensures |logged| <= 7
  {
    hide SlotAddr, Touched;
    var lo, hi := off / BSIZE, (off + n - 1) / BSIZE + 1;
    assert hi <= lo + 4;
    var three := {Bitmap(0), Inodes(i / IPB), Data(SlotAddr(fs, i, INDIRECT))};
    var four := {Data(SlotAddr(fs, i, lo)), Data(SlotAddr(fs, i, lo + 1)),
                 Data(SlotAddr(fs, i, lo + 2)), Data(SlotAddr(fs, i, lo + 3))};
    forall x | x in logged ensures x in three + four {
      OneOfSeven(fs, limit, i, lo, hi, x);
    }
    SubsetSize(logged, three + four);
  }

  lemma OneOfSeven(fs: FsState, limit: int, i: int, lo: int, hi: int, x: LogBlock)
    requires limit <= BPB && hi <= lo + 4 && Touched(fs, limit, i, lo, hi, x)
    ensures || x in {Bitmap(0), Inodes(i / IPB), Data(SlotAddr(fs, i, INDIRECT))}
            || x in {Data(SlotAddr(fs, i, lo)), Data(SlotAddr(fs, i, lo + 1)),
                     Data(SlotAddr(fs, i, lo + 2)), Data(SlotAddr(fs, i, lo + 3))}
  {
    hide SlotAddr;
    match x
    case Bitmap(k) => assert k == 0;
    case Inodes(k) =>
    case Data(b) =>
      if b != SlotAddr(fs, i, INDIRECT) {
        var s :| lo <= s < hi && SlotAddr(fs, i, s) == b;
        assert s == lo || s == lo + 1 || s == lo + 2 || s == lo + 3;
      }
  }

  /** Writing a and then b behind it is writing both. */
  lemma SpliceTwice(c: seq<int>, off: int, a: seq<int>, b: seq<int>)
    requires 0 <= off <= |c|
    ensures Splice(Splice(c, off, a), off + |a|, b) == Splice(c, off, a + b)
  {
  }

  /** What was written is what is read back. */
  lemma ReadBack(c: seq<int>, off: int, src: seq<int>)
    requires 0 <= off <= |c|
    ensures Clip(Splice(c, off, src), off, |src|) == src
    ensures forall k, n :: 0 <= k && 0 <= n && k + n <= off ==> Clip(Splice(c, off, src), k, n) == Clip(c, k, n)
  {
    forall k, n | 0 <= k && 0 <= n && k + n <= off ensures Clip(Splice(c, off, src), k, n) == Clip(c, k, n) {
    }
  }

  lemma SplicedTwice(fs0: FsState, fs1: FsState, fs2: FsState, i: int, off: int, a: seq<int>, b: seq<int>)
    requires Spliced(fs0, fs1, i, off, a) && Spliced(fs1, fs2, i, off + |a|, b)
    requires 0 <= off <= |Content(fs0, i)| && i in fs0.ino
    ensures Spliced(fs0, fs2, i, off, a + b)
  {
    hide Content;
    SpliceTwice(Content(fs0, i), off, a, b);
  }

  lemma SplicedNothing(fs: FsState, i: int, off: int)
    requires 0 <= off
    ensures off <= |Content(fs, i)| ==> Spliced(fs, fs, i, off, [])
  {
    assert off <= |Content(fs, i)| ==> Splice(Content(fs, i), off, []) == Content(fs, i);
  }

  /** The file after `done` bytes of addr: spliced in, or, when offset leaves a gap, as it was. */
  ghost predicate Chunked(s0: FsState, fs: FsState, owner: map<int, Slot>, limit: int, i: int,
                          offset: int, addr: seq<int>, done: int) {
    && Wf(fs, owner, limit) && i in s0.ino && i in fs.ino && 0 <= done <= |addr|
    && if offset <= s0.ino[i].size
       then Spliced(s0, fs, i, offset, addr[..done]) && offset + done <= fs.ino[i].size
       else done == 0 && fs == s0
  }

  lemma ChunkedStart(s0: FsState, owner: map<int, Slot>, limit: int, i: int, offset: int, addr: seq<int>)
    requires Wf(s0, owner, limit) && i in s0.ino && 0 <= offset
    ensures Chunked(s0, s0, owner, limit, i, offset, addr, 0)
  {
    Contents(s0, owner, limit, i);
    SplicedNothing(s0, i, offset);
    assert addr[..0] == [];
    hide Wf, Spliced, Content;
  }

  // One more chunk, written where the last one ended.
  lemma ChunkDone(s0: FsState, owner0: map<int, Slot>, s1: FsState, owner1: map<int, Slot>, s2: FsState, owner2: map<int, Slot>,
                  limit: int, i: int, offset: int, addr: seq<int>, done: int, n1: int, logged: set<LogBlock>)
    requires Wf(s0, owner0, limit) && 0 <= offset && 1 <= n1 <= CHUNK && done + n1 <= |addr| && limit <= BPB
    requires Chunked(s0, s1, owner1, limit, i, offset, addr, done)
    requires !Refused(s1.ino[i].size, offset + done, n1)
    requires Wf(s2, owner2, limit) && Wrote(s1, s2, limit, i, offset + done, addr[done..done + n1], {}, logged)
    ensures Chunked(s0, s2, owner2, limit, i, offset, addr, done + n1)
    ensures |logged| <= 7
  {
    assert addr[..done] + addr[done..done + n1] == addr[..done + n1];
    assert i in s2.ino;
    Contents(s0, owner0, limit, i);
    Contents(s2, owner2, limit, i);
    hide Wf, Touched, SlotAddr, ByteAt;
    SplicedTwice(s0, s1, s2, i, offset, addr[..done], addr[done..done + n1]);
    ChunkLogsSeven(s2, limit, i, offset + done, n1, logged);
  }

  /** How many of n bytes filewrite gets into a file from offset on: all of them, or the whole chunks
      that the largest file has room for. */
  function Room(offset: int, n: int): int {
    if offset + n <= MAXFILE * BSIZE then n
    else if offset >= MAXFILE * BSIZE then 0
    else (MAXFILE * BSIZE - offset) / CHUNK * CHUNK
  }

  /** The disk has the blocks that those bytes lack. */
  predicate RoomFits(fs: FsState, limit: int, i: int, offset: int, n: int) {
    Room(offset, n) == 0 || Fits(fs, limit, i, offset / BSIZE, (offset + Room(offset, n) - 1) / BSIZE + 1)
  }

  // writei takes a chunk exactly when the chunk belongs to that room.
  lemma ChunkInRoom(offset: int, n: int, done: int, n1: int)
    requires 0 <= offset && 0 <= done < n && n1 == (if n - done > CHUNK then CHUNK else n - done)
    requires done % CHUNK == 0 && done <= Room(offset, n)
    ensures offset + done + n1 <= MAXFILE * BSIZE <==> done + n1 <= Room(offset, n)
    ensures offset + done + n1 > MAXFILE * BSIZE ==> done == Room(offset, n)
    ensures offset + done + n1 <= MAXFILE * BSIZE ==> done + n1 == n || (done + n1) % CHUNK == 0
  {
    if offset + n > MAXFILE * BSIZE && offset < MAXFILE * BSIZE {
      Multiples(done, MAXFILE * BSIZE - offset);
    }
  }

  lemma Multiples(a: int, b: int)
    requires a % CHUNK == 0 && 0 <= b
    ensures a + CHUNK <= b <==> a + CHUNK <= b / CHUNK * CHUNK
    ensures a <= b / CHUNK * CHUNK < a + CHUNK ==> a == b / CHUNK * CHUNK
    ensures b / CHUNK * CHUNK <= b && (b / CHUNK * CHUNK) % CHUNK == 0
  {
    assert b == b / CHUNK * CHUNK + b % CHUNK && a == a / CHUNK * CHUNK;
  }

  // A full disk that cannot take a part of a write cannot take the write.
  lemma StillUnfit(s0: FsState, fs: FsState, limit: int, i: int, lo: int, hi: int, lo': int, hi': int)
    requires FreeBlocks(fs, limit) == {} && Slack(fs, limit, i, lo', hi') < 0
    requires 0 <= lo <= lo' && hi' <= hi <= MAXFILE && SpaceKept(s0, fs, limit, i, lo, hi)
    ensures !Fits(s0, limit, i, lo, hi)
  {
    hide SlotAddr;
    assert Missing(fs, i, lo', hi') != {};
    var s :| s in Missing(fs, i, lo', hi');
    FullDoesNotFit(fs, limit, i, lo, hi, s);
    assert Slack(fs, limit, i, lo, hi) == Slack(s0, limit, i, lo, hi);
  }

  // A file without holes lacks no block below its size.
  lemma FilledFits(s0: FsState, fs: FsState, owner: map<int, Slot>, limit: int, i: int, offset: int, n: int)
    requires Wf(fs, owner, limit) && i in fs.ino && 0 <= offset && 0 < n && offset + n <= fs.ino[i].size
    requires SpaceKept(s0, fs, limit, i, offset / BSIZE, (offset + n - 1) / BSIZE + 1)
    ensures Fits(s0, limit, i, offset / BSIZE, (offset + n - 1) / BSIZE + 1)
  {
    var lo, hi := offset / BSIZE, (offset + n - 1) / BSIZE + 1;
    assert fs.ino[i].size <= MAXFILE * BSIZE;
    hide Owned, SlotAddr, BitmapOk, InodesOk;
    forall s | lo <= s < hi ensures SlotAddr(fs, i, s) != 0 {
      assert NoHole(fs, i, s);
    }
    hide NoHoles;
    MappedFits(fs, limit, i, lo, hi);
    assert Slack(fs, limit, i, lo, hi) == Slack(s0, limit, i, lo, hi);
  }

  lemma StillShort(s0: FsState, fs: FsState, limit: int, i: int, lo: int, hi: int)
    requires !Fits(s0, limit, i, lo, hi) && SpaceKept(s0, fs, limit, i, lo, hi) && 0 <= lo && hi <= MAXFILE
    ensures Slack(fs, limit, i, lo, hi) < 0
  {
    assert Slack(fs, limit, i, lo, hi) == Slack(s0, limit, i, lo, hi);
  }

  function ChunkLength(n: int, done: int): int {
    if n - done > CHUNK then CHUNK else n - done
  }

  /** What a chunk does to the disk's space: refused it takes none, and with None none is left. */
  ghost predicate ChunkSpace(s0: FsState, s1: FsState, s2: FsState, limit: int, i: int, offset: int, n: int, done: int, r: Option<int>) {
    var lo, hi := (offset + done) / BSIZE, (offset + done + ChunkLength(n, done) - 1) / BSIZE + 1;
    && i in s0.ino
    && (r.Some? && r.value < 0 <==> offset > s0.ino[i].size || offset + done + ChunkLength(n, done) > MAXFILE * BSIZE)
    && (r.Some? && r.value < 0 ==> s2 == s1)
    && SpaceKept(s1, s2, limit, i, lo, hi)
    && (r == None ==> FreeBlocks(s2, limit) == {} && Slack(s2, limit, i, lo, hi) < 0)
  }

  /** How far filewrite is after `done` bytes, and what it took from the disk. */
  ghost predicate Spent(s0: FsState, fs: FsState, limit: int, i: int, offset: int, n: int, done: int, short: bool) {
    var room := Room(offset, n);
    && i in s0.ino
    && if offset > s0.ino[i].size then done == 0
       else
         && done <= room && (done == n || done % CHUNK == 0) && (short ==> done == room)
         && SpaceKept(s0, fs, limit, i, offset / BSIZE, (offset + room - 1) / BSIZE + 1)
  }

  /** The disk ran out: no block is left, and it had too few for what the file has room for. */
  ghost predicate Starved(s0: FsState, fs: FsState, limit: int, i: int, offset: int, n: int) {
    i in s0.ino && offset <= s0.ino[i].size && FreeBlocks(fs, limit) == {} && !RoomFits(s0, limit, i, offset, n)
  }

  lemma SpentStep(s0: FsState, s1: FsState, s2: FsState, limit: int, i: int, offset: int, n: int, done: int, r: Option<int>)
    requires Spent(s0, s1, limit, i, offset, n, done, false) && 0 <= done < n && 0 <= offset
    requires ChunkSpace(s0, s1, s2, limit, i, offset, n, done, r)
    ensures r.Some? && r.value < 0 ==> Spent(s0, s2, limit, i, offset, n, done, true)
    ensures r.Some? && r.value >= 0 ==> Spent(s0, s2, limit, i, offset, n, done + ChunkLength(n, done), false)
    ensures r == None ==> Starved(s0, s2, limit, i, offset, n)
  {
    hide Room, Slack, FreeBlocks, SpaceKept, Fits, Missing;
    if offset <= s0.ino[i].size {
      ChunkInRoom(offset, n, done, ChunkLength(n, done));
      RoomBounds(offset, n);
      var lo, hi := (offset + done) / BSIZE, (offset + done + ChunkLength(n, done) - 1) / BSIZE + 1;
      var room := Room(offset, n);
      if !(r.Some? && r.value < 0) {
        SpaceKeptTrans(s0, s1, s2, limit, i, offset / BSIZE, (offset + room - 1) / BSIZE + 1, lo, hi);
      }
      if r == None {
        StillUnfit(s0, s2, limit, i, offset / BSIZE, (offset + room - 1) / BSIZE + 1, lo, hi);
      }
    }
  }

  lemma SpentStart(s0: FsState, limit: int, i: int, offset: int, n: int)
    requires i in s0.ino && 0 <= offset && 0 <= n
    ensures Spent(s0, s0, limit, i, offset, n, 0, false)
  {
    RoomBounds(offset, n);
    SpaceKeptSelf(s0, limit, i, offset / BSIZE, (offset + Room(offset, n) - 1) / BSIZE + 1);
  }

  lemma SpentEnd(s0: FsState, fs: FsState, owner: map<int, Slot>, limit: int, i: int, offset: int, n: int, done: int, short: bool)
    requires Spent(s0, fs, limit, i, offset, n, done, short) && 0 <= offset && 0 <= n && (short || done >= n)
    requires offset <= s0.ino[i].size ==> Wf(fs, owner, limit) && i in fs.ino && offset + done <= fs.ino[i].size
    ensures offset > s0.ino[i].size ==> done == 0
    ensures offset <= s0.ino[i].size ==> done == Room(offset, n)
    ensures offset <= s0.ino[i].size ==> RoomFits(s0, limit, i, offset, n)
  {
    hide Wf, Room, SpaceKept, Fits;
    RoomBounds(offset, n);
    if offset <= s0.ino[i].size && done > 0 {
      FilledFits(s0, fs, owner, limit, i, offset, done);
    }
  }

  /** One iteration of filewrite: begin_op, writei of at most CHUNK bytes, end_op. */
  method WriteChunk(fs: InodeCache, ghost s0: FsState, ghost owner0: map<int, Slot>, i: int, addr: seq<int>, offset: int, done: int)
    returns (r: Option<int>)
    requires Wf(s0, owner0, fs.limit) && fs.dino == fs.ino && fs.limit <= BPB
    requires 0 <= offset < UINT_LIMIT - |addr| && 0 <= done < |addr| < UINT_LIMIT
    requires Chunked(s0, fs.State(), fs.owner, fs.limit, i, offset, addr, done)
    requires Spent(s0, fs.State(), fs.limit, i, offset, |addr|, done, false)
    modifies fs
    ensures r.Some? ==> fs.dino == fs.ino && |fs.logged| <= 7
    ensures r.Some? && r.value < 0 ==>
      && Chunked(s0, fs.State(), fs.owner, fs.limit, i, offset, addr, done)
      && Spent(s0, fs.State(), fs.limit, i, offset, |addr|, done, true)
    ensures r.Some? && r.value >= 0 ==>
      && r.value == ChunkLength(|addr|, done)
      && Chunked(s0, fs.State(), fs.owner, fs.limit, i, offset, addr, done + r.value)
      && Spent(s0, fs.State(), fs.limit, i, offset, |addr|, done + r.value, false)
    ensures r == None ==> Starved(s0, fs.State(), fs.limit, i, offset, |addr|)
  {
    hide Wf, Spliced, Content, Wrote, Touched, SlotAddr, Splice, Slack, FreeBlocks, SpaceKept, Spent, Starved;
    var n1 := |addr| - done;
    if n1 > CHUNK {
      n1 := CHUNK;
    }
    fs.logged := {};                    // begin_op
    ghost var s1, owner1 := fs.State(), fs.owner;
    r := fs.Writei(i, addr[done..done + n1], offset + done);
    if r.Some? && r.value >= 0 {
      ChunkDone(s0, owner0, s1, owner1, fs.State(), fs.owner, fs.limit, i, offset, addr, done, n1, fs.logged);
    } else if r == None {
      StillShort(s1, fs.State(), fs.limit, i, (offset + done) / BSIZE, (offset + done + n1 - 1) / BSIZE + 1);
    }
    SpentStep(s0, s1, fs.State(), fs.limit, i, offset, |addr|, done, r);
  }

  /** filewrite on an inode file. `written` counts the bytes that reached the file, `worst` the
      most blocks a transaction logged; r is n or -1, None the "out of blocks" panic, which comes
      exactly when the disk lacks blocks for what the file has room for. */
  method FileWrite(fs: InodeCache, i: int, addr: seq<int>, offset: int)
    returns (r: Option<int>, off: int, ghost written: int, ghost worst: int)
    requires fs.Valid() && i in fs.ino && fs.dino == fs.ino && fs.limit <= BPB
    requires 0 <= offset < UINT_LIMIT - |addr| && |addr| < UINT_LIMIT
    modifies fs
    ensures r.Some? ==> fs.Valid() && fs.dino == fs.ino && i in fs.ino && worst <= 7
    ensures r.Some? ==> 0 <= written <= |addr| && off == offset + written
    ensures r.Some? ==> r.value == if written == |addr| then |addr| else -1
    ensures r.Some? && offset <= old(fs.ino[i].size) ==>
      Spliced(old(fs.State()), fs.State(), i, offset, addr[..written])
    ensures r.Some? && offset > old(fs.ino[i].size) ==> written == 0 && fs.State() == old(fs.State())
    ensures r.Some? && offset <= old(fs.ino[i].size) ==> written == Room(offset, |addr|)
    ensures r.Some? <==> offset > old(fs.ino[i].size) || RoomFits(old(fs.State()), fs.limit, i, offset, |addr|)
    ensures r == None ==> FreeBlocks(fs.State(), fs.limit) == {}
  {
    ghost var s0, owner0 := fs.State(), fs.owner;
    ChunkedStart(s0, owner0, fs.limit, i, offset, addr);
    assert Wf(s0, owner0, fs.limit);
    var done := 0;
    off, worst := offset, 0;
    hide Wf, Chunked, Spliced, Spent, Room, FreeBlocks, RoomFits;
    SpentStart(s0, fs.limit, i, offset, |addr|);
    var short := false;
    while done < |addr| && !short
      invariant 0 <= done <= |addr| && off == offset + done && worst <= 7
      invariant fs.dino == fs.ino && Chunked(s0, fs.State(), fs.owner, fs.limit, i, offset, addr, done)
      invariant Spent(s0, fs.State(), fs.limit, i, offset, |addr|, done, short)
      decreases |addr| - done, !short
    {
      var w := WriteChunk(fs, s0, owner0, i, addr, offset, done);
      if w == None {
        return None, off, done, worst;
      }
      worst := if |fs.logged| > worst then |fs.logged| else worst;
      if w.value > 0 {
        off := off + w.value;
      }
      if w.value < 0 {
        short := true;
      } else {
        done := done + w.value;
      }
    }
    written := done;
    ChunkedEnd(s0, fs.State(), fs.owner, fs.limit, i, offset, addr, done);
    SpentEnd(s0, fs.State(), fs.owner, fs.limit, i, offset, |addr|, done, short);
    r := Some(if done == |addr| then |addr| else -1);
  }

  lemma RoomBounds(offset: int, n: int)
    requires 0 <= offset && 0 <= n
    ensures 0 <= Room(offset, n) <= n
    ensures Room(offset, n) > 0 ==> offset + Room(offset, n) <= MAXFILE * BSIZE
    ensures Room(offset, n) == n || Room(offset, n) % CHUNK == 0
  {
  }

  lemma ChunkedEnd(s0: FsState, fs: FsState, owner: map<int, Slot>, limit: int, i: int, offset: int, addr: seq<int>, done: int)
    requires Chunked(s0, fs, owner, limit, i, offset, addr, done)
    ensures Wf(fs, owner, limit) && i in s0.ino && i in fs.ino && 0 <= done <= |addr|
    ensures offset <= s0.ino[i].size ==> Spliced(s0, fs, i, offset, addr[..done])
    ensures offset > s0.ino[i].size ==> done == 0 && fs == s0
    ensures offset <= s0.ino[i].size ==> offset + done <= fs.ino[i].size
  {
    hide Wf, Spliced;
  }
}
