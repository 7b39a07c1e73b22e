/** balloc, bmap, readi, writei, iupdate and itrunc (fs.c), and the chunking of filewrite
    (file.c), as loops over the cached inode, the bitmap and the block buffers. */
module FileSystem {
  import opened Files
  import opened FileSpace

  const BPB: int := 4096                 // bitmap bits per block
  const IPB: int := 8                    // inodes per block
  const CHUNK: int := 1536               // ((MAXOPBLOCKS - 1 - 1 - 2) / 2) * 512

  /** A block handed to log_write: of the bitmap, of the inode table, or of the data area. */
  datatype LogBlock = Bitmap(n: int) | Inodes(n: int) | Data(b: int)

  /** fs' has every block of fs in its place, with its bytes, and new blocks only at slots
      bn and INDIRECT of inode i. */
  ghost predicate Extends(fs: FsState, fs': FsState, i: int, bn: int) {
    && fs'.ino.Keys == fs.ino.Keys
    && (forall j :: j in fs.ino ==> fs'.ino[j].size == fs.ino[j].size && (j != i ==> fs'.ino[j] == fs.ino[j]))
    && (forall j, t :: j in fs.ino && IsSlot(t) && SlotAddr(fs, j, t) != 0 ==> SlotAddr(fs', j, t) == SlotAddr(fs, j, t))
    && (forall j, t :: j in fs.ino && IsSlot(t) && SlotAddr(fs, j, t) == 0 && !(j == i && (t == bn || t == INDIRECT)) ==>
          SlotAddr(fs', j, t) == 0)
    && (forall j, k :: j in fs.ino && 0 <= k < MAXFILE * BSIZE && SlotAddr(fs, j, k / BSIZE) != 0 ==>
          ByteAt(fs', j, k) == ByteAt(fs, j, k))
  }

  class InodeCache {
    const limit: int                     // sb.size
    var data: map<int, seq<int>>
    var used: set<int>
    var ino: map<int, Inode>             // cached inodes
    var dino: map<int, Inode>            // the same inodes on disk
    ghost var owner: map<int, Slot>
    ghost var logged: set<LogBlock>      // log_write'n since begin_op

    ghost function State(): FsState
      reads this
    {
      FsState(data, used, ino)
    }

    ghost predicate Valid()
      reads this
    {
      Wf(State(), owner, limit)
    }

    constructor (limit: int, data: map<int, seq<int>>, used: set<int>, ino: map<int, Inode>, ghost owner: map<int, Slot>)
      requires Wf(FsState(data, used, ino), owner, limit)
      ensures Valid() && this.limit == limit && State() == FsState(data, used, ino)
      ensures this.owner == owner && dino == ino && logged == {}
    {
      this.limit := limit;
      this.data, this.used, this.ino, this.dino := data, used, ino, ino;
      this.owner, logged := owner, {};
    }

    /** The first free block, marked and zeroed; None stands for the "out of blocks" panic. */
    method Balloc() returns (r: Option<int>)
      requires BitmapOk(State(), limit)
      modifies this`data, this`used, this`logged
      ensures r == None ==> State() == old(State()) && logged == old(logged)
      ensures r == None ==> forall c :: 0 <= c < limit ==> c in used
      ensures r.Some? ==> var b := r.value;
        && 0 < b < limit && b !in old(used)
        && (forall c :: 0 <= c < b ==> c in old(used))
        && used == old(used) + {b} && data == old(data)[b := Zeroes()]
        && logged == old(logged) + {Bitmap(b / BPB), Data(b)}
    {
      var b := 0;
      while b < limit
        invariant 0 <= b && forall c :: 0 <= c < b && c < limit ==> c in used
        invariant State() == old(State()) && logged == old(logged)
      {
        var bi := 0;
        while bi < BPB && b + bi < limit
          invariant 0 <= bi <= BPB && forall c :: 0 <= c < b + bi && c < limit ==> c in used
          invariant State() == old(State()) && logged == old(logged)
        {
          if b + bi !in used {
            used := used + {b + bi};
            logged := logged + {Bitmap((b + bi) / BPB)};
            data := data[b + bi := Zeroes()];
            logged := logged + {Data(b + bi)};
            return Some(b + bi);
          }
          bi := bi + 1;
        }
        b := b + BPB;
      }
      r := None;
    }

    /** balloc for slot s of inode i, and the assignment that enters the block there. */
    method AllocateSlot(i: int, s: int) returns (r: Option<int>)
      requires Valid() && i in ino && IsSlot(s) && SlotAddr(State(), i, s) == 0
      requires NDIRECT <= s < MAXFILE ==> SlotAddr(State(), i, INDIRECT) != 0
      modifies this`data, this`used, this`ino, this`owner, this`logged
      ensures r == None ==> State() == old(State()) && FreeBlocks(State(), limit) == {} && Valid()
      ensures r.Some? ==> var b := r.value;
        && Attachable(old(State()), old(owner), limit, i, s, b)
        && State() == Attach(old(State()), i, s, b) && Valid() && ino.Keys == old(ino).Keys
        && logged == old(logged) + {Bitmap(b / BPB), Data(b)} +
             (if NDIRECT <= s < MAXFILE then {Data(SlotAddr(old(State()), i, INDIRECT))} else {})
    {
      hide Owned, NoHoles, Zeroes, SetWord, Word, Get;
      ghost var fs := State();
      r := Balloc();
      if r == None {
        return;
      }
      var b := r.value;
      assert Attachable(fs, owner, limit, i, s, b);
      AttachWf(fs, owner, limit, i, s, b);
      var n := ino[i];
      if 0 <= s < NDIRECT {
        ino := ino[i := n.(addrs := n.addrs[s := b])];
      } else if s == INDIRECT {
        ino := ino[i := n.(addrs := n.addrs[NDIRECT := b])];
      } else {
        var ind := n.addrs[NDIRECT];
        data := data[ind := SetWord(Get(data, ind), s - NDIRECT, b)];
        logged := logged + {Data(ind)};
      }
      owner := owner[b := Slot(i, s)];
    }

    /** bmap for a write: the block of data slot bn, allocated if there is none. */
    method Bmap(i: int, bn: int) returns (r: Option<int>)
      requires Valid() && i in ino && 0 <= bn < MAXFILE
      modifies this`data, this`used, this`ino, this`owner, this`logged
      ensures r.Some? ==> Valid() && r.value != 0 && SlotAddr(State(), i, bn) == r.value
      ensures r.Some? ==> Extends(old(State()), State(), i, bn)
      ensures SlotAddr(old(State()), i, bn) != 0 ==>
        r.Some? && State() == old(State()) && owner == old(owner) && logged == old(logged)
      ensures r.Some? ==> forall x :: x in logged ==> x in old(logged) || Touched(State(), limit, i, bn, bn + 1, x)
      ensures SpaceKept(old(State()), State(), limit, i, bn, bn + 1)
      ensures r == None ==> FreeBlocks(State(), limit) == {} && SlotAddr(State(), i, bn) == 0
    {
      hide Wf, Extends, SlotAddr, Touched, Slack, FreeBlocks, SpaceKept, Attach, SetWord, Zeroes;
      ghost var s0 := State();
      SlotAddrs(s0, owner, limit, i, bn);
      ExtendsSelf(s0, i, bn);
      SpaceKeptSelf(s0, limit, i, bn, bn + 1);
      var addr;
      if bn < NDIRECT {
        addr := ino[i].addrs[bn];
        if addr == 0 {
          r := AllocateSlot(i, bn);
          if r.Some? {
            AttachExtends(s0, old(owner), limit, i, bn, r.value, bn);
            AttachTouches(s0, old(owner), limit, i, bn, r.value, bn);
            AttachSpace(s0, old(owner), limit, i, bn, r.value, bn);
          }
          return;
        }
        return Some(addr);
      }
      addr := ino[i].addrs[NDIRECT];
      if addr == 0 {
        var ind := AllocateSlot(i, INDIRECT);
        if ind == None {
          return None;
        }
        AttachExtends(s0, old(owner), limit, i, INDIRECT, ind.value, bn);
        AttachTouches(s0, old(owner), limit, i, INDIRECT, ind.value, bn);
        AttachSpace(s0, old(owner), limit, i, INDIRECT, ind.value, bn);
        addr := ind.value;
      }
      ghost var s1, owner1, logged1 := State(), owner, logged;
      SlotAddrs(s1, owner1, limit, i, bn);
      assert SlotAddr(s1, i, INDIRECT) == addr;
      addr := Word(Get(data, addr), bn - NDIRECT);
      if addr == 0 {
        r := AllocateSlot(i, bn);
        if r.Some? {
          AttachExtends(s1, owner1, limit, i, bn, r.value, bn);
          AttachTouches(s1, owner1, limit, i, bn, r.value, bn);
          AttachSpace(s1, owner1, limit, i, bn, r.value, bn);
          SpaceKeptTrans(s0, s1, State(), limit, i, bn, bn + 1, bn, bn + 1);
          ExtendsTrans(s0, s1, State(), i, bn);
          StillTouched(s1, State(), limit, i, bn, bn, bn + 1);
        }
        return;
      }
      r := Some(addr);
    }

    /** readi: the bytes from off on, clipped at the end of the file; None stands for -1. */
    method Readi(i: int, off: int, n: int) returns (r: Option<seq<int>>)
      requires Valid() && i in ino && 0 <= off < UINT_LIMIT && 0 <= n < UINT_LIMIT
      modifies this`data, this`used, this`ino, this`owner, this`logged
      ensures State() == old(State()) && owner == old(owner) && logged == old(logged)
      ensures r == None <==> off > ino[i].size || off + n >= UINT_LIMIT
      ensures r.Some? ==> r.value == Clip(Content(State(), i), off, n)
    {
      hide Wf, InodesOk, Owned, NoHoles, NoHole, BitmapOk, SlotAddr, ByteAt, Content, Extends, Touched, Get, Word, Splice, IsSlot;
      ghost var s0 := State();
      Contents(s0, owner, limit, i);
      if off > ino[i].size || (off + n) % UINT_LIMIT < off {
        return None;
      }
      var count := n;
      if off + n > ino[i].size {
        count := ino[i].size - off;
      }
      var dst: seq<int> := [];
      var tot, at := 0, off;
      while tot < count
        invariant 0 <= tot <= count && at == off + tot
        invariant State() == s0 && owner == old(owner) && logged == old(logged)
        invariant dst == Content(s0, i)[off..at]
      {
        Mapped(s0, owner, limit, i, at);
        var b := Bmap(i, at / BSIZE);
        var m := if count - tot < BSIZE - at % BSIZE then count - tot else BSIZE - at % BSIZE;
        InBlock(s0, owner, limit, i, off, at, m);
        dst := dst + Get(data, b.value)[at % BSIZE..at % BSIZE + m];
        tot, at := tot + m, at + m;
      }
      r := Some(dst);
    }

    method Iupdate(i: int)
      requires i in ino
      modifies this`dino, this`logged
      ensures dino == old(dino)[i := ino[i]] && logged == old(logged) + {Inodes(i / IPB)}
    {
      dino := dino[i := ino[i]];
      logged := logged + {Inodes(i / IPB)};
    }

    /** writei: -1 without any effect, or the file spliced with src and no other file changed. None
        stands for the "out of blocks" panic: it comes exactly when the disk has fewer free blocks
        than the write lacks, and then none is left. */
    method Writei(i: int, src: seq<int>, off: int) returns (r: Option<int>)
      requires Valid() && i in ino && 0 <= off < UINT_LIMIT && |src| < UINT_LIMIT
      requires dino == ino
      modifies this`data, this`used, this`ino, this`dino, this`owner, this`logged
      ensures Refused(old(ino[i].size), off, |src|) ==>
        r == Some(-1) && State() == old(State()) && owner == old(owner) && dino == old(dino) && logged == old(logged)
      ensures !Refused(old(ino[i].size), off, |src|) && r.Some? ==>
        r.value == |src| && Valid() && dino == ino && Wrote(old(State()), State(), limit, i, off, src, old(logged), logged)
      ensures !Refused(old(ino[i].size), off, |src|) ==>
        (r.Some? <==> src == [] || Fits(old(State()), limit, i, off / BSIZE, (off + |src| - 1) / BSIZE + 1))
      ensures r == None ==> FreeBlocks(State(), limit) == {}
      ensures r.Some? ==> SlotsKept(old(State()), State(), i)
      ensures src != [] ==> SpaceKept(old(State()), State(), limit, i, off / BSIZE, (off + |src| - 1) / BSIZE + 1)
    {
      hide Wf, InodesOk, Owned, NoHoles, BitmapOk, SlotAddr, ByteAt, Content, Extends, Touched, Spliced, Progress, SameShape, OthersKept, Written, Splice, Looping, Wrote, Get, Word, NoHole, Slack, FreeBlocks, SpaceKept, Fits, SlotsKept;
      ghost var lo, hi := off / BSIZE, (off + |src| - 1) / BSIZE + 1;
      ghost var s0, owner0, logged0 := State(), owner, logged;
      Contents(s0, owner, limit, i);
      SpaceKeptSelf(s0, limit, i, lo, hi);
      SlotsKeptSelf(s0, i);
      var n := |src|;
      if off > ino[i].size || (off + n) % UINT_LIMIT < off {
        return Some(-1);
      }
      if off + n > MAXFILE * BSIZE {
        return Some(-1);
      }
      var tot, at := 0, off;
      LoopStarts(s0, owner, limit, i, off, src, logged);
      while tot < n
        invariant 0 <= tot <= n && at == off + tot && i in ino && dino == s0.ino
        invariant Looping(s0, State(), owner, limit, i, off, src, tot, logged0, logged)
        invariant SpaceKept(s0, State(), limit, i, lo, hi) && SlotsKept(s0, State(), i)
      {
        ghost var s1 := State();
        var m := PutBytes(s0, logged0, i, src, off, tot);
        SpaceKeptTrans(s0, s1, State(), limit, i, lo, hi, at / BSIZE, at / BSIZE + 1);
        if m == None {
          FullStarves(s0, State(), limit, i, lo, hi, at / BSIZE);
          return None;
        }
        SlotsKeptTrans(s0, s1, State(), i);
        tot, at := tot + m.value, at + m.value;
      }
      LoopEnds(s0, owner0, State(), owner, limit, i, off, src, logged0, logged);
      if n > 0 {
        WrittenFits(s0, State(), owner, limit, i, off, src, logged0, logged);
      }
      ghost var s2 := State();
      if n > 0 && at > ino[i].size {
        ino := ino[i := ino[i].(size := at)];
        SizeSpace(s2, ino[i], limit, i, lo, hi);
        SpaceKeptTrans(s0, s2, State(), limit, i, lo, hi, lo, hi);
        SizeSlots(s0, s2, ino[i], i);
        Iupdate(i);
      }
      r := Some(n);
    }

    /** bfree; `panics` stands for the "freeing free block" panic. */
    method Bfree(b: int) returns (panics: bool)
      modifies this`used, this`logged
      ensures panics <==> b !in old(used)
      ensures used == old(used) - {b}
    {
      panics := b !in used;
      used := used - {b};
      logged := logged + {Bitmap(b / BPB)};
    }

    /** itrunc's first loop, on a copy n of the inode. */
    method FreeDirect(i: int) returns (n: Inode)
      requires Valid() && i in ino && |ino[i].addrs| == NDIRECT + 1
      modifies this`used, this`logged
      ensures used == old(used) - BlocksBelow(old(State()), i, NDIRECT)
      ensures n.size == ino[i].size && |n.addrs| == NDIRECT + 1
      ensures forall t :: 0 <= t <= NDIRECT ==> n.addrs[t] == if t < NDIRECT then 0 else ino[i].addrs[t]
    {
      ghost var s0 := State();
      hide Wf, InodesOk, Owned, NoHoles, NoHole, BitmapOk, Word, Get;
      n := ino[i];
      for k := 0 to NDIRECT
        invariant used == s0.used - BlocksBelow(s0, i, k)
        invariant n.size == ino[i].size && |n.addrs| == NDIRECT + 1
        invariant forall t :: 0 <= t <= NDIRECT ==> n.addrs[t] == if t < k then 0 else ino[i].addrs[t]
      {
        if n.addrs[k] != 0 {
          StillMarked(s0, owner, limit, i, k, used);
          var panics := Bfree(n.addrs[k]);
          assert !panics;
          n := n.(addrs := n.addrs[k := 0]);
        }
      }
    }

    /** itrunc's second loop and the indirect block itself. */
    method FreeIndirect(ghost s0: FsState, i: int, ind: int)
      requires Wf(s0, owner, limit) && i in s0.ino && data == s0.data && ind == SlotAddr(s0, i, INDIRECT) != 0
      requires used == s0.used - BlocksBelow(s0, i, NDIRECT)
      modifies this`used, this`logged
      ensures used == s0.used - BlocksBelow(s0, i, INDIRECT + 1)
    {
      assert InodesOk(s0);
      hide Wf, Owned, NoHoles, NoHole, BitmapOk, Word, Get;
      var a := Get(data, ind);
      for k := 0 to NINDIRECT
        invariant used == s0.used - BlocksBelow(s0, i, NDIRECT + k)
      {
        assert SlotAddr(s0, i, NDIRECT + k) == Word(a, k);
        if Word(a, k) != 0 {
          StillMarked(s0, owner, limit, i, NDIRECT + k, used);
          var panics := Bfree(Word(a, k));
          assert !panics;
        }
      }
      StillMarked(s0, owner, limit, i, INDIRECT, used);
      var panics := Bfree(ind);
      assert !panics;
    }

    /** itrunc: every block of the file is freed once, so no bfree panics. */
    method Itrunc(i: int)
      requires Valid() && i in ino
      modifies this`used, this`ino, this`dino, this`owner, this`logged
      ensures Valid() && State() == Truncated(old(State()), i)
      ensures dino == old(dino)[i := ino[i]]
    {
      ghost var s0 := State();
      assert InodesOk(s0);
      assert SlotAddr(s0, i, INDIRECT) == ino[i].addrs[NDIRECT];
      TruncatedWf(s0, owner, limit, i);
      hide Wf, InodesOk, Owned, NoHoles, NoHole, BitmapOk, SlotAddr, BlocksBelow;
      var n := FreeDirect(i);
      if n.addrs[NDIRECT] != 0 {
        FreeIndirect(s0, i, n.addrs[NDIRECT]);
        n := n.(addrs := n.addrs[NDIRECT := 0]);
      } else {
        NoIndirect(s0, i);
      }
      assert n.addrs == NoAddrs();
      n := n.(size := 0);
      ino := ino[i := n];
      owner := map b | b in owner && owner[b].i != i :: owner[b];
      Iupdate(i);
    }

    /** One iteration of writei's loop: as much of src as fits the block at off + tot. */
    method PutBytes(ghost s0: FsState, ghost logged0: set<LogBlock>, i: int, src: seq<int>, off: int, tot: int)
      returns (r: Option<int>)
      requires i in ino && 0 <= off && 0 <= tot < |src| && off + |src| <= MAXFILE * BSIZE
      requires Looping(s0, State(), owner, limit, i, off, src, tot, logged0, logged)
      modifies this`data, this`used, this`ino, this`owner, this`logged
      ensures r.Some? ==> i in ino && 0 < r.value && tot + r.value <= |src|
      ensures r.Some? ==> Looping(s0, State(), owner, limit, i, off, src, tot + r.value, logged0, logged)
      ensures SpaceKept(old(State()), State(), limit, i, (off + tot) / BSIZE, (off + tot) / BSIZE + 1)
      ensures r == None ==> FreeBlocks(State(), limit) == {} && SlotAddr(State(), i, (off + tot) / BSIZE) == 0
      ensures r.Some? ==> SlotsKept(old(State()), State(), i)
    {
      hide Wf, SlotAddr, ByteAt, Content, Extends, Touched, Progress, Splice, Slack, FreeBlocks, SpaceKept, SlotsKept;
      ghost var s1, owner1 := State(), owner;
      var at := off + tot;
      var b := Bmap(i, at / BSIZE);
      if b == None {
        return None;
      }
      var m := if |src| - tot < BSIZE - at % BSIZE then |src| - tot else BSIZE - at % BSIZE;
      ghost var s2 := State();
      ProgressStep(s0, s1, owner1, s2, owner, limit, i, off, src, tot, m);
      data := data[b.value := Splice(Get(data, b.value), at % BSIZE, src[tot..tot + m])];
      logged := logged + {Data(b.value)};
      LogStep(s1, s2, State(), owner, limit, i, off, at, m, b.value, src[tot..tot + m]);
      ExtendsKeys(s1, s2, i, at / BSIZE);
      MoveSpace(s1, s2, owner, limit, i, at, src[tot..tot + m]);
      r := Some(m);
    }
  }

  // ---------------------------------------------------------------- truncation

  /** The blocks of file i at slots below n. */
  function BlocksBelow(fs: FsState, i: int, n: nat): set<int> {
    if n == 0 then {}
    else BlocksBelow(fs, i, n - 1) + (if SlotAddr(fs, i, n - 1) != 0 then {SlotAddr(fs, i, n - 1)} else {})
  }

  function NoAddrs(): (a: seq<int>)
    ensures |a| == NDIRECT + 1
  {
    seq(NDIRECT + 1, _ => 0)
  }

  /** File i empty, and exactly its blocks free again. */
  function Truncated(fs: FsState, i: int): FsState {
    fs.(used := fs.used - BlocksBelow(fs, i, INDIRECT + 1), ino := fs.ino[i := Inode(0, NoAddrs())])
  }

  lemma {:induction false} BlocksBelowAt(fs: FsState, i: int, n: nat)
    ensures forall b :: b in BlocksBelow(fs, i, n) <==> b != 0 && exists s :: 0 <= s < n && SlotAddr(fs, i, s) == b
  {
    hide SlotAddr;
    if n > 0 {
      BlocksBelowAt(fs, i, n - 1);
    }
  }

  // The block at slot n is still marked when the slots before it have been freed.
  lemma StillMarked(fs: FsState, owner: map<int, Slot>, limit: int, i: int, n: nat, used: set<int>)
    requires Wf(fs, owner, limit) && i in fs.ino && n <= INDIRECT && SlotAddr(fs, i, n) != 0
    requires used == fs.used - BlocksBelow(fs, i, n)
    ensures SlotAddr(fs, i, n) in used
  {
    BlocksBelowAt(fs, i, n);
    hide SlotAddr, NoHoles, BlocksBelow;
    assert IsSlot(n);
    forall s | 0 <= s < n ensures SlotAddr(fs, i, s) != SlotAddr(fs, i, n) {
      assert IsSlot(s);
    }
  }

  lemma NoIndirect(fs: FsState, i: int)
    requires SlotAddr(fs, i, INDIRECT) == 0
    ensures BlocksBelow(fs, i, INDIRECT + 1) == BlocksBelow(fs, i, NDIRECT)
  {
    var n: nat := NDIRECT;
    while n < INDIRECT + 1
      invariant NDIRECT <= n <= INDIRECT + 1
      invariant BlocksBelow(fs, i, n) == BlocksBelow(fs, i, NDIRECT)
    {
      assert SlotAddr(fs, i, n) == 0;
      n := n + 1;
    }
  }

  /** Truncating a file keeps every invariant, and the blocks and bytes of the other files. */
  lemma TruncatedWf(fs: FsState, owner: map<int, Slot>, limit: int, i: int)
    requires Wf(fs, owner, limit) && i in fs.ino
    ensures Wf(Truncated(fs, i), map b | b in owner && owner[b].i != i :: owner[b], limit)
    ensures forall j, t :: j != i ==> SlotAddr(Truncated(fs, i), j, t) == SlotAddr(fs, j, t)
    ensures forall t :: SlotAddr(Truncated(fs, i), i, t) == 0
  {
    var fs', owner' := Truncated(fs, i), map b | b in owner && owner[b].i != i :: owner[b];
    forall j, t ensures SlotAddr(fs', j, t) == if j == i then 0 else SlotAddr(fs, j, t) {
    }
    BlocksBelowAt(fs, i, INDIRECT + 1);
    assert 0 !in BlocksBelow(fs, i, INDIRECT + 1);
    hide SlotAddr, BlocksBelow;
    assert Owned(fs', owner') by {
      forall b | b in owner' ensures b in fs'.used {
        forall s | 0 <= s < INDIRECT + 1 ensures SlotAddr(fs, i, s) != b {
          assert IsSlot(s);
        }
      }
    }
    hide Owned;
    forall j, s | 0 <= s < MAXFILE ensures NoHole(fs', j, s) {
      assert NoHole(fs, j, s);
    }
  }

  lemma TruncatedContent(fs: FsState, owner: map<int, Slot>, limit: int, i: int, j: int)
    requires Wf(fs, owner, limit) && i in fs.ino && j in fs.ino
    ensures Content(Truncated(fs, i), j) == if j == i then [] else Content(fs, j)
  {
    TruncatedWf(fs, owner, limit, i);
    hide SlotAddr, Wf;
  }

  /** writei answers -1: the offset leaves a gap, or the file would outgrow its block map. */
  predicate Refused(size: int, off: int, n: int) {
    off > size || off + n > MAXFILE * BSIZE
  }

  /** A write that was not refused: the splice, and which blocks it may have logged. */
  ghost predicate Wrote(fs: FsState, fs': FsState, limit: int, i: int, off: int, src: seq<int>,
                        logged: set<LogBlock>, logged': set<LogBlock>) {
    && Spliced(fs, fs', i, off, src)
    && forall x :: x in logged' ==> x in logged || Touched(fs', limit, i, off / BSIZE, (off + |src| - 1) / BSIZE + 1, x)
  }

  /** What writei's loop keeps. */
  ghost predicate Looping(s0: FsState, fs: FsState, owner: map<int, Slot>, limit: int, i: int, off: int, src: seq<int>,
                          tot: int, logged0: set<LogBlock>, logged: set<LogBlock>) {
    && Wf(fs, owner, limit) && Progress(s0, fs, i, off, src, tot)
    && forall x :: x in logged ==>
         x in logged0 || (tot > 0 && Touched(fs, limit, i, off / BSIZE, (off + tot - 1) / BSIZE + 1, x))
  }

  lemma LoopStarts(s0: FsState, owner: map<int, Slot>, limit: int, i: int, off: int, src: seq<int>, logged: set<LogBlock>)
    requires Wf(s0, owner, limit)
    ensures Looping(s0, s0, owner, limit, i, off, src, 0, logged, logged)
  {
    ProgressStart(s0, i, off, src);
  }

  // The file as the loop leaves it, with the size that the guard of iupdate gives it.
  lemma LoopEnds(s0: FsState, owner0: map<int, Slot>, fs: FsState, owner: map<int, Slot>, limit: int, i: int, off: int, src: seq<int>,
                 logged0: set<LogBlock>, logged: set<LogBlock>)
    requires Looping(s0, fs, owner, limit, i, off, src, |src|, logged0, logged) && Wf(s0, owner0, limit) && i in s0.ino
    requires 0 <= off <= s0.ino[i].size && off + |src| <= MAXFILE * BSIZE
    ensures i in fs.ino && fs.ino[i].size == s0.ino[i].size
    ensures src != [] && off + |src| > s0.ino[i].size ==>
      var fs' := Resized(fs, i, off + |src|);
      && Wf(fs', owner, limit) && s0.ino[i := fs'.ino[i]] == fs'.ino
      && Wrote(s0, fs', limit, i, off, src, logged0, logged + {Inodes(i / IPB)})
    ensures src == [] || off + |src| <= s0.ino[i].size ==>
      Wf(fs, owner, limit) && fs.ino == s0.ino && Wrote(s0, fs, limit, i, off, src, logged0, logged)
  {
    hide Wf, SlotAddr, ByteAt, Spliced, Touched, Progress;
    ProgressKeys(s0, fs, i, off, src, |src|);
    if src != [] && off + |src| > s0.ino[i].size {
      ProgressGrown(s0, owner0, fs, owner, limit, i, off, src);
      var fs' := Resized(fs, i, off + |src|);
      InodeTouched(fs', limit, i, off / BSIZE, (off + |src| - 1) / BSIZE + 1);
      assert forall j :: j in fs'.ino && j != i ==> j in s0.ino && fs'.ino[j] == s0.ino[j];
    } else {
      ProgressWithin(s0, fs, owner0, limit, i, off, src);
      assert forall j :: j in fs.ino ==> fs.ino[j] == s0.ino[j];
    }
  }

  lemma SlotsKeptSelf(fs: FsState, i: int)
    ensures SlotsKept(fs, fs, i)
  {
  }

  lemma ExtendsSlots(fs: FsState, fs': FsState, i: int, bn: int)
    requires Extends(fs, fs', i, bn)
    ensures SlotsKept(fs, fs', i)
  {
    hide ByteAt, SlotAddr;
    forall j, t | j != i && IsSlot(t) ensures SlotAddr(fs', j, t) == SlotAddr(fs, j, t) {
      if j !in fs.ino {
        NoFile(fs, j, t);
        NoFile(fs', j, t);
      }
    }
  }

  lemma NoFile(fs: FsState, j: int, t: int)
    requires j !in fs.ino
    ensures SlotAddr(fs, j, t) == 0
  {
  }

  lemma WriteSlots(fs: FsState, owner: map<int, Slot>, limit: int, i: int, s: int, at: int, bytes: seq<int>)
    requires Writable(fs, owner, limit, i, s, at, bytes)
    ensures SlotsKept(fs, WriteInto(fs, SlotAddr(fs, i, s), at, bytes), i)
  {
    hide Writable, WriteInto, SlotAddr;
    forall j, t | j != i && IsSlot(t)
      ensures SlotAddr(WriteInto(fs, SlotAddr(fs, i, s), at, bytes), j, t) == SlotAddr(fs, j, t)
    {
      WriteAddr(fs, owner, limit, i, s, at, bytes, j, t);
    }
  }

  lemma SizeSlots(s0: FsState, fs: FsState, n: Inode, i: int)
    requires SlotsKept(s0, fs, i)
    ensures SlotsKept(s0, fs.(ino := fs.ino[i := n]), i)
  {
    var fs' := fs.(ino := fs.ino[i := n]);
    forall j, t | j != i && IsSlot(t) ensures SlotAddr(fs', j, t) == SlotAddr(s0, j, t) {
      assert SlotAddr(fs', j, t) == SlotAddr(fs, j, t);
    }
  }

  // memmove into the block that bmap found takes no block.
  lemma MoveSpace(fs: FsState, fs': FsState, owner': map<int, Slot>, limit: int, i: int, at: int, bytes: seq<int>)
    requires SpaceKept(fs, fs', limit, i, at / BSIZE, at / BSIZE + 1)
    requires Wf(fs', owner', limit) && i in fs'.ino && 0 <= at < MAXFILE * BSIZE && SlotAddr(fs', i, at / BSIZE) != 0
    requires at % BSIZE + |bytes| <= BSIZE
    requires Extends(fs, fs', i, at / BSIZE)
    ensures SpaceKept(fs, WriteInto(fs', SlotAddr(fs', i, at / BSIZE), at % BSIZE, bytes), limit, i, at / BSIZE, at / BSIZE + 1)
    ensures SlotsKept(fs, WriteInto(fs', SlotAddr(fs', i, at / BSIZE), at % BSIZE, bytes), i)
  {
    assert Writable(fs', owner', limit, i, at / BSIZE, at % BSIZE, bytes);
    ExtendsSlots(fs, fs', i, at / BSIZE);
    WriteSlots(fs', owner', limit, i, at / BSIZE, at % BSIZE, bytes);
    SlotsKeptTrans(fs, fs', WriteInto(fs', SlotAddr(fs', i, at / BSIZE), at % BSIZE, bytes), i);
    hide Extends, SlotsKept,  Wf, SpaceKept, Writable, WriteInto, SlotAddr;
    var fs'' := WriteInto(fs', SlotAddr(fs', i, at / BSIZE), at % BSIZE, bytes);
    WriteSpace(fs', owner', limit, i, at / BSIZE, at % BSIZE, bytes, at / BSIZE, at / BSIZE + 1);
    SpaceKeptTrans(fs, fs', fs'', limit, i, at / BSIZE, at / BSIZE + 1, at / BSIZE, at / BSIZE + 1);
  }

  // The write that meets a full disk had too few free blocks from the start.
  lemma FullStarves(s0: FsState, fs: FsState, limit: int, i: int, lo: int, hi: int, bn: int)
    requires SpaceKept(s0, fs, limit, i, lo, hi) && 0 <= lo <= bn < hi <= MAXFILE
    requires FreeBlocks(fs, limit) == {} && SlotAddr(fs, i, bn) == 0
    ensures !Fits(s0, limit, i, lo, hi)
  {
    hide SlotAddr;
    FullDoesNotFit(fs, limit, i, lo, hi, bn);
    assert Slack(fs, limit, i, lo, hi) == Slack(s0, limit, i, lo, hi);
  }

  // The write that ends had free blocks enough.
  lemma WrittenFits(s0: FsState, fs: FsState, owner: map<int, Slot>, limit: int, i: int, off: int, src: seq<int>,
                    logged0: set<LogBlock>, logged: set<LogBlock>)
    requires Looping(s0, fs, owner, limit, i, off, src, |src|, logged0, logged)
    requires SpaceKept(s0, fs, limit, i, off / BSIZE, (off + |src| - 1) / BSIZE + 1)
    requires 0 <= off && off + |src| <= MAXFILE * BSIZE && src != []
    ensures Fits(s0, limit, i, off / BSIZE, (off + |src| - 1) / BSIZE + 1)
  {
    var lo, hi := off / BSIZE, (off + |src| - 1) / BSIZE + 1;
    assert Written(fs, i, off, src, |src|);
    hide Looping, Wf, SlotAddr, ByteAt, Progress;
    forall s | lo <= s < hi ensures SlotAddr(fs, i, s) != 0 {
      var k := if s * BSIZE < off then off else s * BSIZE;
      assert off <= k < off + |src| && k / BSIZE == s;
    }
    MappedFits(fs, limit, i, lo, hi);
    assert Slack(fs, limit, i, lo, hi) == Slack(s0, limit, i, lo, hi);
  }

  lemma InodeTouched(fs: FsState, limit: int, i: int, lo: int, hi: int)
    ensures Touched(fs, limit, i, lo, hi, Inodes(i / IPB))
  {
  }

  lemma ExtendsKeys(fs: FsState, fs': FsState, i: int, bn: int)
    requires Extends(fs, fs', i, bn)
    ensures fs'.ino.Keys == fs.ino.Keys
  {
  }

  /** At most n elements from off on. */
  function Clip(c: seq<int>, off: int, n: int): seq<int> {
    if 0 <= off <= |c| && n >= 0 then c[off..if off + n <= |c| then off + n else |c|] else []
  }

  /** fs' is fs with src written over file i from off on; the other files are untouched. */
  ghost predicate Spliced(fs: FsState, fs': FsState, i: int, off: int, src: seq<int>) {
    && fs'.ino.Keys == fs.ino.Keys
    && Content(fs', i) == Splice(Content(fs, i), off, src)
    && forall j :: j in fs.ino && j != i ==> Content(fs', j) == Content(fs, j)
  }

  /** x is a block that an operation on data slots lo..hi of inode i may log. */
  ghost predicate Touched(fs: FsState, limit: int, i: int, lo: int, hi: int, x: LogBlock) {
    match x
    case Bitmap(n) => 0 <= n && n * BPB < limit
    case Inodes(n) => n == i / IPB
    case Data(b) => b != 0 && (b == SlotAddr(fs, i, INDIRECT) || exists s :: lo <= s < hi && SlotAddr(fs, i, s) == b)
  }

  // What the code reads off the inode and the indirect block.
  lemma SlotAddrs(fs: FsState, owner: map<int, Slot>, limit: int, i: int, bn: int)
    requires Wf(fs, owner, limit) && i in fs.ino && 0 <= bn < MAXFILE
    ensures |fs.ino[i].addrs| == NDIRECT + 1
    ensures SlotAddr(fs, i, INDIRECT) == fs.ino[i].addrs[NDIRECT]
    ensures bn < NDIRECT ==> SlotAddr(fs, i, bn) == fs.ino[i].addrs[bn]
    ensures bn >= NDIRECT && fs.ino[i].addrs[NDIRECT] == 0 ==> SlotAddr(fs, i, bn) == 0
    ensures bn >= NDIRECT && fs.ino[i].addrs[NDIRECT] != 0 ==>
      SlotAddr(fs, i, bn) == Word(Get(fs.data, fs.ino[i].addrs[NDIRECT]), bn - NDIRECT)
  {
    hide Owned, NoHoles;
  }

  lemma ExtendsSelf(fs: FsState, i: int, bn: int)
    ensures Extends(fs, fs, i, bn)
  {
  }

  lemma ExtendsTrans(a: FsState, b: FsState, c: FsState, i: int, bn: int)
    requires Extends(a, b, i, bn) && Extends(b, c, i, bn)
    ensures Extends(a, c, i, bn)
  {
    hide SlotAddr, ByteAt;
    forall j, k | j in a.ino && 0 <= k < MAXFILE * BSIZE && SlotAddr(a, j, k / BSIZE) != 0
      ensures ByteAt(c, j, k) == ByteAt(a, j, k)
    {
      assert IsSlot(k / BSIZE);
      assert SlotAddr(b, j, k / BSIZE) != 0;
    }
  }

  lemma AttachExtends(fs: FsState, owner: map<int, Slot>, limit: int, i: int, s: int, b: int, bn: int)
    requires Attachable(fs, owner, limit, i, s, b) && (s == bn || s == INDIRECT)
    ensures Extends(fs, Attach(fs, i, s, b), i, bn)
    ensures SlotAddr(Attach(fs, i, s, b), i, s) == b
  {
    var fs' := Attach(fs, i, s, b);
    assert InodesOk(fs);
    AttachKeepsShape(fs, i, s, b);
    hide Wf, Attach, SlotAddr, ByteAt;
    forall j, t | j in fs.ino && IsSlot(t) ensures SlotAddr(fs', j, t) == if j == i && t == s then b else SlotAddr(fs, j, t) {
      AttachAddr(fs, owner, limit, i, s, b, j, t);
    }
    forall j, k | j in fs.ino && 0 <= k < MAXFILE * BSIZE && SlotAddr(fs, j, k / BSIZE) != 0
      ensures ByteAt(fs', j, k) == ByteAt(fs, j, k)
    {
      AttachBytes(fs, owner, limit, i, s, b, j, k);
    }
  }

  lemma AttachTouches(fs: FsState, owner: map<int, Slot>, limit: int, i: int, s: int, b: int, bn: int)
    requires Attachable(fs, owner, limit, i, s, b) && (s == bn || s == INDIRECT) && 0 <= bn < MAXFILE
    ensures var fs' := Attach(fs, i, s, b);
      && Touched(fs', limit, i, bn, bn + 1, Bitmap(b / BPB))
      && Touched(fs', limit, i, bn, bn + 1, Data(b))
      && (NDIRECT <= s < MAXFILE ==> Touched(fs', limit, i, bn, bn + 1, Data(SlotAddr(fs, i, INDIRECT))))
  {
    hide Wf, Attach, SlotAddr;
    AttachAddr(fs, owner, limit, i, s, b, i, s);
    AttachAddr(fs, owner, limit, i, s, b, i, INDIRECT);
  }

  lemma StillTouched(fs: FsState, fs': FsState, limit: int, i: int, bn: int, lo: int, hi: int)
    requires Extends(fs, fs', i, bn) && i in fs.ino && 0 <= lo <= hi <= MAXFILE
    ensures forall x :: Touched(fs, limit, i, lo, hi, x) ==> Touched(fs', limit, i, lo, hi, x)
  {
    hide SlotAddr, ByteAt;
    forall x | Touched(fs, limit, i, lo, hi, x) ensures Touched(fs', limit, i, lo, hi, x) {
      if x.Data? && x.b != SlotAddr(fs, i, INDIRECT) {
        var s :| lo <= s < hi && SlotAddr(fs, i, s) == x.b;
        assert IsSlot(s);
      } else {
        assert IsSlot(INDIRECT);
      }
    }
  }

  lemma Contents(fs: FsState, owner: map<int, Slot>, limit: int, i: int)
    requires Wf(fs, owner, limit) && i in fs.ino
    ensures 0 <= fs.ino[i].size <= MAXFILE * BSIZE && |Content(fs, i)| == fs.ino[i].size
  {
  }

  // A byte of the file lies in a block the file has.
  lemma Mapped(fs: FsState, owner: map<int, Slot>, limit: int, i: int, k: int)
    requires Wf(fs, owner, limit) && i in fs.ino && 0 <= k < fs.ino[i].size
    ensures 0 <= k / BSIZE < MAXFILE && SlotAddr(fs, i, k / BSIZE) != 0
  {
    hide Owned, SlotAddr;
    assert NoHole(fs, i, k / BSIZE);
  }

  // m bytes of one block are m bytes of the file.
  lemma InBlock(fs: FsState, owner: map<int, Slot>, limit: int, i: int, off: int, at: int, m: int)
    requires Wf(fs, owner, limit) && i in fs.ino && 0 <= off <= at && 0 <= m
    requires at + m <= fs.ino[i].size && at % BSIZE + m <= BSIZE
    ensures at + m <= |Content(fs, i)|
    ensures Content(fs, i)[off..at] + Get(fs.data, SlotAddr(fs, i, at / BSIZE))[at % BSIZE..at % BSIZE + m] ==
      Content(fs, i)[off..at + m]
  {
    hide Wf, SlotAddr;
    var b := Get(fs.data, SlotAddr(fs, i, at / BSIZE));
    var c := Content(fs, i)[at..at + m];
    forall k | 0 <= k < m ensures c[k] == b[at % BSIZE..at % BSIZE + m][k] {
      SameBlock(at, m, at + k);
    }
    assert b[at % BSIZE..at % BSIZE + m] == c;
    assert Content(fs, i)[off..at] + c == Content(fs, i)[off..at + m];
  }

  /** fs has the files of fs0 with their sizes, and every block of theirs in its place. */
  ghost predicate SameShape(fs0: FsState, fs: FsState, i: int) {
    && fs.ino.Keys == fs0.ino.Keys
    && (forall j :: j in fs.ino ==> fs.ino[j].size == fs0.ino[j].size && (j != i ==> fs.ino[j] == fs0.ino[j]))
    && (forall j, t :: j in fs.ino && IsSlot(t) && SlotAddr(fs0, j, t) != 0 ==> SlotAddr(fs, j, t) == SlotAddr(fs0, j, t))
  }

  /** The bytes of fs0, but for the first len from off on in file i. */
  ghost predicate OthersKept(fs0: FsState, fs: FsState, i: int, off: int, len: int) {
    forall j, k :: j in fs.ino && 0 <= k < MAXFILE * BSIZE && SlotAddr(fs0, j, k / BSIZE) != 0 ==>
      (j == i && off <= k < off + len) || ByteAt(fs, j, k) == ByteAt(fs0, j, k)
  }

  ghost predicate Written(fs: FsState, i: int, off: int, src: seq<int>, tot: int) {
    && 0 <= tot <= |src|
    && forall k :: off <= k < off + tot ==> SlotAddr(fs, i, k / BSIZE) != 0 && ByteAt(fs, i, k) == src[k - off]
  }

  /** The state of writei's loop after `tot` bytes of src. */
  ghost predicate Progress(fs0: FsState, fs: FsState, i: int, off: int, src: seq<int>, tot: int) {
    && SameShape(fs0, fs, i) && OthersKept(fs0, fs, i, off, tot) && Written(fs, i, off, src, tot)
    && (i in fs.ino ==> fs.ino[i] == fs0.ino[i] || off + tot > fs0.ino[i].size)
  }

  lemma ProgressStart(fs: FsState, i: int, off: int, src: seq<int>)
    ensures Progress(fs, fs, i, off, src, 0)
  {
  }

  lemma ProgressKeys(fs0: FsState, fs: FsState, i: int, off: int, src: seq<int>, tot: int)
    requires Progress(fs0, fs, i, off, src, tot)
    ensures fs.ino.Keys == fs0.ino.Keys && 0 <= tot <= |src|
    ensures forall j :: j in fs.ino ==> fs.ino[j].size == fs0.ino[j].size && (j != i ==> fs.ino[j] == fs0.ino[j])
    ensures i in fs.ino ==> fs.ino[i] == fs0.ino[i] || off + tot > fs0.ino[i].size
  {
  }

  // bmap keeps the progress made so far.
  lemma ExtendsShape(fs0: FsState, fs: FsState, fs': FsState, i: int, bn: int)
    requires SameShape(fs0, fs, i) && Extends(fs, fs', i, bn)
    ensures SameShape(fs0, fs', i)
  {
    hide SlotAddr, ByteAt;
  }

  lemma ExtendsKept(fs0: FsState, fs: FsState, fs': FsState, i: int, off: int, tot: int, bn: int)
    requires SameShape(fs0, fs, i) && OthersKept(fs0, fs, i, off, tot) && Extends(fs, fs', i, bn)
    ensures OthersKept(fs0, fs', i, off, tot)
  {
    hide SlotAddr, ByteAt;
    forall j, k | j in fs'.ino && 0 <= k < MAXFILE * BSIZE && SlotAddr(fs0, j, k / BSIZE) != 0
      ensures (j == i && off <= k < off + tot) || ByteAt(fs', j, k) == ByteAt(fs0, j, k)
    {
      assert IsSlot(k / BSIZE);
      assert SlotAddr(fs, j, k / BSIZE) != 0;
    }
  }

  lemma ExtendsWritten(fs: FsState, fs': FsState, i: int, off: int, src: seq<int>, tot: int, bn: int)
    requires Written(fs, i, off, src, tot) && Extends(fs, fs', i, bn)
    requires 0 <= off && off + tot <= MAXFILE * BSIZE && i in fs.ino
    ensures Written(fs', i, off, src, tot)
  {
    hide SlotAddr, ByteAt;
    forall k | off <= k < off + tot ensures SlotAddr(fs', i, k / BSIZE) != 0 && ByteAt(fs', i, k) == src[k - off] {
      assert IsSlot(k / BSIZE);
      assert SlotAddr(fs, i, k / BSIZE) != 0;
    }
  }

  // k lies in the block of `at`, among its m bytes from `at` on, exactly when it is one of them.
  lemma SameBlock(at: int, m: int, k: int)
    requires 0 <= at && 0 <= m && at % BSIZE + m <= BSIZE && 0 <= k
    ensures k / BSIZE == at / BSIZE && at % BSIZE <= k % BSIZE < at % BSIZE + m <==> at <= k < at + m
    ensures at <= k < at + m ==> k / BSIZE == at / BSIZE && k % BSIZE - at % BSIZE == k - at
  {
  }

  // The part of a state that memmove into the block at `at` leaves and changes.
  lemma WriteByte(fs: FsState, owner: map<int, Slot>, limit: int, i: int, at: int, bytes: seq<int>, j: int, k: int)
    requires Writable(fs, owner, limit, i, at / BSIZE, at % BSIZE, bytes) && 0 <= at
    requires j in fs.ino && 0 <= k < MAXFILE * BSIZE && SlotAddr(fs, j, k / BSIZE) != 0
    ensures ByteAt(WriteInto(fs, SlotAddr(fs, i, at / BSIZE), at % BSIZE, bytes), j, k) ==
      if j == i && at <= k < at + |bytes| then bytes[k - at] else ByteAt(fs, j, k)
  {
    hide Writable, ByteAt, WriteInto, SlotAddr;
    assert at % BSIZE + |bytes| <= BSIZE by { assert Writable(fs, owner, limit, i, at / BSIZE, at % BSIZE, bytes); WritableFits(fs, owner, limit, i, at / BSIZE, at % BSIZE, bytes); }
    WriteBytes(fs, owner, limit, i, at / BSIZE, at % BSIZE, bytes, j, k);
    SameBlock(at, |bytes|, k);
  }

  lemma WritableFits(fs: FsState, owner: map<int, Slot>, limit: int, i: int, s: int, at: int, bytes: seq<int>)
    requires Writable(fs, owner, limit, i, s, at, bytes)
    ensures at + |bytes| <= BSIZE && i in fs.ino && 0 <= s < MAXFILE && SlotAddr(fs, i, s) != 0 && InodesOk(fs)
  {
  }

  lemma ProgressWritten(fs0: FsState, fs: FsState, owner: map<int, Slot>, limit: int,
                        i: int, off: int, src: seq<int>, tot: int, m: int)
    requires SameShape(fs0, fs, i) && OthersKept(fs0, fs, i, off, tot) && Written(fs, i, off, src, tot)
    requires 0 <= off && 0 < m && tot + m <= |src| && off + |src| <= MAXFILE * BSIZE
    requires Writable(fs, owner, limit, i, (off + tot) / BSIZE, (off + tot) % BSIZE, src[tot..tot + m])
    ensures var fs' := WriteInto(fs, SlotAddr(fs, i, (off + tot) / BSIZE), (off + tot) % BSIZE, src[tot..tot + m]);
      SameShape(fs0, fs', i) && OthersKept(fs0, fs', i, off, tot + m) && Written(fs', i, off, src, tot + m)
  {
    var at, bytes := off + tot, src[tot..tot + m];
    var fs' := WriteInto(fs, SlotAddr(fs, i, at / BSIZE), at % BSIZE, bytes);
    WritableFits(fs, owner, limit, i, at / BSIZE, at % BSIZE, bytes);
    assert fs'.ino == fs.ino;
    forall j, t | IsSlot(t) ensures SlotAddr(fs', j, t) == SlotAddr(fs, j, t) {
      WriteAddr(fs, owner, limit, i, at / BSIZE, at % BSIZE, bytes, j, t);
    }
    hide Writable, ByteAt, WriteInto, SlotAddr;
    assert OthersKept(fs0, fs', i, off, tot + m) by {
      forall j, k | j in fs'.ino && 0 <= k < MAXFILE * BSIZE && SlotAddr(fs0, j, k / BSIZE) != 0
        ensures (j == i && off <= k < off + tot + m) || ByteAt(fs', j, k) == ByteAt(fs0, j, k)
      {
        assert IsSlot(k / BSIZE);
        WriteByte(fs, owner, limit, i, at, bytes, j, k);
      }
    }
    assert Written(fs', i, off, src, tot + m) by {
      forall k | off <= k < off + tot + m
        ensures SlotAddr(fs', i, k / BSIZE) != 0 && ByteAt(fs', i, k) == src[k - off]
      {
        assert IsSlot(k / BSIZE);
        if k >= at {
          SameBlock(at, m, k);
        }
        WriteByte(fs, owner, limit, i, at, bytes, i, k);
      }
    }
  }

  // One iteration of writei's loop: bmap led from fs to fs', memmove follows.
  lemma ProgressStep(fs0: FsState, fs: FsState, owner: map<int, Slot>, fs': FsState, owner': map<int, Slot>, limit: int,
                     i: int, off: int, src: seq<int>, tot: int, m: int)
    requires Progress(fs0, fs, i, off, src, tot) && Wf(fs, owner, limit) && i in fs.ino
    requires 0 <= off && 0 < m && tot + m <= |src| && off + |src| <= MAXFILE * BSIZE && (off + tot) % BSIZE + m <= BSIZE
    requires Wf(fs', owner', limit) && Extends(fs, fs', i, (off + tot) / BSIZE)
    requires SlotAddr(fs', i, (off + tot) / BSIZE) != 0
    requires SlotAddr(fs, i, (off + tot) / BSIZE) != 0 ==> fs' == fs
    ensures var fs'' := WriteInto(fs', SlotAddr(fs', i, (off + tot) / BSIZE), (off + tot) % BSIZE, src[tot..tot + m]);
      Wf(fs'', owner', limit) && Progress(fs0, fs'', i, off, src, tot + m)
  {
    var at, bytes := off + tot, src[tot..tot + m];
    assert Writable(fs', owner', limit, i, at / BSIZE, at % BSIZE, bytes);
    assert fs.ino[i] == fs0.ino[i] || off + tot > fs0.ino[i].size;
    assert fs'.ino[i] == fs0.ino[i] || off + tot + m > fs0.ino[i].size by {
      if at < fs.ino[i].size {
        Mapped(fs, owner, limit, i, at);
      }
    }
    hide Wf, SlotAddr, ByteAt, Writable;
    ExtendsShape(fs0, fs, fs', i, at / BSIZE);
    ExtendsKept(fs0, fs, fs', i, off, tot, at / BSIZE);
    ExtendsWritten(fs, fs', i, off, src, tot, at / BSIZE);
    ProgressWritten(fs0, fs', owner', limit, i, off, src, tot, m);
    WriteWf(fs', owner', limit, i, at / BSIZE, at % BSIZE, bytes);
  }

  lemma LogStep(fs: FsState, fs': FsState, fs'': FsState, owner': map<int, Slot>, limit: int, i: int, off: int, at: int, m: int, b: int,
                bytes: seq<int>)
    requires Extends(fs, fs', i, at / BSIZE) && i in fs.ino && 0 <= off <= at && 0 < m && at + m <= MAXFILE * BSIZE
    requires at % BSIZE + m <= BSIZE && |bytes| == m
    requires Wf(fs', owner', limit) && b == SlotAddr(fs', i, at / BSIZE) && b != 0
    requires fs'' == WriteInto(fs', b, at % BSIZE, bytes)
    ensures var lo, hi := off / BSIZE, (at + m - 1) / BSIZE + 1;
      && (forall x :: at > off && Touched(fs, limit, i, lo, (at - 1) / BSIZE + 1, x) ==> Touched(fs'', limit, i, lo, hi, x))
      && (forall x :: Touched(fs', limit, i, at / BSIZE, at / BSIZE + 1, x) ==> Touched(fs'', limit, i, lo, hi, x))
      && Touched(fs'', limit, i, lo, hi, Data(b))
  {
    assert Writable(fs', owner', limit, i, at / BSIZE, at % BSIZE, bytes);
    forall t | IsSlot(t) ensures SlotAddr(fs'', i, t) == SlotAddr(fs', i, t) {
      WriteAddr(fs', owner', limit, i, at / BSIZE, at % BSIZE, bytes, i, t);
    }
    var lo, hi := off / BSIZE, (at + m - 1) / BSIZE + 1;
    SameBlock(at, m, at + m - 1);
    assert hi == at / BSIZE + 1 && lo <= at / BSIZE < MAXFILE;
    hide Wf, SlotAddr, Writable, WriteInto;
    if at > off {
      assert (at - 1) / BSIZE + 1 <= hi && lo <= (at - 1) / BSIZE;
      StillTouched(fs, fs', limit, i, at / BSIZE, lo, (at - 1) / BSIZE + 1);
      MoreTouched(fs', fs'', limit, i, lo, (at - 1) / BSIZE + 1, lo, hi);
    }
    MoreTouched(fs', fs'', limit, i, at / BSIZE, at / BSIZE + 1, lo, hi);
  }

  lemma MoreTouched(fs: FsState, fs': FsState, limit: int, i: int, lo: int, hi: int, lo': int, hi': int)
    requires 0 <= lo' <= lo && hi <= hi' <= MAXFILE
    requires forall t :: IsSlot(t) ==> SlotAddr(fs', i, t) == SlotAddr(fs, i, t)
    ensures forall x :: Touched(fs, limit, i, lo, hi, x) ==> Touched(fs', limit, i, lo', hi', x)
  {
    hide SlotAddr;
    assert IsSlot(INDIRECT);
    forall x | Touched(fs, limit, i, lo, hi, x) ensures Touched(fs', limit, i, lo', hi', x) {
      if x.Data? && x.b != SlotAddr(fs, i, INDIRECT) {
        var s :| lo <= s < hi && SlotAddr(fs, i, s) == x.b;
        assert IsSlot(s);
      }
    }
  }

  // The contents of the written file, whatever size it was given to cover the write.
  lemma ContentSpliced(fs0: FsState, fs: FsState, owner0: map<int, Slot>, limit: int, i: int, off: int, src: seq<int>)
    requires OthersKept(fs0, fs, i, off, |src|) && Written(fs, i, off, src, |src|)
    requires Wf(fs0, owner0, limit) && i in fs0.ino && i in fs.ino && 0 <= off <= fs0.ino[i].size
    requires fs.ino[i].size == if off + |src| > fs0.ino[i].size then off + |src| else fs0.ino[i].size
    ensures Content(fs, i) == Splice(Content(fs0, i), off, src)
  {
    var c0, c := Content(fs0, i), Content(fs, i);
    var t := Splice(c0, off, src);
    Contents(fs0, owner0, limit, i);
    assert |c| == |t|;
    forall k | 0 <= k < |c| ensures c[k] == t[k] {
      if off <= k < off + |src| {
        assert c[k] == ByteAt(fs, i, k) == src[k - off];
      } else {
        Mapped(fs0, owner0, limit, i, k);
        assert c[k] == ByteAt(fs, i, k) && c0[k] == ByteAt(fs0, i, k);
      }
    }
  }

  lemma ContentKept(fs0: FsState, fs: FsState, owner0: map<int, Slot>, limit: int, i: int, off: int, len: int, j: int)
    requires OthersKept(fs0, fs, i, off, len) && Wf(fs0, owner0, limit)
    requires j in fs0.ino && j in fs.ino && j != i && fs.ino[j].size == fs0.ino[j].size
    ensures Content(fs, j) == Content(fs0, j)
  {
    Contents(fs0, owner0, limit, j);
    forall k | 0 <= k < |Content(fs0, j)| ensures Content(fs, j)[k] == Content(fs0, j)[k] {
      Mapped(fs0, owner0, limit, j, k);
      assert ByteAt(fs, j, k) == ByteAt(fs0, j, k);
    }
  }

  // The write ended within the file: its bytes are in place and its size is as before.
  lemma ProgressWithin(fs0: FsState, fs: FsState, owner0: map<int, Slot>, limit: int, i: int, off: int, src: seq<int>)
    requires Progress(fs0, fs, i, off, src, |src|) && Wf(fs0, owner0, limit) && i in fs0.ino
    requires 0 <= off <= fs0.ino[i].size && (src == [] || off + |src| <= fs0.ino[i].size)
    ensures Spliced(fs0, fs, i, off, src)
  {
    hide Wf, SlotAddr, ByteAt, Content, Splice, OthersKept, Written;
    ContentSpliced(fs0, fs, owner0, limit, i, off, src);
    forall j | j in fs0.ino && j != i ensures Content(fs, j) == Content(fs0, j) {
      ContentKept(fs0, fs, owner0, limit, i, off, |src|, j);
    }
  }

  function Resized(fs: FsState, i: int, size: int): FsState {
    if i in fs.ino then fs.(ino := fs.ino[i := fs.ino[i].(size := size)]) else fs
  }

  lemma ResizedAddr(fs: FsState, i: int, size: int, j: int, t: int)
    ensures SlotAddr(Resized(fs, i, size), j, t) == SlotAddr(fs, j, t)
  {
  }

  // The write ended past the file: the size it gets leaves no hole.
  lemma ResizedWf(fs0: FsState, owner0: map<int, Slot>, fs: FsState, owner: map<int, Slot>, limit: int,
                  i: int, off: int, src: seq<int>)
    requires SameShape(fs0, fs, i) && Written(fs, i, off, src, |src|) && Wf(fs, owner, limit) && Wf(fs0, owner0, limit)
    requires i in fs.ino && 0 <= off <= fs0.ino[i].size < off + |src| <= MAXFILE * BSIZE
    ensures Wf(Resized(fs, i, off + |src|), owner, limit)
  {
    var fs' := Resized(fs, i, off + |src|);
    forall j, t ensures SlotAddr(fs', j, t) == SlotAddr(fs, j, t) {
      ResizedAddr(fs, i, off + |src|, j, t);
    }
    hide SlotAddr, ByteAt;
    forall j, s | 0 <= s < MAXFILE ensures NoHole(fs', j, s) {
      assert NoHole(fs, j, s);
      if j == i && fs.ino[i].size <= s * BSIZE < off + |src| {
        assert SlotAddr(fs, i, s * BSIZE / BSIZE) != 0;
        assert s * BSIZE / BSIZE == s;
      }
    }
  }

  lemma ProgressGrown(fs0: FsState, owner0: map<int, Slot>, fs: FsState, owner: map<int, Slot>, limit: int,
                      i: int, off: int, src: seq<int>)
    requires Progress(fs0, fs, i, off, src, |src|) && Wf(fs0, owner0, limit) && Wf(fs, owner, limit) && i in fs0.ino
    requires 0 <= off <= fs0.ino[i].size < off + |src| <= MAXFILE * BSIZE
    ensures var fs' := Resized(fs, i, off + |src|);
      && Wf(fs', owner, limit) && Spliced(fs0, fs', i, off, src)
      && forall lo, hi, x :: Touched(fs, limit, i, lo, hi, x) ==> Touched(fs', limit, i, lo, hi, x)
  {
    var fs' := Resized(fs, i, off + |src|);
    ResizedWf(fs0, owner0, fs, owner, limit, i, off, src);
    forall j, t ensures SlotAddr(fs', j, t) == SlotAddr(fs, j, t) {
      ResizedAddr(fs, i, off + |src|, j, t);
    }
    forall j, k ensures ByteAt(fs', j, k) == ByteAt(fs, j, k) {
    }
    assert Written(fs', i, off, src, |src|) && OthersKept(fs0, fs', i, off, |src|);
    hide Wf, SlotAddr, ByteAt, Content, Splice, OthersKept, Written;
    ContentSpliced(fs0, fs', owner0, limit, i, off, src);
    forall j | j in fs0.ino && j != i ensures Content(fs', j) == Content(fs0, j) {
      ContentKept(fs0, fs', owner0, limit, i, off, |src|, j);
    }
  }
}
