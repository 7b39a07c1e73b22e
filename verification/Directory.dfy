/** dirlookup, dirlink (fs.c), isdirempty and the entry clearing of sys_unlink (sysfile.c), as loops
    over readi and writei of the directory's file. */
module Directory {
  import opened Files
  import opened FileSpace
  import opened FileSystem
  import opened Dirs

  function DirEntries(fs: FsState, dp: int): seq<Dirent> {
    Entries(Content(fs, dp))
  }

  /** A file of whole entries, so that no readi of one comes short. */
  predicate IsDir(fs: FsState, dp: int) {
    dp in fs.ino && fs.ino[dp].size % DIRENT == 0
  }

  /** The directory as a map. */
  function DirMap(fs: FsState, dp: int): map<seq<int>, int> {
    Dict(DirEntries(fs, dp))
  }

  /** Directories are made of whole entries with names that occur once, and each of the names leads
      to an inode. */
  predicate TreeOk(fs: FsState, dirs: set<int>) {
    forall d :: d in dirs ==> IsDir(fs, d) && Unique(DirEntries(fs, d)) && Leads(fs, d)
  }

  predicate Leads(fs: FsState, d: int) {
    forall key :: key in DirMap(fs, d) ==> DirMap(fs, d)[key] in fs.ino
  }

  lemma DirLength(fs: FsState, owner: map<int, Slot>, limit: int, dp: int)
    requires Wf(fs, owner, limit) && IsDir(fs, dp)
    ensures |Content(fs, dp)| == fs.ino[dp].size && 0 <= fs.ino[dp].size <= MAXFILE * BSIZE
    ensures |DirEntries(fs, dp)| * DIRENT == fs.ino[dp].size
  {
    hide Wf, Content, ByteAt, SlotAddr;
    Contents(fs, owner, limit, dp);
  }

  // The bytes readi returns for entry k.
  lemma EntryRead(c: seq<int>, k: int)
    requires |c| % DIRENT == 0 && 0 <= k < |c| / DIRENT
    ensures |Clip(c, DIRENT * k, DIRENT)| == DIRENT && Entry(Clip(c, DIRENT * k, DIRENT), 0) == Entries(c)[k]
  {
    var b := Clip(c, DIRENT * k, DIRENT);
    assert DIRENT * k + DIRENT <= |c|;
    assert b[2..DIRENT] == c[DIRENT * k + 2..DIRENT * k + DIRENT];
  }

  /** readi of a struct dirent; the file's size rules the short reads that panic out. */
  method ReadEntry(fs: InodeCache, dp: int, off: int) returns (d: Dirent)
    requires fs.Valid() && IsDir(fs.State(), dp) && 0 <= off < fs.ino[dp].size && off % DIRENT == 0
    modifies fs`data, fs`used, fs`ino, fs`owner, fs`logged
    ensures fs.State() == old(fs.State()) && fs.owner == old(fs.owner) && fs.logged == old(fs.logged)
    ensures off / DIRENT < |DirEntries(fs.State(), dp)| && d == DirEntries(fs.State(), dp)[off / DIRENT]
  {
    hide Wf, Content, Clip, Entry;
    DirLength(fs.State(), fs.owner, fs.limit, dp);
    EntryRead(Content(fs.State(), dp), off / DIRENT);
    var b := fs.Readi(dp, off, DIRENT);
    assert b.Some? && |b.value| == DIRENT;                      // no "dirlookup read" panic
    d := Entry(b.value, 0);
  }

  lemma FirstNext(es: seq<Dirent>, key: seq<int>, k: nat)
    ensures First(es, key, k) == if k >= |es| || (Live(es[k]) && Key(es[k].name) == key) then k else First(es, key, k + 1)
  {
  }

  lemma FirstDeadNext(es: seq<Dirent>, k: nat)
    ensures FirstDead(es, k) == if k >= |es| || !Live(es[k]) then k else FirstDead(es, k + 1)
  {
  }

  /** dirlookup: the inode number that the map has for the name, 0 for none, and the entry's offset. */
  method Dirlookup(fs: InodeCache, dp: int, name: seq<int>) returns (inum: int, off: int)
    requires fs.Valid() && IsDir(fs.State(), dp)
    modifies fs`data, fs`used, fs`ino, fs`owner, fs`logged
    ensures fs.State() == old(fs.State()) && fs.owner == old(fs.owner) && fs.logged == old(fs.logged)
    ensures inum == if Key(name) in DirMap(fs.State(), dp) then DirMap(fs.State(), dp)[Key(name)] else 0
    ensures inum == 0 <==> Key(name) !in DirMap(fs.State(), dp)
    ensures inum != 0 ==> off % DIRENT == 0 && off / DIRENT == First(DirEntries(fs.State(), dp), Key(name), 0) < |DirEntries(fs.State(), dp)|
  {
    hide Wf, Content, DirEntries, Dict, First;
    ghost var s, es := fs.State(), DirEntries(fs.State(), dp);
    DirLength(s, fs.owner, fs.limit, dp);
    DictFirst(es, Key(name));
    FirstNext(es, Key(name), 0);
    off := 0;
    while off < fs.ino[dp].size
      invariant fs.State() == s && fs.owner == old(fs.owner) && fs.logged == old(fs.logged)
      invariant 0 <= off <= fs.ino[dp].size && off % DIRENT == 0
      invariant First(es, Key(name), off / DIRENT) == First(es, Key(name), 0)
    {
      var de := ReadEntry(fs, dp, off);
      FirstNext(es, Key(name), off / DIRENT);
      if de.inum != 0 {
        var same := Strncmp(name, de.name, DIRSIZ);
        if same {
          return de.inum, off;
        }
      }
      off := off + DIRENT;
    }
    FirstNext(es, Key(name), off / DIRENT);
    inum := 0;
  }

  /** fs' is fs with the entry of dp at `off` now d; no other file changed. */
  ghost predicate EntryWritten(fs: FsState, fs': FsState, dp: int, off: int, d: Dirent) {
    && IsDir(fs', dp) && 0 <= off && off % DIRENT == 0 && off / DIRENT <= |DirEntries(fs, dp)|
    && DirEntries(fs', dp) ==
         (if off / DIRENT < |DirEntries(fs, dp)| then DirEntries(fs, dp)[off / DIRENT := d] else DirEntries(fs, dp) + [d])
    && fs'.ino.Keys == fs.ino.Keys && forall j :: j in fs.ino && j != dp ==> Content(fs', j) == Content(fs, j)
  }

  lemma SplicedEntry(fs: FsState, owner: map<int, Slot>, fs': FsState, owner': map<int, Slot>, limit: int, dp: int, off: int, d: Dirent)
    requires Wf(fs, owner, limit) && Wf(fs', owner', limit) && IsDir(fs, dp) && Spliced(fs, fs', dp, off, Bytes(d))
    requires 0 <= off <= fs.ino[dp].size && off % DIRENT == 0 && 0 <= d.inum < USHORT && |d.name| == DIRSIZ
    ensures EntryWritten(fs, fs', dp, off, d)
  {
    hide Wf, ByteAt, SlotAddr, Bytes, Splice, Entry, Content;
    DirLength(fs, owner, limit, dp);
    EntrySpliced(Content(fs, dp), off / DIRENT, d);
    Contents(fs', owner', limit, dp);
  }

  /** The file system can take an entry of dp at `off`: within the largest file, with a block for it. */
  predicate EntryFits(fs: FsState, limit: int, dp: int, off: int) {
    off + DIRENT <= MAXFILE * BSIZE && Fits(fs, limit, dp, off / BSIZE, off / BSIZE + 1)
  }

  lemma EntryBlock(off: int)
    requires 0 <= off && off % DIRENT == 0
    ensures (off + DIRENT - 1) / BSIZE == off / BSIZE
  {
  }

  /** writei of a struct dirent; None stands for the panics, which come exactly when the entry does not fit. */
  method WriteEntry(fs: InodeCache, dp: int, off: int, d: Dirent) returns (r: Option<int>)
    requires fs.Valid() && fs.dino == fs.ino && IsDir(fs.State(), dp) && 0 <= off <= fs.ino[dp].size && off % DIRENT == 0
    requires 0 <= d.inum < USHORT && |d.name| == DIRSIZ
    modifies fs`data, fs`used, fs`ino, fs`dino, fs`owner, fs`logged
    ensures r.Some? ==> fs.Valid() && fs.dino == fs.ino && EntryWritten(old(fs.State()), fs.State(), dp, off, d)
    ensures r.Some? <==> EntryFits(old(fs.State()), fs.limit, dp, off)
    ensures r.Some? ==> SlotsKept(old(fs.State()), fs.State(), dp)
    ensures SpaceKept(old(fs.State()), fs.State(), fs.limit, dp, off / BSIZE, off / BSIZE + 1)
  {
    hide Wf, Content, ByteAt, SlotAddr, Spliced, Touched, EntryWritten, Bytes, SpaceKept, Fits, SlotsKept;
    EntryBlock(off);
    ghost var s, owner := fs.State(), fs.owner;
    DirLength(s, owner, fs.limit, dp);
    BytesRead(d);
    r := fs.Writei(dp, Bytes(d), off);
    if r != Some(DIRENT) {
      return None;
    }
    SplicedEntry(s, owner, fs.State(), fs.owner, fs.limit, dp, off, d);
  }

  /** An entry of the directory that a new name can take over. */
  predicate HasDead(fs: FsState, dp: int) {
    exists k :: 0 <= k < |DirEntries(fs, dp)| && !Live(DirEntries(fs, dp)[k])
  }

  /** The slots of dp that one more name needs filled: none while there is a dead entry, which has its block. */
  function LinkNeeds(fs: FsState, dp: int): set<int> {
    if HasDead(fs, dp) then {}
    else Missing(fs, dp, DIRENT * |DirEntries(fs, dp)| / BSIZE, DIRENT * |DirEntries(fs, dp)| / BSIZE + 1)
  }

  /** A dead entry, or room behind the last entry. */
  predicate LinkRoom(fs: FsState, dp: int) {
    HasDead(fs, dp) || DIRENT * |DirEntries(fs, dp)| + DIRENT <= MAXFILE * BSIZE
  }

  // An entry in the file lies in a block that the file has.
  lemma EntryHasBlock(fs: FsState, owner: map<int, Slot>, limit: int, dp: int, off: int)
    requires Wf(fs, owner, limit) && dp in fs.ino && 0 <= off && off % DIRENT == 0 && off + DIRENT <= fs.ino[dp].size
    ensures Missing(fs, dp, off / BSIZE, off / BSIZE + 1) == {} && EntryFits(fs, limit, dp, off)
  {
    Mapped(fs, owner, limit, dp, off);
    assert off + DIRENT <= MAXFILE * BSIZE by {
      assert InodesOk(fs);
    }
    hide Wf, SlotAddr;
    MappedFits(fs, limit, dp, off / BSIZE, off / BSIZE + 1);
  }

  /** One more name in dp: it took the blocks it needed and no others, and at most one entry is new. */
  ghost predicate Linked(fs: FsState, fs': FsState, limit: int, dp: int) {
    && |FreeBlocks(fs', limit)| == |FreeBlocks(fs, limit)| - |LinkNeeds(fs, dp)|
    && SlotsKept(fs, fs', dp) && |DirEntries(fs, dp)| <= |DirEntries(fs', dp)| <= |DirEntries(fs, dp)| + 1
  }

  lemma LinkedSpace(fs: FsState, owner: map<int, Slot>, fs': FsState, owner': map<int, Slot>, limit: int, dp: int, off: int, d: Dirent)
    requires Wf(fs, owner, limit) && Wf(fs', owner', limit) && IsDir(fs, dp) && EntryWritten(fs, fs', dp, off, d)
    requires off == DIRENT * FirstDead(DirEntries(fs, dp), 0) && SlotsKept(fs, fs', dp) && EntryFits(fs, limit, dp, off)
    requires SpaceKept(fs, fs', limit, dp, off / BSIZE, off / BSIZE + 1)
    ensures Linked(fs, fs', limit, dp)
  {
    LinkFits(fs, owner, limit, dp, off);
    DirLength(fs', owner', limit, dp);
    hide Wf, DirEntries, Missing, FreeBlocks, FirstDead, LinkNeeds, HasDead, SlotsKept, Content, Fits;
    EntryHasBlock(fs', owner', limit, dp, off);
    assert Slack(fs', limit, dp, off / BSIZE, off / BSIZE + 1) == Slack(fs, limit, dp, off / BSIZE, off / BSIZE + 1);
  }

  // Where dirlink puts the entry, and when it fits there.
  lemma LinkFits(fs: FsState, owner: map<int, Slot>, limit: int, dp: int, off: int)
    requires Wf(fs, owner, limit) && IsDir(fs, dp) && off == DIRENT * FirstDead(DirEntries(fs, dp), 0)
    ensures HasDead(fs, dp) <==> off < fs.ino[dp].size
    ensures Missing(fs, dp, off / BSIZE, off / BSIZE + 1) == LinkNeeds(fs, dp)
    ensures EntryFits(fs, limit, dp, off) <==> LinkRoom(fs, dp) && |LinkNeeds(fs, dp)| <= |FreeBlocks(fs, limit)|
  {
    hide Wf, DirEntries, Missing, FreeBlocks, FirstDead, Live, Content, Get, SlotAddr, ByteAt;
    DirLength(fs, owner, limit, dp);
    FirstDeadAt(DirEntries(fs, dp), 0);
    if FirstDead(DirEntries(fs, dp), 0) < |DirEntries(fs, dp)| {
      EntryHasBlock(fs, owner, limit, dp, off);
      assert LinkNeeds(fs, dp) == {};
    } else {
      assert off == DIRENT * |DirEntries(fs, dp)|;
    }
  }

  lemma FirstDeadAt(es: seq<Dirent>, k: nat)
    requires k <= |es|
    ensures k <= FirstDead(es, k) <= |es|
    ensures FirstDead(es, k) < |es| <==> exists j :: k <= j < |es| && !Live(es[j])
    decreases |es| - k
  {
    if k < |es| {
      FirstDeadAt(es, k + 1);
    }
  }

  /** dirlink: -1 if the name is there, else the map gains it. inum is stored in 16 bits. None stands for
      the panics: no entry is dead and the file cannot grow by one, or the disk has no block for it. */
  method Dirlink(fs: InodeCache, dp: int, name: seq<int>, inum: int, ghost dirs: set<int>) returns (r: Option<int>)
    requires fs.Valid() && fs.dino == fs.ino && IsDir(fs.State(), dp) && 0 <= inum < UINT_LIMIT
    modifies fs`data, fs`used, fs`ino, fs`dino, fs`owner, fs`logged
    ensures Key(name) in DirMap(old(fs.State()), dp) ==> r == Some(-1) && fs.State() == old(fs.State()) && fs.dino == old(fs.dino)
    ensures r.Some? && Key(name) !in DirMap(old(fs.State()), dp) ==>
      && r.value == 0 && fs.Valid() && fs.dino == fs.ino && IsDir(fs.State(), dp) && fs.ino.Keys == old(fs.ino).Keys
      && (forall j :: j in old(fs.ino) && j != dp ==> Content(fs.State(), j) == Content(old(fs.State()), j))
      && (Unique(DirEntries(old(fs.State()), dp)) && inum % USHORT != 0 ==>
            && Unique(DirEntries(fs.State(), dp))
            && DirMap(fs.State(), dp) == DirMap(old(fs.State()), dp)[Key(name) := inum % USHORT])
    ensures r.Some? && TreeOk(old(fs.State()), dirs) && dp in dirs && inum % USHORT != 0 && inum % USHORT in fs.ino ==>
      TreeOk(fs.State(), dirs)
    ensures var s := old(fs.State());
      r == None <==> Key(name) !in DirMap(s, dp) && !(LinkRoom(s, dp) && |LinkNeeds(s, dp)| <= |FreeBlocks(s, fs.limit)|)
    ensures r == Some(0) ==> Linked(old(fs.State()), fs.State(), fs.limit, dp)
  {
    hide Wf, Content, DirEntries, Dict, FirstDead, Unique, TreeOk, EntryFits, HasDead, LinkNeeds, LinkRoom, FreeBlocks, SpaceKept, SlotsKept, Linked;
    ghost var s, owner, es := fs.State(), fs.owner, DirEntries(fs.State(), dp);
    var ip, _ := Dirlookup(fs, dp, name);
    if ip != 0 {
      return Some(-1);
    }
    DirLength(s, fs.owner, fs.limit, dp);
    var off := 0;
    FirstDeadNext(es, 0);
    while off < fs.ino[dp].size
      invariant fs.State() == s && fs.owner == old(fs.owner) && fs.dino == fs.ino
      invariant 0 <= off <= fs.ino[dp].size && off % DIRENT == 0
      invariant FirstDead(es, off / DIRENT) == FirstDead(es, 0)
    {
      var de := ReadEntry(fs, dp, off);
      FirstDeadNext(es, off / DIRENT);
      if de.inum == 0 {
        break;
      }
      off := off + DIRENT;
    }
    FirstDeadNext(es, off / DIRENT);
    LinkFits(s, owner, fs.limit, dp, off);
    var buf := new int[DIRSIZ];
    Strncpy(buf, name);
    var d := Dirent(inum % USHORT, buf[..]);
    r := WriteEntry(fs, dp, off, d);
    if r.Some? {
      LinkedMap(s, fs.State(), dp, off, d);
      LinkedSpace(s, owner, fs.State(), fs.owner, fs.limit, dp, off, d);
      if TreeOk(s, dirs) && dp in dirs && Live(d) && d.inum in fs.ino {
        TreeLinked(s, owner, fs.State(), fs.owner, fs.limit, dirs, dp, Key(name), d.inum);
      }
      r := Some(0);
    }
  }

  lemma LinkedMap(fs: FsState, fs': FsState, dp: int, off: int, d: Dirent)
    requires EntryWritten(fs, fs', dp, off, d) && off / DIRENT == FirstDead(DirEntries(fs, dp), 0)
    requires Key(d.name) !in DirMap(fs, dp)
    ensures IsDir(fs', dp) && fs'.ino.Keys == fs.ino.Keys && forall j :: j in fs.ino && j != dp ==> Content(fs', j) == Content(fs, j)
    ensures Unique(DirEntries(fs, dp)) && Live(d) ==>
      Unique(DirEntries(fs', dp)) && DirMap(fs', dp) == DirMap(fs, dp)[Key(d.name) := d.inum]
  {
    hide Content, DirEntries, Dict, Unique, FirstDead;
    if Unique(DirEntries(fs, dp)) && Live(d) {
      LinkDict(DirEntries(fs, dp), DirEntries(fs', dp), off / DIRENT, d);
    }
  }

  // The other directories do not change.
  lemma TreeSame(fs: FsState, owner: map<int, Slot>, fs': FsState, owner': map<int, Slot>, limit: int, dirs: set<int>, dp: int)
    requires Wf(fs, owner, limit) && Wf(fs', owner', limit) && TreeOk(fs, dirs)
    requires fs'.ino.Keys == fs.ino.Keys
    requires forall j :: j in fs.ino && j != dp ==> Content(fs', j) == Content(fs, j)
    requires IsDir(fs', dp) && Unique(DirEntries(fs', dp)) && Leads(fs', dp)
    ensures TreeOk(fs', dirs)
  {
    hide Wf, Content, DirEntries, Dict, Unique;
    forall d | d in dirs ensures IsDir(fs', d) && Unique(DirEntries(fs', d)) && Leads(fs', d) {
      if d != dp {
        SameDir(fs, owner, fs', owner', limit, d);
      }
    }
  }

  lemma TreeLinked(fs: FsState, owner: map<int, Slot>, fs': FsState, owner': map<int, Slot>, limit: int, dirs: set<int>,
                   dp: int, key: seq<int>, inum: int)
    requires Wf(fs, owner, limit) && Wf(fs', owner', limit) && TreeOk(fs, dirs) && dp in dirs && inum in fs.ino
    requires fs'.ino.Keys == fs.ino.Keys
    requires forall j :: j in fs.ino && j != dp ==> Content(fs', j) == Content(fs, j)
    requires IsDir(fs', dp)
    requires Unique(DirEntries(fs, dp)) ==> Unique(DirEntries(fs', dp)) && DirMap(fs', dp) == DirMap(fs, dp)[key := inum]
    ensures TreeOk(fs', dirs)
  {
    hide Wf, Content, DirMap, Unique;
    assert Unique(DirEntries(fs, dp)) && Leads(fs, dp);
    TreeSame(fs, owner, fs', owner', limit, dirs, dp);
  }

  predicate Empty(fs: FsState, dp: int) {
    forall k :: 2 <= k < |DirEntries(fs, dp)| ==> !Live(DirEntries(fs, dp)[k])
  }

  /** isdirempty: no live entry behind "." and "..". */
  method Isdirempty(fs: InodeCache, dp: int) returns (empty: bool)
    requires fs.Valid() && IsDir(fs.State(), dp)
    modifies fs`data, fs`used, fs`ino, fs`owner, fs`logged
    ensures fs.State() == old(fs.State()) && fs.owner == old(fs.owner) && fs.logged == old(fs.logged)
    ensures empty <==> Empty(fs.State(), dp)
  {
    hide Wf, Content, DirEntries;
    ghost var s, es := fs.State(), DirEntries(fs.State(), dp);
    DirLength(s, fs.owner, fs.limit, dp);
    var off := 2 * DIRENT;
    while off < fs.ino[dp].size
      invariant fs.State() == s && fs.owner == old(fs.owner) && fs.logged == old(fs.logged)
      invariant 2 * DIRENT <= off && off % DIRENT == 0
      invariant forall k :: 2 <= k < off / DIRENT && k < |es| ==> !Live(es[k])
    {
      var de := ReadEntry(fs, dp, off);
      if de.inum != 0 {
        return false;
      }
      off := off + DIRENT;
    }
    empty := true;
  }

  predicate DotName(key: seq<int>) {
    key == Key([46]) || key == Key([46, 46])
  }

  /** An existing name other than "." and "..", not of a directory that still has entries. */
  predicate Removable(fs: FsState, dirs: set<int>, dp: int, key: seq<int>) {
    !DotName(key) && key in DirMap(fs, dp) && (DirMap(fs, dp)[key] in dirs ==> Empty(fs, DirMap(fs, dp)[key]))
  }

  /** What sys_unlink does to the directory: refused, or the map loses the name and no other file
      changes. `dirs` are the inodes of type T_DIR. */
  method Unlink(fs: InodeCache, dirs: set<int>, dp: int, name: seq<int>) returns (r: Option<int>)
    requires fs.Valid() && fs.dino == fs.ino && IsDir(fs.State(), dp) && forall i :: i in dirs ==> IsDir(fs.State(), i)
    modifies fs`data, fs`used, fs`ino, fs`dino, fs`owner, fs`logged
    ensures r == Some(-1) ==> fs.State() == old(fs.State()) && fs.dino == old(fs.dino)
    ensures r.Some? && r.value == if Removable(old(fs.State()), dirs, dp, Key(name)) then 0 else -1
    ensures r == Some(0) ==>
      && fs.Valid() && fs.dino == fs.ino && IsDir(fs.State(), dp)
      && (forall j :: j in old(fs.ino) && j != dp ==> Content(fs.State(), j) == Content(old(fs.State()), j))
      && (Unique(DirEntries(old(fs.State()), dp)) ==>
            Unique(DirEntries(fs.State(), dp)) && DirMap(fs.State(), dp) == DirMap(old(fs.State()), dp) - {Key(name)})
    ensures r.Some? && TreeOk(old(fs.State()), dirs) && dp in dirs ==> TreeOk(fs.State(), dirs)
  {
    hide Wf, Content, DirEntries, Dict, Unique, First, TreeOk, EntryFits, SlotsKept, SpaceKept;
    ghost var s, owner, es := fs.State(), fs.owner, DirEntries(fs.State(), dp);
    var dot := Strncmp(name, [46], DIRSIZ);
    var dotdot := Strncmp(name, [46, 46], DIRSIZ);
    if dot || dotdot {
      return Some(-1);
    }
    var ip, off := Dirlookup(fs, dp, name);
    if ip == 0 {
      return Some(-1);
    }
    if ip in dirs {
      var empty := Isdirempty(fs, ip);
      if !empty {
        return Some(-1);
      }
    }
    DirLength(s, fs.owner, fs.limit, dp);
    var d := Dirent(0, seq(DIRSIZ, _ => 0));
    FoundAt(es, Key(name), off);
    EntryHasBlock(s, owner, fs.limit, dp, off);                 // no "unlink: writei" panic
    r := WriteEntry(fs, dp, off, d);
    if r.Some? {
      UnlinkedMap(s, fs.State(), dp, off, d);
      if TreeOk(s, dirs) && dp in dirs {
        TreeUnlinked(s, owner, fs.State(), fs.owner, fs.limit, dirs, dp, Key(name));
      }
      r := Some(0);
    }
  }

  lemma TreeUnlinked(fs: FsState, owner: map<int, Slot>, fs': FsState, owner': map<int, Slot>, limit: int, dirs: set<int>,
                     dp: int, key: seq<int>)
    requires Wf(fs, owner, limit) && Wf(fs', owner', limit) && TreeOk(fs, dirs) && dp in dirs
    requires fs'.ino.Keys == fs.ino.Keys
    requires forall j :: j in fs.ino && j != dp ==> Content(fs', j) == Content(fs, j)
    requires IsDir(fs', dp)
    requires Unique(DirEntries(fs, dp)) ==> Unique(DirEntries(fs', dp)) && DirMap(fs', dp) == DirMap(fs, dp) - {key}
    ensures TreeOk(fs', dirs)
  {
    hide Wf, Content, DirMap, Unique;
    assert Unique(DirEntries(fs, dp)) && Leads(fs, dp);
    TreeSame(fs, owner, fs', owner', limit, dirs, dp);
  }

  lemma FoundAt(es: seq<Dirent>, key: seq<int>, off: int)
    requires off % DIRENT == 0 && off / DIRENT == First(es, key, 0) < |es|
    ensures 0 <= off < |es| * DIRENT && Live(es[off / DIRENT]) && Key(es[off / DIRENT].name) == key
  {
  }

  lemma UnlinkedMap(fs: FsState, fs': FsState, dp: int, off: int, d: Dirent)
    requires EntryWritten(fs, fs', dp, off, d) && off / DIRENT < |DirEntries(fs, dp)| && Live(DirEntries(fs, dp)[off / DIRENT]) && !Live(d)
    ensures IsDir(fs', dp) && fs'.ino.Keys == fs.ino.Keys && forall j :: j in fs.ino && j != dp ==> Content(fs', j) == Content(fs, j)
    ensures Unique(DirEntries(fs, dp)) ==>
      && Unique(DirEntries(fs', dp))
      && DirMap(fs', dp) == DirMap(fs, dp) - {Key(DirEntries(fs, dp)[off / DIRENT].name)}
  {
    hide Content, DirEntries, Dict, Unique;
    if Unique(DirEntries(fs, dp)) {
      UnlinkDict(DirEntries(fs, dp), off / DIRENT, d);
    }
  }

  lemma DotsDiffer()
    ensures Key([46]) != Key([46, 46])
  {
    assert Key([46]) == [46] && Key([46, 46]) == [46, 46];
  }

  lemma EmptyDir(fs: FsState, owner: map<int, Slot>, limit: int, dp: int)
    requires Wf(fs, owner, limit) && dp in fs.ino && fs.ino[dp].size == 0
    ensures IsDir(fs, dp) && DirEntries(fs, dp) == [] && Unique(DirEntries(fs, dp)) && DirMap(fs, dp) == map[]
  {
    hide Wf, Content;
    Contents(fs, owner, limit, dp);
  }

  // A directory whose bytes did not change.
  lemma SameDir(fs: FsState, owner: map<int, Slot>, fs': FsState, owner': map<int, Slot>, limit: int, dp: int)
    requires Wf(fs, owner, limit) && Wf(fs', owner', limit) && dp in fs'.ino && IsDir(fs, dp) && Content(fs', dp) == Content(fs, dp)
    ensures IsDir(fs', dp) && DirEntries(fs', dp) == DirEntries(fs, dp) && DirMap(fs', dp) == DirMap(fs, dp)
  {
    hide Wf, Content, Entries, Dict;
    Contents(fs, owner, limit, dp);
    Contents(fs', owner', limit, dp);
  }

  datatype FileType = T_DIR | T_FILE | T_DEV

  /** create's work on directories, for an inode ip fresh from ialloc. A name that was there stays, and
      is the answer only for a file asked for and found (0 otherwise); else dp's map gains the name and
      a new directory has "." and ".."; none of the dirlinks answers -1. None stands for the "out of
      blocks" and "dirlink" panics; `files` and `dirs` are the inodes of type T_FILE and T_DIR. */
  method Create(fs: InodeCache, files: set<int>, ghost dirs: set<int>, dp: int, name: seq<int>, ip: int, ty: FileType) returns (r: Option<int>)
    requires fs.Valid() && fs.dino == fs.ino && IsDir(fs.State(), dp) && Unique(DirEntries(fs.State(), dp))
    requires ip in fs.ino && ip != dp && fs.ino[ip].size == 0 && 0 < ip < USHORT && 0 < dp < USHORT
    modifies fs`data, fs`used, fs`ino, fs`dino, fs`owner, fs`logged
    ensures var m := DirMap(old(fs.State()), dp);
      Key(name) in m ==>
        && r == Some(if ty == T_FILE && m[Key(name)] in files then m[Key(name)] else 0)
        && fs.State() == old(fs.State()) && fs.dino == old(fs.dino)
    ensures r.Some? && Key(name) !in DirMap(old(fs.State()), dp) ==>
      && r.value == ip && fs.Valid() && fs.dino == fs.ino && IsDir(fs.State(), dp) && IsDir(fs.State(), ip)
      && Unique(DirEntries(fs.State(), dp)) && DirMap(fs.State(), dp) == DirMap(old(fs.State()), dp)[Key(name) := ip]
      && (ty == T_DIR ==> Unique(DirEntries(fs.State(), ip)) && DirMap(fs.State(), ip) == map[Key([46]) := ip, Key([46, 46]) := dp])
      && (forall j :: j in old(fs.ino) && j != dp && j != ip ==> Content(fs.State(), j) == Content(old(fs.State()), j))
    ensures r == None <==> Key(name) !in DirMap(old(fs.State()), dp) && !CreateFits(old(fs.State()), fs.limit, dp, ip, ty)
    ensures r.Some? && TreeOk(old(fs.State()), dirs) && dp in dirs ==>
      TreeOk(fs.State(), if ty == T_DIR && r == Some(ip) && Key(name) !in DirMap(old(fs.State()), dp) then dirs + {ip} else dirs)
  {
    hide Wf, Content, Entries, Dict, Unique, Key, TreeOk, LinkNeeds, LinkRoom, FreeBlocks, Linked, Missing, SlotsKept;
    var found, _ := Dirlookup(fs, dp, name);
    if found != 0 {
      return Some(if ty == T_FILE && found in files then found else 0);
    }
    ghost var s, owner := fs.State(), fs.owner;
    ghost var all := if ty == T_DIR then dirs + {ip} else dirs;
    EmptyDir(s, owner, fs.limit, ip);
    DotsDiffer();
    if TreeOk(s, dirs) {
      TreeMore(s, dirs, ip);
    }
    if ty == T_DIR {
      CreateNeeds(s, owner, fs.limit, dp, ip, ty);
      var dot := Dirlink(fs, ip, [46], ip, all);
      if dot == None {
        return None;
      }
      assert dot == Some(0);
      ghost var s', owner' := fs.State(), fs.owner;
      SecondFits(s, owner, s', owner', fs.limit, ip);
      var dotdot := Dirlink(fs, ip, [46, 46], dp, all);
      assert dotdot == Some(0);                                 // no "create dots" panic
      SameDir(s, owner, fs.State(), fs.owner, fs.limit, dp);
      DotsSpace(s, owner, s', fs.State(), fs.owner, fs.limit, dp, ip);
    }
    ghost var s1, owner1 := fs.State(), fs.owner;
    r := Dirlink(fs, dp, name, ip, all);
    if r.Some? {
      assert r == Some(0);                                      // no "create: dirlink" panic
      SameDir(s1, owner1, fs.State(), fs.owner, fs.limit, ip);
      r := Some(ip);
    }
  }

  /** The disk has the blocks that the new entry and, in a new directory, the first two entries need. */
  predicate CreateFits(fs: FsState, limit: int, dp: int, ip: int, ty: FileType) {
    LinkRoom(fs, dp) &&
    |LinkNeeds(fs, dp)| + (if ty == T_DIR then |Missing(fs, ip, 0, 1)| else 0) <= |FreeBlocks(fs, limit)|
  }

  // What the first entry of a new directory needs.
  lemma CreateNeeds(fs: FsState, owner: map<int, Slot>, limit: int, dp: int, ip: int, ty: FileType)
    requires Wf(fs, owner, limit) && ip in fs.ino && fs.ino[ip].size == 0 && ty == T_DIR
    ensures LinkRoom(fs, ip) && LinkNeeds(fs, ip) == Missing(fs, ip, 0, 1)
    ensures CreateFits(fs, limit, dp, ip, ty) ==> |LinkNeeds(fs, ip)| <= |FreeBlocks(fs, limit)|
  {
    EmptyDir(fs, owner, limit, ip);
    hide Wf, Missing, FreeBlocks, DirEntries, DirMap;
    assert DIRENT * |DirEntries(fs, ip)| / BSIZE == 0;
  }

  // The second entry goes into the block of the first.
  lemma SecondFits(fs: FsState, owner: map<int, Slot>, fs': FsState, owner': map<int, Slot>, limit: int, ip: int)
    requires Wf(fs, owner, limit) && ip in fs.ino && fs.ino[ip].size == 0
    requires Wf(fs', owner', limit) && IsDir(fs', ip) && DirMap(fs', ip) != map[] && Linked(fs, fs', limit, ip)
    ensures LinkRoom(fs', ip) && LinkNeeds(fs', ip) == {}
  {
    EmptyDir(fs, owner, limit, ip);
    DirLength(fs', owner', limit, ip);
    NoEntries(DirEntries(fs', ip));
    hide Wf, Missing, FreeBlocks, DirEntries, Dict, Content, LinkNeeds;
    assert |DirEntries(fs', ip)| == 1;
    EntryHasBlock(fs', owner', limit, ip, 0);
    assert LinkNeeds(fs', ip) == {} by {
      assert DIRENT * 1 / BSIZE == 0;
    }
  }

  lemma NoEntries(es: seq<Dirent>)
    ensures es == [] ==> Dict(es) == map[]
  {
  }

  // "." and ".." took the blocks of the new directory and nothing of dp's.
  lemma DotsSpace(fs: FsState, owner: map<int, Slot>, fs': FsState, fs'': FsState, owner'': map<int, Slot>, limit: int, dp: int, ip: int)
    requires Wf(fs, owner, limit) && ip != dp && ip in fs.ino && fs.ino[ip].size == 0
    requires Linked(fs, fs', limit, ip) && Linked(fs', fs'', limit, ip) && LinkNeeds(fs', ip) == {}
    requires DirEntries(fs'', dp) == DirEntries(fs, dp)
    ensures LinkRoom(fs'', dp) == LinkRoom(fs, dp) && LinkNeeds(fs'', dp) == LinkNeeds(fs, dp)
    ensures |FreeBlocks(fs'', limit)| == |FreeBlocks(fs, limit)| - |Missing(fs, ip, 0, 1)|
  {
    CreateNeeds(fs, owner, limit, dp, ip, T_DIR);
    hide Wf, Missing, FreeBlocks, DirEntries, SlotsKept;
    var lo := DIRENT * |DirEntries(fs, dp)| / BSIZE;
    OthersMissing(fs, fs', ip, dp, lo, lo + 1);
    OthersMissing(fs', fs'', ip, dp, lo, lo + 1);
  }

  // An empty file may count as a directory.
  lemma TreeMore(fs: FsState, dirs: set<int>, ip: int)
    requires TreeOk(fs, dirs) && IsDir(fs, ip) && Unique(DirEntries(fs, ip)) && DirMap(fs, ip) == map[]
    ensures TreeOk(fs, dirs + {ip})
  {
    hide DirMap, DirEntries, Unique, IsDir;
    assert Leads(fs, ip);
  }
}
