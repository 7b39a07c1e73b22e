/** Paths (fs.c): the components of a path, skipelem, and namex as a walk over directories. */
module Paths {
  import opened Files
  import opened FileSystem
  import opened Dirs
  import opened Directory

  const SLASH: int := 47
  const ROOTINO: int := 1

  // ---------------------------------------------------------------- components

  /** A component at s[q..eq]. */
  datatype Piece = Piece(q: int, eq: int)

  predicate Slashes(s: seq<int>, p: int, q: int) {
    0 <= p <= q <= |s| && forall i :: p <= i < q ==> s[i] == SLASH
  }

  /** Longest, not empty, and without slashes. */
  predicate PieceAt(s: seq<int>, x: Piece) {
    && 0 <= x.q < x.eq <= |s| && (forall i :: x.q <= i < x.eq ==> s[i] != SLASH) && (x.eq < |s| ==> s[x.eq] == SLASH)
  }

  /** The pieces stand one after the other from p on, with only slashes between and around them. */
  predicate Splits(s: seq<int>, p: int, xs: seq<Piece>)
    decreases xs
  {
    if xs == [] then Slashes(s, p, |s|)
    else Slashes(s, p, xs[0].q) && PieceAt(s, xs[0]) && Splits(s, xs[0].eq, xs[1..])
  }

  function SkipSlashes(s: seq<int>, p: int): (q: int)
    ensures p <= q && (p <= |s| ==> q <= |s|)
    ensures 0 <= p <= |s| ==> Slashes(s, p, q) && (q < |s| ==> s[q] != SLASH)
    decreases |s| - p
  {
    if 0 <= p < |s| && s[p] == SLASH then SkipSlashes(s, p + 1) else p
  }

  function PieceEnd(s: seq<int>, p: int): (q: int)
    ensures p <= q && (p <= |s| ==> q <= |s|)
    ensures 0 <= p <= |s| ==> (forall i :: p <= i < q ==> s[i] != SLASH) && (q < |s| ==> s[q] == SLASH)
    decreases |s| - p
  {
    if 0 <= p < |s| && s[p] != SLASH then PieceEnd(s, p + 1) else p
  }

  function Pieces(s: seq<int>, p: int): (xs: seq<Piece>)
    decreases |s| - p
  {
    var q := SkipSlashes(s, p);
    if 0 <= p && q < |s| then [Piece(q, PieceEnd(s, q))] + Pieces(s, PieceEnd(s, q)) else []
  }

  lemma SkipsTo(s: seq<int>, p: int, q: int)
    requires Slashes(s, p, q) && (q < |s| ==> s[q] != SLASH)
    ensures SkipSlashes(s, p) == q
    decreases q - p
  {
    if p < q {
      assert s[p] == SLASH;
      SkipsTo(s, p + 1, q);
    }
  }

  lemma EndsAt(s: seq<int>, p: int, q: int)
    requires 0 <= p <= q <= |s| && (forall i :: p <= i < q ==> s[i] != SLASH) && (q < |s| ==> s[q] == SLASH)
    ensures PieceEnd(s, p) == q
    decreases q - p
  {
    if p < q {
      assert s[p] != SLASH;
      EndsAt(s, p + 1, q);
    }
  }

  /** A path has exactly one list of components. */
  lemma {:induction false} SplitsExactly(s: seq<int>, p: int, xs: seq<Piece>)
    requires 0 <= p <= |s|
    ensures Splits(s, p, xs) <==> xs == Pieces(s, p)
    decreases |s| - p
  {
    var q := SkipSlashes(s, p);
    if xs == [] {
      if Slashes(s, p, |s|) {
        SkipsTo(s, p, |s|);
      }
    } else {
      if Splits(s, p, xs) {
        SkipsTo(s, p, xs[0].q);
        EndsAt(s, q, xs[0].eq);
      }
      if q < |s| {
        SplitsExactly(s, PieceEnd(s, q), xs[1..]);
        assert xs == [xs[0]] + xs[1..];
      }
    }
  }

  /** The name skipelem copies for a component. */
  function Name(s: seq<int>, x: Piece): seq<int> {
    if 0 <= x.q <= x.eq <= |s| then s[x.q..if x.eq - x.q >= DIRSIZ then x.q + DIRSIZ else x.eq] else []
  }

  function Names(s: seq<int>, xs: seq<Piece>): (r: seq<seq<int>>)
    ensures |r| == |xs|
  {
    seq(|xs|, i requires 0 <= i < |xs| => Name(s, xs[i]))
  }

  /** The non-empty components, each truncated to fourteen bytes. */
  function Components(s: seq<int>, p: int): seq<seq<int>> {
    Names(s, Pieces(s, p))
  }

  /** skipelem: the next component, and where to go on; -1 when there is none. */
  method Skipelem(path: seq<int>, p: nat) returns (next: int, name: seq<int>)
    requires p <= |path| && forall i :: 0 <= i < |path| ==> path[i] != 0
    ensures next == -1 <==> Components(path, p) == []
    ensures next != -1 ==>
      && p < next <= |path| && name == Components(path, p)[0] && Components(path, next) == Components(path, p)[1..]
      && (Char(path, next) == 0 <==> Components(path, next) == [])
  {
    hide Slashes, PieceAt;
    var i := p;
    while Char(path, i) == SLASH
      invariant p <= i <= |path| && SkipSlashes(path, i) == SkipSlashes(path, p)
      decreases |path| - i
    {
      i := i + 1;
    }
    if Char(path, i) == 0 {
      return -1, [];
    }
    var s := i;
    while Char(path, i) != SLASH && Char(path, i) != 0
      invariant s <= i <= |path| && PieceEnd(path, i) == PieceEnd(path, s)
      decreases |path| - i
    {
      i := i + 1;
    }
    var len := i - s;
    if len >= DIRSIZ {
      name := path[s..s + DIRSIZ];
    } else {
      name := path[s..s + len];
    }
    ghost var e := i;
    while Char(path, i) == SLASH
      invariant e <= i <= |path| && SkipSlashes(path, i) == SkipSlashes(path, e)
      decreases |path| - i
    {
      i := i + 1;
    }
    next := i;
    assert Pieces(path, p) == [Piece(s, e)] + Pieces(path, e);
    assert Pieces(path, next) == Pieces(path, e);
    assert Names(path, Pieces(path, p))[1..] == Names(path, Pieces(path, e));
  }

  // ---------------------------------------------------------------- the walk

  /** Following names from inode i, through directories only. */
  function Walk(fs: FsState, dirs: set<int>, i: int, names: seq<seq<int>>): Option<int>
    decreases |names|
  {
    if names == [] then Some(i)
    else if i !in dirs || Key(names[0]) !in DirMap(fs, i) then None
    else Walk(fs, dirs, DirMap(fs, i)[Key(names[0])], names[1..])
  }

  /** Following a path in two parts. */
  lemma {:induction false} WalkInParts(fs: FsState, dirs: set<int>, i: int, a: seq<seq<int>>, b: seq<seq<int>>)
    ensures Walk(fs, dirs, i, a + b) ==
      if Walk(fs, dirs, i, a) == None then None else Walk(fs, dirs, Walk(fs, dirs, i, a).value, b)
    decreases |a|
  {
    if a == [] {
      assert a + b == b;
    } else {
      assert (a + b)[1..] == a[1..] + b;
      if i in dirs && Key(a[0]) in DirMap(fs, i) {
        WalkInParts(fs, dirs, DirMap(fs, i)[Key(a[0])], a[1..], b);
      }
    }
  }

  /** nameiparent's answer: the directory that the last name is to be looked up in. */
  function Parent(fs: FsState, dirs: set<int>, i: int, names: seq<seq<int>>): Option<int> {
    if names == [] then None
    else
      match Walk(fs, dirs, i, names[..|names| - 1])
      case None => None
      case Some(d) => if d in dirs then Some(d) else None
  }

  /** namei is a lookup of the last name in what nameiparent finds. */
  lemma ParentThenLast(fs: FsState, dirs: set<int>, i: int, names: seq<seq<int>>)
    requires names != []
    ensures var d, last := Parent(fs, dirs, i, names), Key(names[|names| - 1]);
      Walk(fs, dirs, i, names) == if d == None || last !in DirMap(fs, d.value) then None else Some(DirMap(fs, d.value)[last])
  {
    var n := |names| - 1;
    assert names == names[..n] + [names[n]];
    WalkInParts(fs, dirs, i, names[..n], [names[n]]);
    hide DirMap;
    if Walk(fs, dirs, i, names[..n]).Some? {
      var d := Walk(fs, dirs, i, names[..n]).value;
      assert [names[n]][1..] == [];
      assert Walk(fs, dirs, d, [names[n]]) == if d !in dirs || Key(names[n]) !in DirMap(fs, d) then None else Some(DirMap(fs, d)[Key(names[n])]);
    }
  }

  /** One level at a time: parent of a path with more than one component left. */
  lemma ParentOn(fs: FsState, dirs: set<int>, i: int, names: seq<seq<int>>)
    requires |names| >= 2
    ensures Parent(fs, dirs, i, names) ==
      if i !in dirs || Key(names[0]) !in DirMap(fs, i) then None else Parent(fs, dirs, DirMap(fs, i)[Key(names[0])], names[1..])
  {
    hide DirMap;
    assert names[..|names| - 1][1..] == names[1..][..|names[1..]| - 1];
  }

  lemma NamedInode(fs: FsState, dirs: set<int>, d: int, key: seq<int>)
    requires TreeOk(fs, dirs) && d in dirs && key in DirMap(fs, d)
    ensures DirMap(fs, d)[key] in fs.ino
  {
    hide DirMap, Unique;
  }

  /** namex: from the root or from cwd; with nameiparent, the directory and the last name. */
  method Namex(fs: InodeCache, dirs: set<int>, cwd: int, path: seq<int>, nameiparent: bool) returns (r: Option<int>, name: seq<int>)
    requires fs.Valid() && TreeOk(fs.State(), dirs) && cwd in fs.ino && ROOTINO in fs.ino
    requires forall i :: 0 <= i < |path| ==> path[i] != 0
    modifies fs`data, fs`used, fs`ino, fs`owner, fs`logged
    ensures fs.State() == old(fs.State()) && fs.owner == old(fs.owner) && fs.logged == old(fs.logged)
    ensures var start, names := if Char(path, 0) == SLASH then ROOTINO else cwd, Components(path, 0);
      && r == (if nameiparent then Parent(fs.State(), dirs, start, names) else Walk(fs.State(), dirs, start, names))
      && (nameiparent && r.Some? ==> name == names[|names| - 1])
  {
    hide Wf, DirMap, Components, Walk, Parent, TreeOk;
    ghost var s, names := fs.State(), Components(path, 0);
    var ip := if Char(path, 0) == SLASH then ROOTINO else cwd;
    ghost var start := ip;
    name := [];
    var p := 0;
    while true
      invariant 0 <= p <= |path| && fs.State() == s && fs.owner == old(fs.owner) && fs.logged == old(fs.logged) && ip in s.ino
      invariant Walk(s, dirs, ip, Components(path, p)) == Walk(s, dirs, start, names)
      invariant nameiparent ==> Parent(s, dirs, ip, Components(path, p)) == Parent(s, dirs, start, names)
      invariant nameiparent && Components(path, p) != [] ==> names != [] && Components(path, p)[|Components(path, p)| - 1] == names[|names| - 1]
      decreases |path| - p
    {
      ghost var left := Components(path, p);
      var next, elem := Skipelem(path, p);
      WalkNext(s, dirs, ip, left);
      if next == -1 {
        break;
      }
      name := elem;
      if ip !in dirs {
        return None, name;
      }
      if nameiparent && Char(path, next) == 0 {
        return Some(ip), name;
      }
      DirTree(s, dirs, ip);
      var inum, _ := Dirlookup(fs, ip, name);
      if inum == 0 {
        return None, name;
      }
      NamedInode(s, dirs, ip, Key(name));
      ip := inum;
      p := next;
    }
    r := if nameiparent then None else Some(ip);
  }

  lemma DirTree(fs: FsState, dirs: set<int>, d: int)
    requires TreeOk(fs, dirs) && d in dirs
    ensures IsDir(fs, d)
  {
  }

  // What the names that are left say about the walk and about the parent.
  lemma WalkNext(fs: FsState, dirs: set<int>, i: int, names: seq<seq<int>>)
    ensures names == [] ==> Walk(fs, dirs, i, names) == Some(i) && Parent(fs, dirs, i, names) == None
    ensures names != [] ==>
      Walk(fs, dirs, i, names) == (if i !in dirs || Key(names[0]) !in DirMap(fs, i) then None
                                   else Walk(fs, dirs, DirMap(fs, i)[Key(names[0])], names[1..]))
    ensures |names| == 1 ==> Parent(fs, dirs, i, names) == if i in dirs then Some(i) else None
    ensures |names| >= 2 ==>
      Parent(fs, dirs, i, names) == (if i !in dirs || Key(names[0]) !in DirMap(fs, i) then None
                                     else Parent(fs, dirs, DirMap(fs, i)[Key(names[0])], names[1..]))
  {
    hide DirMap;
    if |names| >= 2 {
      ParentOn(fs, dirs, i, names);
    }
  }
}
