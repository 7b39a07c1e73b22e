/** Directories (fs.c) on values: sixteen-byte entries in the bytes of a file, names that count up
    to fourteen bytes, and the finite map that the live entries are. */
module Dirs {
  import opened Files

  const DIRSIZ: nat := 14
  const DIRENT: int := 16                // sizeof(struct dirent)
  const USHORT: int := 0x1_0000

  // ---------------------------------------------------------------- names

  /** The C string t, at most n bytes of it. */
  function Upto(t: seq<int>, n: nat): (r: seq<int>)
    ensures |r| <= n && |r| <= |t|
    ensures forall i :: 0 <= i < |r| ==> r[i] == t[i] != 0
    ensures |r| < n && |r| < |t| ==> t[|r|] == 0
  {
    if n == 0 || t == [] || t[0] == 0 then [] else [t[0]] + Upto(t[1..], n - 1)
  }

  /** What a name counts as in a directory. */
  function Key(t: seq<int>): (r: seq<int>)
    ensures |r| <= DIRSIZ
  {
    Upto(t, DIRSIZ)
  }

  lemma UptoIs(t: seq<int>, n: nat, k: nat)
    requires k <= n && k <= |t| && (forall i :: 0 <= i < k ==> t[i] != 0) && (k < n && k < |t| ==> t[k] == 0)
    ensures Upto(t, n) == t[..k]
  {
    if k > 0 {
      UptoIs(t[1..], n - 1, k - 1);
      assert t[..k] == [t[0]] + t[1..][..k - 1];
    }
  }

  function Char(t: seq<int>, i: int): int {
    if 0 <= i < |t| then t[i] else 0
  }

  /** strncmp, up to its sign. */
  method Strncmp(p: seq<int>, q: seq<int>, n: nat) returns (same: bool)
    ensures same <==> Upto(p, n) == Upto(q, n)
  {
    var i := 0;
    while n - i > 0 && Char(p, i) != 0 && Char(p, i) == Char(q, i)
      invariant 0 <= i <= n && i <= |p| && i <= |q|
      invariant forall k :: 0 <= k < i ==> p[k] == q[k] != 0
    {
      i := i + 1;
    }
    UptoFrom(p, n, i);
    UptoFrom(q, n, i);
    same := n - i == 0 || Char(p, i) == Char(q, i);
    if same {
      UptoIs(p, n, i);
      UptoIs(q, n, i);
      assert p[..i] == q[..i];
    }
  }

  // The bytes before position i belong to the name, the one there decides whether it goes on.
  lemma UptoFrom(t: seq<int>, n: nat, i: nat)
    requires i <= n && i <= |t| && forall k :: 0 <= k < i ==> t[k] != 0
    ensures |Upto(t, n)| >= i
    ensures i < n ==> (|Upto(t, n)| > i <==> Char(t, i) != 0)
    ensures i < n && Char(t, i) != 0 ==> Upto(t, n)[i] == Char(t, i)
  {
  }

  /** strncpy into de.name: the name, padded with NULs, or its first fourteen bytes. */
  method Strncpy(s: array<int>, t: seq<int>)
    requires s.Length == DIRSIZ
    modifies s
    ensures Key(s[..]) == Key(t)
    ensures forall k :: |Key(t)| <= k < DIRSIZ ==> s[k] == 0
  {
    hide Char, Key;
    var n: int, i := DIRSIZ, 0;
    ghost var k0 := DIRSIZ;
    while true
      invariant 0 <= n == DIRSIZ - i && forall k :: 0 <= k < i ==> s[k] == Char(t, k) != 0
      decreases n
    {
      n := n - 1;
      if n < 0 {
        break;
      }
      s[i] := Char(t, i);
      i := i + 1;
      if s[i - 1] == 0 {
        k0 := i - 1;
        break;
      }
    }
    while true
      invariant -1 <= n <= DIRSIZ && 0 <= i <= DIRSIZ && (if n >= 0 then n == DIRSIZ - i else i == DIRSIZ) && 0 <= k0 <= i
      invariant forall k :: 0 <= k < k0 ==> s[k] == Char(t, k) != 0
      invariant forall k :: k0 <= k < i ==> s[k] == 0
      invariant k0 < DIRSIZ ==> Char(t, k0) == 0
      decreases n
    {
      n := n - 1;
      if n < 0 {
        break;
      }
      s[i] := 0;
      i := i + 1;
    }
    SameName(s[..], t, k0);
  }

  lemma SameName(s: seq<int>, t: seq<int>, k0: nat)
    requires |s| == DIRSIZ && k0 <= DIRSIZ && (k0 < DIRSIZ ==> Char(t, k0) == 0)
    requires forall k :: 0 <= k < k0 ==> s[k] == Char(t, k) != 0
    requires forall k :: k0 <= k < DIRSIZ ==> s[k] == 0
    ensures Key(s) == Key(t) && |Key(t)| == k0
  {
    assert k0 > 0 ==> s[k0 - 1] == Char(t, k0 - 1) != 0;
    forall k | 0 <= k < k0 ensures t[k] != 0 {
      assert s[k] == Char(t, k);
    }
    UptoIs(t, DIRSIZ, k0);
    UptoIs(s, DIRSIZ, k0);
    assert s[..k0] == t[..k0];
  }

  // ---------------------------------------------------------------- entries

  datatype Dirent = Dirent(inum: int, name: seq<int>)

  function Entry(c: seq<int>, k: int): Dirent {
    if 0 <= k && DIRENT * k + DIRENT <= |c|
    then Dirent(c[DIRENT * k] + 0x100 * c[DIRENT * k + 1], c[DIRENT * k + 2..DIRENT * k + DIRENT])
    else Dirent(0, [])
  }

  /** A struct dirent in memory. */
  function Bytes(d: Dirent): seq<int> {
    [d.inum % 0x100, d.inum / 0x100] + d.name
  }

  function Entries(c: seq<int>): (es: seq<Dirent>)
    ensures |es| == |c| / DIRENT
  {
    seq(|c| / DIRENT, k => Entry(c, k))
  }

  lemma BytesRead(d: Dirent)
    requires 0 <= d.inum < USHORT && |d.name| == DIRSIZ
    ensures |Bytes(d)| == DIRENT && Entry(Bytes(d), 0) == d
  {
    assert Bytes(d)[2..16] == d.name;
  }

  /** Writing an entry at its place, or behind the last one, changes that entry only. */
  lemma EntrySpliced(c: seq<int>, k: int, d: Dirent)
    requires |c| % DIRENT == 0 && 0 <= k <= |c| / DIRENT && 0 <= d.inum < USHORT && |d.name| == DIRSIZ
    ensures var c' := Splice(c, DIRENT * k, Bytes(d));
      && |c'| % DIRENT == 0
      && Entries(c') == if k < |c| / DIRENT then Entries(c)[k := d] else Entries(c) + [d]
  {
    var at := DIRENT * k;
    var c' := Splice(c, at, Bytes(d));
    BytesRead(d);
    assert |c'| == if k < |c| / DIRENT then |c| else |c| + DIRENT;
    forall i | 0 <= i < |c'| ensures c'[i] == if at <= i < at + DIRENT then Bytes(d)[i - at] else c[i] {
    }
    var es := if k < |c| / DIRENT then Entries(c)[k := d] else Entries(c) + [d];
    forall j | 0 <= j < |es| ensures Entries(c')[j] == es[j] {
      EntrySplicedAt(c, k, d, c', j);
    }
  }

  lemma EntrySplicedAt(c: seq<int>, k: int, d: Dirent, c': seq<int>, j: int)
    requires |c| % DIRENT == 0 && |c'| % DIRENT == 0 && 0 <= k && 0 <= j < |c'| / DIRENT && |Bytes(d)| == DIRENT && Entry(Bytes(d), 0) == d
    requires DIRENT * k + DIRENT <= |c'| && (j != k ==> DIRENT * j + DIRENT <= |c|)
    requires forall i :: 0 <= i < |c'| && !(DIRENT * k <= i < DIRENT * k + DIRENT) ==> i < |c| && c'[i] == c[i]
    requires forall i :: DIRENT * k <= i < DIRENT * k + DIRENT ==> c'[i] == Bytes(d)[i - DIRENT * k]
    ensures Entry(c', j) == if j == k then d else Entry(c, j)
  {
    hide Bytes;
    var a := DIRENT * j;
    if j == k {
      assert c'[a + 2..a + DIRENT] == Bytes(d)[2..DIRENT];
    } else {
      assert c'[a + 2..a + DIRENT] == c[a + 2..a + DIRENT];
    }
  }

  // ---------------------------------------------------------------- the finite map

  predicate Live(d: Dirent) {
    d.inum != 0
  }

  /** The directory as a map; the first of several entries of one name would count. */
  function Dict(es: seq<Dirent>): map<seq<int>, int> {
    if es == [] then map[]
    else if Live(es[0]) then Dict(es[1..])[Key(es[0].name) := es[0].inum]
    else Dict(es[1..])
  }

  /** Live names are unique on what counts of them. */
  predicate Unique(es: seq<Dirent>) {
    forall i, j :: 0 <= i < j < |es| && Live(es[i]) && Live(es[j]) ==> Key(es[i].name) != Key(es[j].name)
  }

  /** The first live entry of that name from k on, or the end. */
  function First(es: seq<Dirent>, key: seq<int>, k: nat): (r: nat)
    ensures k <= |es| ==> k <= r <= |es| && (r < |es| ==> Live(es[r]) && Key(es[r].name) == key)
    decreases |es| - k
  {
    if k >= |es| || (Live(es[k]) && Key(es[k].name) == key) then k else First(es, key, k + 1)
  }

  /** The first dead entry from k on, or the end. */
  function FirstDead(es: seq<Dirent>, k: nat): (r: nat)
    ensures k <= |es| ==> k <= r <= |es| && (r < |es| ==> !Live(es[r]))
    decreases |es| - k
  {
    if k >= |es| || !Live(es[k]) then k else FirstDead(es, k + 1)
  }

  lemma {:induction false} FirstShift(es: seq<Dirent>, key: seq<int>, k: nat)
    requires es != [] && 1 <= k <= |es|
    ensures First(es, key, k) == First(es[1..], key, k - 1) + 1
    decreases |es| - k
  {
    if k < |es| && !(Live(es[k]) && Key(es[k].name) == key) {
      FirstShift(es, key, k + 1);
    }
  }

  /** dirlookup finds what the map says. */
  lemma {:induction false} DictFirst(es: seq<Dirent>, key: seq<int>)
    ensures key in Dict(es) <==> First(es, key, 0) < |es|
    ensures key in Dict(es) ==> Dict(es)[key] == es[First(es, key, 0)].inum
  {
    if es != [] {
      DictFirst(es[1..], key);
      FirstShift(es, key, 1);
    }
  }

  lemma {:induction false} DictHas(es: seq<Dirent>, i: nat)
    requires i < |es| && Live(es[i])
    ensures Key(es[i].name) in Dict(es)
    ensures Unique(es) ==> Dict(es)[Key(es[i].name)] == es[i].inum
  {
    if i > 0 {
      assert Unique(es) ==> Unique(es[1..]);
      DictHas(es[1..], i - 1);
      assert Unique(es) && Live(es[0]) ==> Key(es[0].name) != Key(es[i].name);
    }
  }

  /** A key of the map is the name of a live entry. */
  lemma DictFrom(es: seq<Dirent>, key: seq<int>) returns (i: nat)
    requires key in Dict(es)
    ensures i < |es| && Live(es[i]) && Key(es[i].name) == key
  {
    DictFirst(es, key);
    i := First(es, key, 0);
  }

  /** Only entry k differs, and it was dead or is new: the map gains its name. */
  lemma LinkDict(es: seq<Dirent>, es': seq<Dirent>, k: nat, d: Dirent)
    requires Unique(es) && k < |es'| && es'[k] == d && Live(d) && Key(d.name) !in Dict(es)
    requires |es| <= |es'| <= |es| + 1 && (k < |es| ==> !Live(es[k]) && |es'| == |es|) && (k >= |es| ==> k == |es|)
    requires forall i :: 0 <= i < |es| && i != k ==> es'[i] == es[i]
    ensures Unique(es') && Dict(es') == Dict(es)[Key(d.name) := d.inum]
  {
    forall i | 0 <= i < |es| && Live(es[i]) ensures Key(es[i].name) != Key(d.name) {
      DictHas(es, i);
    }
    assert Unique(es');
    hide Unique;
    forall key ensures key in Dict(es') <==> key in Dict(es) || key == Key(d.name) {
      if key in Dict(es') {
        var i := DictFrom(es', key);
        if i != k { DictHas(es, i); }
      }
      if key in Dict(es) {
        var i := DictFrom(es, key);
        DictHas(es', i);
      }
      DictHas(es', k);
    }
    forall key | key in Dict(es') ensures Dict(es')[key] == if key == Key(d.name) then d.inum else Dict(es)[key] {
      var i := DictFrom(es', key);
      DictHas(es', i);
      if i != k { DictHas(es, i); }
    }
  }

  /** Entry k was live and is now cleared: the map loses its name. */
  lemma UnlinkDict(es: seq<Dirent>, k: nat, d: Dirent)
    requires Unique(es) && k < |es| && Live(es[k]) && !Live(d)
    ensures Unique(es[k := d]) && Dict(es[k := d]) == Dict(es) - {Key(es[k].name)}
  {
    var es' := es[k := d];
    assert Unique(es');
    forall i | 0 <= i < |es| && i != k && Live(es[i]) ensures Key(es[i].name) != Key(es[k].name) {
    }
    hide Unique;
    forall key ensures key in Dict(es') <==> key in Dict(es) && key != Key(es[k].name) {
      if key in Dict(es') {
        var i := DictFrom(es', key);
        DictHas(es, i);
      }
      if key in Dict(es) && key != Key(es[k].name) {
        var i := DictFrom(es, key);
        DictHas(es', i);
      }
    }
    forall key | key in Dict(es') ensures Dict(es')[key] == Dict(es)[key] {
      var i := DictFrom(es', key);
      DictHas(es', i);
      DictHas(es, i);
    }
  }
}
