/** The command trees that parsecmd builds (sh.c), and what NUL-terminating their words in the
    buffer does to the strings that they point at. */
module ShellTree {
  import opened ShellTokens
  import opened ShellGrammar

  const O_RDONLY: int := 0
  const O_WRONLY: int := 1
  const O_CREATE: int := 0x200

  /** execcmd, redircmd, pipecmd, listcmd and backcmd as values; words are spans of the buffer. */
  datatype Tree =
    | ExecTree(args: seq<Token>)
    | RedirTree(cmd: Tree, file: Token, mode: int, fd: int)
    | PipeTree(left: Tree, right: Tree)
    | ListTree(left: Tree, right: Tree)
    | BackTree(cmd: Tree)

  function Mode(op: char): int {
    if op == '<' then O_RDONLY else O_WRONLY + O_CREATE
  }

  function Fd(op: char): int {
    if op == '<' then 0 else 1
  }

  /** Redirections wrap the command in the order they are read, the last outermost. */
  function WrapAll(t: Tree, rs: seq<Redirect>): Tree {
    if rs == [] then t
    else RedirTree(WrapAll(t, rs[..|rs| - 1]), rs[|rs| - 1].file, Mode(rs[|rs| - 1].op.kind), Fd(rs[|rs| - 1].op.kind))
  }

  function BackAll(t: Tree, n: nat): Tree {
    if n == 0 then t else BackTree(BackAll(t, n - 1))
  }

  function Args(its: seq<Item>): seq<Token> {
    if its == [] then [] else [its[0].word] + Args(its[1..])
  }

  function ItemRedirs(its: seq<Item>): seq<Redirect> {
    if its == [] then [] else its[0].redirs + ItemRedirs(its[1..])
  }

  function LineTree(l: Line): Tree {
    match l
    case End(p, bs) => BackAll(PipeTreeOf(p), |bs|)
    case Then(p, bs, semi, rest) => ListTree(BackAll(PipeTreeOf(p), |bs|), LineTree(rest))
  }

  function PipeTreeOf(p: Pipe): Tree {
    match p
    case One(e) => ExecTreeOf(e)
    case Bar(e, bar, rest) => PipeTree(ExecTreeOf(e), PipeTreeOf(rest))
  }

  function ExecTreeOf(e: Exec): Tree {
    match e
    case Block(open, l, close, rs) => WrapAll(LineTree(l), rs)
    case Simple(rs, its) => WrapAll(ExecTree(Args(its)), rs + ItemRedirs(its))
  }

  // ---------------------------------------------------------------- the words of a tree

  /** argv entries and redirection files. */
  function TreeWords(t: Tree): seq<Token> {
    match t
    case ExecTree(args) => args
    case RedirTree(c, file, _, _) => TreeWords(c) + [file]
    case PipeTree(l, r) => TreeWords(l) + TreeWords(r)
    case ListTree(l, r) => TreeWords(l) + TreeWords(r)
    case BackTree(c) => TreeWords(c)
  }

  /** The word tokens of a list. */
  function Words(ts: seq<Token>): seq<Token> {
    if ts == [] then [] else (if ts[0].kind == 'a' then [ts[0]] else []) + Words(ts[1..])
  }

  lemma {:induction false} WordsConcat(a: seq<Token>, b: seq<Token>)
    ensures Words(a + b) == Words(a) + Words(b)
  {
    hide Words;
    NoWords();
    if a == [] {
      assert a + b == b;
    } else {
      HeadOn(a);
      WordsConcat(a[1..], b);
      Cat2([a[0]], a[1..], b);
      WordsHead(a[0], a[1..]);
      WordsHead(a[0], a[1..] + b);
      Cat2(if a[0].kind == 'a' then [a[0]] else [], Words(a[1..]), Words(b));
    }
  }

  function Files(rs: seq<Redirect>): seq<Token> {
    if rs == [] then [] else [rs[0].file] + Files(rs[1..])
  }

  lemma {:induction false} FilesConcat(a: seq<Redirect>, b: seq<Redirect>)
    ensures Files(a + b) == Files(a) + Files(b)
  {
    if a == [] {
      assert a + b == b;
    } else {
      FilesConcat(a[1..], b);
      assert (a + b)[1..] == a[1..] + b;
    }
  }

  lemma {:induction false} RedirWords(rs: seq<Redirect>)
    requires RedirsOk(rs)
    ensures Words(RedirToks(rs)) == Files(rs)
  {
    if rs != [] {
      RedirWords(rs[1..]);
      var ts := RedirToks(rs);
      assert ts[1..] == [rs[0].file] + RedirToks(rs[1..]);
      assert ts[1..][1..] == RedirToks(rs[1..]);
    }
  }

  lemma {:induction false} WrapWords(t: Tree, rs: seq<Redirect>)
    ensures TreeWords(WrapAll(t, rs)) == TreeWords(t) + Files(rs)
    decreases |rs|
  {
    if rs != [] {
      var n := |rs| - 1;
      WrapWords(t, rs[..n]);
      assert rs == rs[..n] + [rs[n]];
      FilesConcat(rs[..n], [rs[n]]);
      assert Files([rs[n]]) == [rs[n].file];
    }
  }

  lemma {:induction false} BackWords(t: Tree, n: nat)
    ensures TreeWords(BackAll(t, n)) == TreeWords(t)
  {
    if n > 0 {
      BackWords(t, n - 1);
    }
  }

  lemma {:induction false} ItemWords(its: seq<Item>)
    requires ItemsOk(its)
    ensures multiset(Words(ItemToks(its))) == multiset(Args(its)) + multiset(Files(ItemRedirs(its)))
  {
    hide RedirToks, RedirsOk, Files, Words;
    if its == [] {
      NoWords();
    } else {
      ItemWords(its[1..]);
      RedirWords(its[0].redirs);
      WordsConcat(RedirToks(its[0].redirs), ItemToks(its[1..]));
      FilesConcat(its[0].redirs, ItemRedirs(its[1..]));
      WordsHead(its[0].word, RedirToks(its[0].redirs) + ItemToks(its[1..]));
    }
  }

  lemma NoWords()
    ensures Words([]) == [] && Files([]) == []
  {
  }

  lemma WordsHead(t: Token, ts: seq<Token>)
    ensures Words([t] + ts) == (if t.kind == 'a' then [t] else []) + Words(ts)
  {
    assert ([t] + ts)[1..] == ts;
  }

  lemma {:induction false} NotWords(ts: seq<Token>)
    requires BacksOk(ts)
    ensures Words(ts) == []
  {
    if ts != [] {
      NotWords(ts[1..]);
    }
  }

  /** The tree has the word tokens of the line, each as often as it occurs there. */
  lemma {:induction false} LineWords(l: Line)
    requires LineOk(l)
    ensures multiset(TreeWords(LineTree(l))) == multiset(Words(LineToks(l)))
    decreases l
  {
    hide Words, BacksOk, PipeToks, PipeTreeOf, PipeOk, TreeWords;
    PipeWords(l.pipe);
    NotWords(l.backs);
    BackWords(PipeTreeOf(l.pipe), |l.backs|);
    match l
    case End(p, bs) =>
      WordsConcat(PipeToks(p), bs);
    case Then(p, bs, semi, rest) =>
      LineWords(rest);
      WordsHead(semi, LineToks(rest));
      WordsConcat(bs, [semi] + LineToks(rest));
      WordsConcat(PipeToks(p), bs + ([semi] + LineToks(rest)));
      TwoWords(BackAll(PipeTreeOf(p), |bs|), LineTree(rest));
  }

  lemma TwoWords(a: Tree, b: Tree)
    ensures TreeWords(ListTree(a, b)) == TreeWords(a) + TreeWords(b) == TreeWords(PipeTree(a, b))
  {
  }

  lemma {:induction false} PipeWords(p: Pipe)
    requires PipeOk(p)
    ensures multiset(TreeWords(PipeTreeOf(p))) == multiset(Words(PipeToks(p)))
    decreases p
  {
    hide Words, ExecToks, ExecTreeOf, ExecOk, TreeWords;
    ExecWords(p.exec);
    match p
    case One(e) =>
    case Bar(e, bar, rest) =>
      PipeWords(rest);
      WordsHead(bar, PipeToks(rest));
      WordsConcat(ExecToks(e), [bar] + PipeToks(rest));
      TwoWords(ExecTreeOf(e), PipeTreeOf(rest));
  }

  lemma {:induction false} ExecWords(e: Exec)
    requires ExecOk(e)
    ensures multiset(TreeWords(ExecTreeOf(e))) == multiset(Words(ExecToks(e)))
    decreases e
  {
    hide Words, LineToks, LineTree, LineOk, RedirToks, RedirsOk, ItemToks, ItemsOk, TreeWords, Files, WrapAll;
    RedirWords(e.redirs);
    match e
    case Block(open, l, close, rs) =>
      LineWords(l);
      WrapWords(LineTree(l), rs);
      WordsHead(close, RedirToks(rs));
      WordsConcat(LineToks(l), [close] + RedirToks(rs));
      WordsHead(open, LineToks(l) + ([close] + RedirToks(rs)));
    case Simple(rs, its) =>
      ItemWords(its);
      WrapWords(ExecTree(Args(its)), rs + ItemRedirs(its));
      FilesConcat(rs, ItemRedirs(its));
      WordsConcat(RedirToks(rs), ItemToks(its));
      ArgsAlone(Args(its));
  }

  lemma ArgsAlone(args: seq<Token>)
    ensures TreeWords(ExecTree(args)) == args
  {
  }

  lemma {:induction false} WordIn(ts: seq<Token>, t: Token)
    requires t in Words(ts)
    ensures t in ts && t.kind == 'a'
  {
    if t != ts[0] {
      WordIn(ts[1..], t);
    } else if ts[0].kind != 'a' {
      WordIn(ts[1..], t);
    }
  }

  // ---------------------------------------------------------------- NUL-termination

  function EndsOf(ts: seq<Token>): set<int> {
    set t | t in ts :: t.eq
  }

  /** The buffer with a NUL stored at each of `ends`. */
  function Stored(b: string, ends: set<int>): (r: string)
    ensures |r| == |b|
  {
    seq(|b|, i requires 0 <= i < |b| => if i in ends then NUL else b[i])
  }

  lemma StoredTwice(b: string, x: set<int>, y: set<int>)
    ensures Stored(Stored(b, x), y) == Stored(b, x + y)
  {
  }

  /** The C string at p. */
  function CString(b: string, p: int): string
    decreases |b| - p
  {
    if 0 <= p < |b| && b[p] != NUL then [b[p]] + CString(b, p + 1) else ""
  }

  lemma {:induction false} CStringIs(b: string, p: int, q: int)
    requires 0 <= p <= q < |b| && b[q] == NUL && forall i :: p <= i < q ==> b[i] != NUL
    ensures CString(b, p) == b[p..q]
    decreases q - p
  {
    if p < q {
      CStringIs(b, p + 1, q);
      assert b[p..q] == [b[p]] + b[p + 1..q];
    }
  }

  /** s without NULs, terminated in the buffer. */
  predicate Holds(b: string, s: string) {
    |s| < |b| && b[..|s|] == s && b[|s|] == NUL && forall i :: 0 <= i < |s| ==> s[i] != NUL
  }

  /** The C string at the word t of s is that word. */
  predicate ReadsBack(b: string, s: string, t: Token) {
    WordAt(s, t.q, t.eq) && CString(b, t.q) == s[t.q..t.eq]
  }

  predicate WordsOf(s: string, ts: seq<Token>) {
    forall t :: t in ts ==> WordAt(s, t.q, t.eq)
  }

  lemma NotAnEnd(s: string, ts: seq<Token>, i: int)
    requires WordsOf(s, ts) && 0 <= i < |s| && WordChar(s[i])
    ensures i !in EndsOf(ts)
  {
    forall u | u in ts ensures u.eq != i {
      assert WordAt(s, u.q, u.eq);
    }
  }

  /** No word has the end of another one inside, so all of them read back whole. */
  lemma WordReadsBack(b: string, s: string, ts: seq<Token>, t: Token)
    requires Holds(b, s) && WordsOf(s, ts) && t in ts
    ensures ReadsBack(Stored(b, EndsOf(ts)), s, t)
  {
    var b' := Stored(b, EndsOf(ts));
    assert WordAt(s, t.q, t.eq);
    assert t.eq in EndsOf(ts);
    assert b'[t.eq] == NUL;
    forall i | t.q <= i < t.eq ensures b'[i] == s[i] != NUL {
      assert b[..|s|][i] == b[i];
      NotAnEnd(s, ts, i);
    }
    CStringIs(b', t.q, t.eq);
    assert b'[t.q..t.eq] == s[t.q..t.eq];
  }
}
