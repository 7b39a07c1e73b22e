/** What a command line means, read off its tokens without the grammar (sh.c): ';' binds weakest, then
    '&' behind a command, then '|', and parentheses group. */
module ShellMeaning {
  import opened ShellTokens
  import opened ShellGrammar
  import opened ShellTree
  import opened ShellOrder

  // ---------------------------------------------------------------- the operators of a tree

  /** Pipe bars, semicolons and ampersands from left to right, as the nodes of a tree have them. */
  function Ops(t: Tree): seq<char> {
    match t
    case ExecTree(_) => []
    case RedirTree(c, _, _, _) => Ops(c)
    case PipeTree(l, r) => Ops(l) + ['|'] + Ops(r)
    case ListTree(l, r) => Ops(l) + [';'] + Ops(r)
    case BackTree(c) => Ops(c) + ['&']
  }

  predicate Operator(c: char) {
    c == '|' || c == ';' || c == '&'
  }

  /** Those of a line. */
  function OpToks(ts: seq<Token>): seq<char> {
    if ts == [] then [] else (if Operator(ts[0].kind) then [ts[0].kind] else []) + OpToks(ts[1..])
  }

  lemma {:induction false} OpsConcat(a: seq<Token>, b: seq<Token>)
    ensures OpToks(a + b) == OpToks(a) + OpToks(b)
  {
    if a == [] {
      assert a + b == b;
    } else {
      assert (a + b)[1..] == a[1..] + b;
      OpsConcat(a[1..], b);
    }
  }

  lemma OpsOne(t: Token)
    ensures OpToks([t]) == if Operator(t.kind) then [t.kind] else []
  {
    assert [t][1..] == [];
  }

  lemma {:induction false} NoOps(ts: seq<Token>)
    requires forall t :: t in ts ==> !Operator(t.kind)
    ensures OpToks(ts) == []
  {
    if ts != [] {
      NoOps(ts[1..]);
    }
  }

  lemma {:induction false} RedirOps(rs: seq<Redirect>)
    requires RedirsOk(rs)
    ensures OpToks(RedirToks(rs)) == []
  {
    if rs != [] {
      RedirOps(rs[1..]);
      OpsOne(rs[0].op);
      OpsOne(rs[0].file);
      assert [rs[0].op, rs[0].file] == [rs[0].op] + [rs[0].file];
      OpsConcat([rs[0].op], [rs[0].file]);
      OpsConcat([rs[0].op, rs[0].file], RedirToks(rs[1..]));
    }
  }

  lemma {:induction false} ItemOps(its: seq<Item>)
    requires ItemsOk(its)
    ensures OpToks(ItemToks(its)) == []
  {
    hide RedirsOk, RedirToks;
    if its != [] {
      ItemOps(its[1..]);
      RedirOps(its[0].redirs);
      OpsOne(its[0].word);
      OpsConcat(RedirToks(its[0].redirs), ItemToks(its[1..]));
      OpsConcat([its[0].word], RedirToks(its[0].redirs) + ItemToks(its[1..]));
    }
  }

  lemma {:induction false} WrapOps(t: Tree, rs: seq<Redirect>)
    ensures Ops(WrapAll(t, rs)) == Ops(t)
    decreases |rs|
  {
    if rs != [] {
      WrapOps(t, rs[..|rs| - 1]);
    }
  }

  lemma {:induction false} BackOps(t: Tree, bs: seq<Token>)
    requires BacksOk(bs)
    ensures Ops(BackAll(t, |bs|)) == Ops(t) + OpToks(bs)
    decreases |bs|
  {
    if bs == [] {
    } else {
      var n := |bs| - 1;
      BackOps(t, bs[..n]);
      assert bs == bs[..n] + [bs[n]];
      OpsConcat(bs[..n], [bs[n]]);
      OpsOne(bs[n]);
    }
  }

  /** One ampersand for each back command. */
  lemma {:induction false} BackAllOps(t: Tree, n: nat)
    ensures Ops(BackAll(t, n)) == Ops(t) + seq(n, _ => '&')
  {
    if n > 0 {
      BackAllOps(t, n - 1);
      assert seq(n, _ => '&') == seq(n - 1, _ => '&') + ['&'];
    }
  }

  /** Every operator of the line has its node in the tree, in order: each '&' a back command, each ';' a
      list, each '|' a pipe. */
  lemma {:induction false} LineOps(l: Line)
    requires LineOk(l)
    ensures Ops(LineTree(l)) == OpToks(LineToks(l))
    decreases l
  {
    hide PipeToks, PipeTreeOf, PipeOk, BacksOk, OpToks, BackAll;
    PipeOps(l.pipe);
    BackOps(PipeTreeOf(l.pipe), l.backs);
    match l
    case End(p, bs) =>
      OpsConcat(PipeToks(p), bs);
    case Then(p, bs, semi, rest) =>
      LineOps(rest);
      OpsOne(semi);
      OpsConcat([semi], LineToks(rest));
      OpsConcat(bs, [semi] + LineToks(rest));
      OpsConcat(PipeToks(p), bs + ([semi] + LineToks(rest)));
  }

  lemma {:induction false} PipeOps(p: Pipe)
    requires PipeOk(p)
    ensures Ops(PipeTreeOf(p)) == OpToks(PipeToks(p))
    decreases p
  {
    hide ExecToks, ExecTreeOf, ExecOk, OpToks;
    ExecOps(p.exec);
    match p
    case One(e) =>
    case Bar(e, bar, rest) =>
      PipeOps(rest);
      OpsOne(bar);
      OpsConcat([bar], PipeToks(rest));
      OpsConcat(ExecToks(e), [bar] + PipeToks(rest));
  }

  lemma {:induction false} ExecOps(e: Exec)
    requires ExecOk(e)
    ensures Ops(ExecTreeOf(e)) == OpToks(ExecToks(e))
    decreases e
  {
    hide LineToks, LineTree, LineOk, RedirToks, RedirsOk, ItemToks, ItemsOk, OpToks, WrapAll;
    RedirOps(e.redirs);
    match e
    case Block(open, l, close, rs) =>
      LineOps(l);
      WrapOps(LineTree(l), rs);
      OpsOne(open);
      OpsOne(close);
      OpsConcat([close], RedirToks(rs));
      OpsConcat(LineToks(l), [close] + RedirToks(rs));
      OpsConcat([open], LineToks(l) + ([close] + RedirToks(rs)));
    case Simple(rs, its) =>
      ItemOps(its);
      WrapOps(ExecTree(Args(its)), rs + ItemRedirs(its));
      OpsConcat(RedirToks(rs), ItemToks(its));
  }

  // ---------------------------------------------------------------- the meaning of tokens

  function Deeper(c: char): int {
    if c == '(' then 1 else if c == ')' then -1 else 0
  }

  /** How many parentheses are open behind ts, `d` being open before. */
  function Depth(ts: seq<Token>, d: int): int {
    if ts == [] then d else Depth(ts[1..], d + Deeper(ts[0].kind))
  }

  /** The first token of kind c outside all parentheses, or |ts|. */
  function First(ts: seq<Token>, c: char, d: int): (k: nat)
    ensures k <= |ts|
  {
    if ts == [] || (d == 0 && ts[0].kind == c) then 0 else 1 + First(ts[1..], c, d + Deeper(ts[0].kind))
  }

  /** Redirections around a command, the last outermost. */
  function Wrapped(t: Tree, rs: seq<Target>): Tree {
    if rs == [] then t
    else RedirTree(Wrapped(t, rs[..|rs| - 1]), rs[|rs| - 1].file, rs[|rs| - 1].mode, rs[|rs| - 1].fd)
  }

  /** A list at the first ';', else in the background if there is an '&' at the end, else a pipe at the first
      '|', else what the parentheses enclose or a simple command, with its redirections. */
  function Meaning(ts: seq<Token>): Tree
    decreases |ts|
  {
    var semi, bar := First(ts, ';', 0), First(ts, '|', 0);
    if semi < |ts| then ListTree(Meaning(ts[..semi]), Meaning(ts[semi + 1..]))
    else if ts != [] && ts[|ts| - 1].kind == '&' then BackTree(Meaning(ts[..|ts| - 1]))
    else if bar < |ts| then PipeTree(Meaning(ts[..bar]), Meaning(ts[bar + 1..]))
    else if ts != [] && ts[0].kind == '(' then
      var close := First(ts[1..], ')', 0);
      Wrapped(Meaning(ts[1..1 + close]), TokenRoles(if close < |ts| - 1 then ts[close + 2..] else [], ';').targets)
    else Wrapped(ExecTree(TokenRoles(ts, ';').args), TokenRoles(ts, ';').targets)
  }

  lemma {:induction false} DepthConcat(a: seq<Token>, b: seq<Token>, d: int)
    ensures Depth(a + b, d) == Depth(b, Depth(a, d))
  {
    if a == [] {
      assert a + b == b;
    } else {
      assert (a + b)[1..] == a[1..] + b;
      DepthConcat(a[1..], b, d + Deeper(a[0].kind));
    }
  }

  lemma {:induction false} FirstConcat(a: seq<Token>, b: seq<Token>, c: char, d: int)
    ensures First(a + b, c, d) == if First(a, c, d) < |a| then First(a, c, d) else |a| + First(b, c, Depth(a, d))
  {
    if a == [] {
      assert a + b == b;
    } else {
      assert (a + b)[1..] == a[1..] + b;
      FirstConcat(a[1..], b, c, d + Deeper(a[0].kind));
    }
  }

  /** Parentheses match, and outside them there is no token of kind c. */
  predicate Free(ts: seq<Token>, c: char) {
    Depth(ts, 0) == 0 && First(ts, c, 0) == |ts|
  }

  /** No token counts at depth d. */
  ghost predicate Whole(ts: seq<Token>, d: int) {
    Depth(ts, d) == d && forall c :: First(ts, c, d) == |ts|
  }

  /** Parentheses match, seen from inside others too. */
  ghost predicate Nested(ts: seq<Token>) {
    Depth(ts, 0) == 0 && forall d: int :: d > 0 ==> Whole(ts, d)
  }

  lemma WholeConcat(a: seq<Token>, b: seq<Token>, d: int)
    requires Whole(a, d) && Whole(b, d)
    ensures Whole(a + b, d)
  {
    DepthConcat(a, b, d);
    forall c ensures First(a + b, c, d) == |a + b| {
      FirstConcat(a, b, c, d);
    }
  }

  lemma NestedConcat(a: seq<Token>, b: seq<Token>)
    requires Nested(a) && Nested(b)
    ensures Nested(a + b)
  {
    DepthConcat(a, b, 0);
    forall d: int | d > 0 ensures Whole(a + b, d) {
      WholeConcat(a, b, d);
    }
  }

  lemma FreeConcat(a: seq<Token>, b: seq<Token>, c: char)
    requires Free(a, c) && Free(b, c)
    ensures Free(a + b, c)
  {
    DepthConcat(a, b, 0);
    FirstConcat(a, b, c, 0);
  }

  predicate Paren(c: char) {
    c == '(' || c == ')'
  }

  lemma OneToken(t: Token)
    requires !Paren(t.kind)
    ensures Nested([t]) && forall c :: t.kind != c ==> Free([t], c)
  {
    assert [t][1..] == [];
    forall d: int | d > 0 ensures Whole([t], d) {
      assert Depth([t], d) == d;
    }
  }

  // A group: what is inside the parentheses does not count.
  lemma Grouped(open: Token, ts: seq<Token>, close: Token)
    requires open.kind == '(' && close.kind == ')' && Nested(ts)
    ensures Nested([open] + (ts + [close])) && forall c :: c != '(' ==> Free([open] + (ts + [close]), c)
  {
    var all := [open] + (ts + [close]);
    assert all[1..] == ts + [close] && [close][1..] == [];
    GroupEnds(ts, close, 1);
    forall d: int | d > 0 ensures Whole(all, d) {
      GroupEnds(ts, close, d + 1);
    }
    forall c | c != '(' ensures Free(all, c) {
      assert First(ts + [close], c, 1) == |ts| + 1;
    }
  }

  lemma GroupEnds(ts: seq<Token>, close: Token, d: int)
    requires close.kind == ')' && d > 0 && Nested(ts)
    ensures Depth(ts + [close], d) == d - 1 && forall c :: First(ts + [close], c, d) == |ts| + 1
  {
    assert Whole(ts, d) && [close][1..] == [];
    DepthConcat(ts, [close], d);
    forall c ensures First(ts + [close], c, d) == |ts| + 1 {
      FirstConcat(ts, [close], c, d);
    }
  }

  /** Nested, and free of each of the kinds. */
  ghost predicate Shaped(ts: seq<Token>, kinds: string) {
    Nested(ts) && forall c :: c in kinds ==> Free(ts, c)
  }

  lemma ShapedConcat(a: seq<Token>, b: seq<Token>, kinds: string)
    requires Shaped(a, kinds) && Shaped(b, kinds)
    ensures Shaped(a + b, kinds)
  {
    NestedConcat(a, b);
    forall c | c in kinds ensures Free(a + b, c) {
      FreeConcat(a, b, c);
    }
  }

  lemma NoneShaped(kinds: string)
    ensures Shaped([], kinds)
  {
  }

  lemma OneShaped(t: Token, kinds: string)
    requires !Paren(t.kind) && t.kind !in kinds
    ensures Shaped([t], kinds)
  {
    OneToken(t);
  }

  lemma {:induction false} BacksShaped(bs: seq<Token>, kinds: string)
    requires BacksOk(bs) && '&' !in kinds
    ensures Shaped(bs, kinds)
  {
    hide Shaped;
    if bs == [] {
      NoneShaped(kinds);
    } else {
      BacksShaped(bs[1..], kinds);
      OneShaped(bs[0], kinds);
      assert bs == [bs[0]] + bs[1..];
      ShapedConcat([bs[0]], bs[1..], kinds);
    }
  }

  const OUTSIDE_EXEC := ";&|)"
  const OUTSIDE_PIPE := ";&)"
  const OUTSIDE_LINE := ")"

  lemma {:induction false} RedirsShaped(rs: seq<Redirect>)
    requires RedirsOk(rs)
    ensures Shaped(RedirToks(rs), OUTSIDE_EXEC)
  {
    hide Shaped;
    if rs == [] {
      NoneShaped(OUTSIDE_EXEC);
    } else {
      RedirsShaped(rs[1..]);
      OneShaped(rs[0].op, OUTSIDE_EXEC);
      OneShaped(rs[0].file, OUTSIDE_EXEC);
      ShapedConcat([rs[0].op], [rs[0].file], OUTSIDE_EXEC);
      ShapedConcat([rs[0].op] + [rs[0].file], RedirToks(rs[1..]), OUTSIDE_EXEC);
      assert [rs[0].op] + [rs[0].file] == [rs[0].op, rs[0].file];
    }
  }

  lemma {:induction false} ItemsShaped(its: seq<Item>)
    requires ItemsOk(its)
    ensures Shaped(ItemToks(its), OUTSIDE_EXEC)
  {
    hide Shaped, RedirsOk, RedirToks;
    if its == [] {
      NoneShaped(OUTSIDE_EXEC);
    } else {
      ItemsShaped(its[1..]);
      RedirsShaped(its[0].redirs);
      OneShaped(its[0].word, OUTSIDE_EXEC);
      ShapedConcat(RedirToks(its[0].redirs), ItemToks(its[1..]), OUTSIDE_EXEC);
      ShapedConcat([its[0].word], RedirToks(its[0].redirs) + ItemToks(its[1..]), OUTSIDE_EXEC);
    }
  }

  lemma Fewer(ts: seq<Token>, kinds: string, fewer: string)
    requires Shaped(ts, kinds) && forall c :: c in fewer ==> c in kinds
    ensures Shaped(ts, fewer)
  {
  }

  lemma {:induction false} LineShaped(l: Line)
    requires LineOk(l)
    ensures Shaped(LineToks(l), OUTSIDE_LINE)
    decreases l
  {
    hide Shaped, PipeToks, PipeOk, BacksOk;
    PipeShaped(l.pipe);
    Fewer(PipeToks(l.pipe), OUTSIDE_PIPE, OUTSIDE_LINE);
    BacksShaped(l.backs, OUTSIDE_LINE);
    match l
    case End(p, bs) =>
      ShapedConcat(PipeToks(p), bs, OUTSIDE_LINE);
    case Then(p, bs, semi, rest) =>
      LineShaped(rest);
      OneShaped(semi, OUTSIDE_LINE);
      ShapedConcat([semi], LineToks(rest), OUTSIDE_LINE);
      ShapedConcat(bs, [semi] + LineToks(rest), OUTSIDE_LINE);
      ShapedConcat(PipeToks(p), bs + ([semi] + LineToks(rest)), OUTSIDE_LINE);
  }

  lemma {:induction false} PipeShaped(p: Pipe)
    requires PipeOk(p)
    ensures Shaped(PipeToks(p), OUTSIDE_PIPE)
    decreases p
  {
    hide Shaped, ExecToks, ExecOk;
    ExecShaped(p.exec);
    Fewer(ExecToks(p.exec), OUTSIDE_EXEC, OUTSIDE_PIPE);
    match p
    case One(e) =>
    case Bar(e, bar, rest) =>
      PipeShaped(rest);
      OneShaped(bar, OUTSIDE_PIPE);
      ShapedConcat([bar], PipeToks(rest), OUTSIDE_PIPE);
      ShapedConcat(ExecToks(e), [bar] + PipeToks(rest), OUTSIDE_PIPE);
  }

  lemma {:induction false} ExecShaped(e: Exec)
    requires ExecOk(e)
    ensures Shaped(ExecToks(e), OUTSIDE_EXEC)
    decreases e
  {
    hide Shaped, LineToks, LineOk, RedirToks, RedirsOk, ItemToks, ItemsOk;
    RedirsShaped(e.redirs);
    match e
    case Block(open, l, close, rs) =>
      LineShaped(l);
      BlockShaped(open, LineToks(l), close);
      ShapedConcat([open] + (LineToks(l) + [close]), RedirToks(rs), OUTSIDE_EXEC);
      assert [open] + (LineToks(l) + [close]) + RedirToks(rs) == [open] + (LineToks(l) + ([close] + RedirToks(rs)));
    case Simple(rs, its) =>
      ItemsShaped(its);
      ShapedConcat(RedirToks(rs), ItemToks(its), OUTSIDE_EXEC);
  }

  lemma BlockShaped(open: Token, ts: seq<Token>, close: Token)
    requires open.kind == '(' && close.kind == ')' && Shaped(ts, OUTSIDE_LINE)
    ensures Shaped([open] + (ts + [close]), OUTSIDE_EXEC)
  {
    Grouped(open, ts, close);
  }

  // ---------------------------------------------------------------- the tree is the meaning

  // What is free of '&' does not end in one.
  lemma NoBackAtEnd(ts: seq<Token>)
    requires Free(ts, '&') && ts != []
    ensures ts[|ts| - 1].kind != '&'
  {
    var n := |ts| - 1;
    assert ts == ts[..n] + [ts[n]];
    if ts[n].kind == '&' {
      assert [ts[n]][1..] == [];
      DepthConcat(ts[..n], [ts[n]], 0);
      FirstConcat(ts[..n], [ts[n]], '&', 0);
    }
  }

  lemma {:induction false} WrapMeans(t: Tree, rs: seq<Redirect>)
    ensures WrapAll(t, rs) == Wrapped(t, Targets(rs)) && |Targets(rs)| == |rs|
    decreases |rs|
  {
    if rs == [] {
    } else {
      var n := |rs| - 1;
      WrapMeans(t, rs[..n]);
      assert rs == rs[..n] + [rs[n]];
      TargetsConcat(rs[..n], [rs[n]]);
      assert Targets([rs[n]]) == [TargetOf(rs[n])];
      assert Targets(rs)[..n] == Targets(rs[..n]);
    }
  }

  // The first token of kind c outside parentheses splits the list.
  lemma SplitsAt(a: seq<Token>, t: Token, b: seq<Token>)
    requires Free(a, t.kind)
    ensures var ts := a + ([t] + b);
      First(ts, t.kind, 0) == |a| < |ts| && ts[..|a|] == a && ts[|a| + 1..] == b
  {
    FirstConcat(a, [t] + b, t.kind, 0);
  }

  // What binds weakest decides.
  lemma ListMeans(a: seq<Token>, semi: Token, b: seq<Token>)
    requires Free(a, ';') && semi.kind == ';'
    ensures Meaning(a + ([semi] + b)) == ListTree(Meaning(a), Meaning(b))
  {
    SplitsAt(a, semi, b);
  }

  lemma BackMeans(a: seq<Token>, back: Token)
    requires Free(a, ';') && back.kind == '&'
    ensures Meaning(a + [back]) == BackTree(Meaning(a)) && Free(a + [back], ';')
  {
    OneToken(back);
    FreeConcat(a, [back], ';');
    assert (a + [back])[..|a|] == a;
  }

  lemma PipeMeans(a: seq<Token>, bar: Token, b: seq<Token>)
    requires Free(a, '|') && bar.kind == '|' && Free(a + ([bar] + b), ';') && Free(a + ([bar] + b), '&')
    ensures Meaning(a + ([bar] + b)) == PipeTree(Meaning(a), Meaning(b))
  {
    SplitsAt(a, bar, b);
    NoBackAtEnd(a + ([bar] + b));
  }

  lemma BlockMeans(open: Token, ts: seq<Token>, close: Token, rest: seq<Token>)
    requires open.kind == '(' && close.kind == ')' && Free(ts, ')')
    requires Shaped([open] + (ts + ([close] + rest)), OUTSIDE_EXEC)
    ensures Meaning([open] + (ts + ([close] + rest))) == Wrapped(Meaning(ts), TokenRoles(rest, ';').targets)
  {
    var all := [open] + (ts + ([close] + rest));
    assert forall c :: c in OUTSIDE_EXEC ==> Free(all, c);
    assert ';' in OUTSIDE_EXEC && '&' in OUTSIDE_EXEC && '|' in OUTSIDE_EXEC;
    NoBackAtEnd(all);
    assert all[1..] == ts + ([close] + rest);
    SplitsAt(ts, close, rest);
    assert all[1..1 + |ts|] == ts && all[|ts| + 2..] == rest;
  }

  lemma SimpleMeans(ts: seq<Token>)
    requires Shaped(ts, OUTSIDE_EXEC) && (ts != [] ==> ts[0].kind != '(')
    ensures Meaning(ts) == Wrapped(ExecTree(TokenRoles(ts, ';').args), TokenRoles(ts, ';').targets)
  {
    assert ';' in OUTSIDE_EXEC && '&' in OUTSIDE_EXEC && '|' in OUTSIDE_EXEC;
    if ts != [] {
      NoBackAtEnd(ts);
    }
  }

  lemma {:induction false} BacksMean(a: seq<Token>, t: Tree, bs: seq<Token>)
    requires Free(a, ';') && Meaning(a) == t && BacksOk(bs)
    ensures Meaning(a + bs) == BackAll(t, |bs|) && Free(a + bs, ';')
    decreases |bs|
  {
    hide Meaning, Free;
    if bs == [] {
      assert a + bs == a;
    } else {
      var n := |bs| - 1;
      BacksMean(a, t, bs[..n]);
      BackMeans(a + bs[..n], bs[n]);
      assert a + bs[..n] + [bs[n]] == a + bs;
    }
  }

  /** The tree that the parser builds for a line is what its tokens mean. */
  lemma {:induction false} LineMeans(l: Line)
    requires LineOk(l)
    ensures Meaning(LineToks(l)) == LineTree(l)
    decreases l
  {
    hide Meaning, Free, Nested, PipeToks, PipeTreeOf, PipeOk, BacksOk, BackAll;
    PipeIsMeaning(l.pipe);
    PipeShaped(l.pipe);
    assert ';' in OUTSIDE_PIPE;
    BacksMean(PipeToks(l.pipe), PipeTreeOf(l.pipe), l.backs);
    if l.Then? {
      LineMeans(l.rest);
      ListMeans(PipeToks(l.pipe) + l.backs, l.semi, LineToks(l.rest));
      assert PipeToks(l.pipe) + l.backs + ([l.semi] + LineToks(l.rest)) == LineToks(l);
    }
  }

  lemma {:induction false} PipeIsMeaning(p: Pipe)
    requires PipeOk(p)
    ensures Meaning(PipeToks(p)) == PipeTreeOf(p)
    decreases p
  {
    hide Meaning, Free, Nested, ExecToks, ExecTreeOf, ExecOk;
    ExecIsMeaning(p.exec);
    if p.Bar? {
      PipeIsMeaning(p.rest);
      ExecShaped(p.exec);
      PipeShaped(p);
      assert '|' in OUTSIDE_EXEC && ';' in OUTSIDE_PIPE && '&' in OUTSIDE_PIPE;
      PipeMeans(ExecToks(p.exec), p.bar, PipeToks(p.rest));
    }
  }

  lemma {:induction false} ExecIsMeaning(e: Exec)
    requires ExecOk(e)
    ensures Meaning(ExecToks(e)) == ExecTreeOf(e)
    decreases e
  {
    hide Meaning, Nested, Free, LineToks, LineTree, LineOk, WrapAll, Wrapped, Targets;
    ExecShaped(e);
    match e
    case Block(open, l, close, rs) =>
      LineMeans(l);
      LineShaped(l);
      assert ')' in OUTSIDE_LINE;
      BlockMeans(open, LineToks(l), close, RedirToks(rs));
      RedirsOrdered(rs);
      assert TokenRoles(RedirToks(rs), ';') == Roles([], Targets(rs));
      WrapMeans(LineTree(l), rs);
    case Simple(rs, its) =>
      NoParenFirst(rs, its);
      SimpleMeans(ExecToks(e));
      RedirsOrdered(rs);
      ItemsOrdered(its);
      OrderedConcat(RedirToks(rs), ItemToks(its), Roles([], Targets(rs)), Roles(Args(its), Targets(ItemRedirs(its))));
      TargetsConcat(rs, ItemRedirs(its));
      WrapMeans(ExecTree(Args(its)), rs + ItemRedirs(its));
      assert TokenRoles(ExecToks(e), ';') == Join(Roles([], Targets(rs)), Roles(Args(its), Targets(ItemRedirs(its))));
      assert [] + Args(its) == Args(its);
  }

  lemma NoParenFirst(rs: seq<Redirect>, its: seq<Item>)
    requires RedirsOk(rs) && ItemsOk(its)
    ensures var ts := RedirToks(rs) + ItemToks(its); ts != [] ==> ts[0].kind != '('
  {
  }
}
