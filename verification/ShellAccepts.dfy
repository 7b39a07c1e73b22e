/** Which command lines the shell takes, read off their tokens without the grammar (sh.c): a line is cut
    at its ';', '&' and '|', and what is left must be commands. */
module ShellAccepts {
  import opened ShellTokens
  import opened ShellGrammar
  import opened ShellMeaning

  /** Redirections and nothing else. */
  predicate OnlyRedirs(ts: seq<Token>) {
    ts == [] ||
    (|ts| >= 2 && ts[0].kind in ['<', '>', '+'] && ts[1].kind == 'a' && OnlyRedirs(ts[2..]))
  }

  /** Words and redirections in any order; `argc` words came before, and no more than nine are taken. */
  predicate CommandFits(ts: seq<Token>, argc: nat) {
    if ts == [] then true
    else if ts[0].kind in ['<', '>', '+'] then |ts| >= 2 && ts[1].kind == 'a' && CommandFits(ts[2..], argc)
    else ts[0].kind == 'a' && argc < 9 && CommandFits(ts[1..], argc + 1)
  }

  /** A group with redirections behind it, or a simple command. */
  predicate ExecFits(ts: seq<Token>)
    decreases |ts|, 0
  {
    if ts != [] && ts[0].kind == '(' then
      var close := First(ts[1..], ')', 0);
      close < |ts| - 1 && LineFits(ts[1..1 + close]) && OnlyRedirs(ts[close + 2..])
    else CommandFits(ts, 0)
  }

  predicate PipeFits(ts: seq<Token>)
    decreases |ts|, 1
  {
    var bar := First(ts, '|', 0);
    if bar < |ts| then ExecFits(ts[..bar]) && PipeFits(ts[bar + 1..]) else ExecFits(ts)
  }

  /** Any number of '&' may follow a pipe. */
  predicate BackFits(ts: seq<Token>)
    decreases |ts|, 2
  {
    if ts != [] && ts[|ts| - 1].kind == '&' then BackFits(ts[..|ts| - 1]) else PipeFits(ts)
  }

  predicate LineFits(ts: seq<Token>)
    decreases |ts|, 3
  {
    var semi := First(ts, ';', 0);
    if semi < |ts| then BackFits(ts[..semi]) && LineFits(ts[semi + 1..]) else BackFits(ts)
  }

  // ---------------------------------------------------------------- what fits has a tree

  lemma {:induction false} FirstKind(ts: seq<Token>, c: char, d: int)
    requires First(ts, c, d) < |ts|
    ensures ts[First(ts, c, d)].kind == c
  {
    if ts != [] && !(d == 0 && ts[0].kind == c) {
      FirstKind(ts[1..], c, d + Deeper(ts[0].kind));
    }
  }

  lemma {:induction false} RedirsOf(ts: seq<Token>) returns (rs: seq<Redirect>)
    requires OnlyRedirs(ts)
    ensures RedirsOk(rs) && RedirToks(rs) == ts
  {
    rs := [];
    if ts != [] {
      var rest := RedirsOf(ts[2..]);
      rs := [Redirect(ts[0], ts[1])] + rest;
      assert rs[1..] == rest && ts == [ts[0], ts[1]] + ts[2..];
    }
  }

  lemma {:induction false} CommandOf(ts: seq<Token>, argc: nat) returns (rs: seq<Redirect>, its: seq<Item>)
    requires CommandFits(ts, argc) && argc <= 9
    ensures RedirsOk(rs) && ItemsOk(its) && RedirToks(rs) + ItemToks(its) == ts && argc + |its| <= 9
    decreases |ts|
  {
    rs, its := [], [];
    if ts != [] {
      if ts[0].kind in ['<', '>', '+'] {
        var rest;
        rest, its := CommandOf(ts[2..], argc);
        rs := [Redirect(ts[0], ts[1])] + rest;
        assert rs[1..] == rest;
        assert RedirToks(rs) + ItemToks(its) == [ts[0], ts[1]] + (RedirToks(rest) + ItemToks(its));
      } else {
        var r0, rest := CommandOf(ts[1..], argc + 1);
        its := [Item(ts[0], r0)] + rest;
        assert its[1..] == rest;
        assert RedirToks([]) + ItemToks(its) == [ts[0]] + (RedirToks(r0) + ItemToks(rest));
      }
    }
  }

  lemma {:induction false} ExecOf(ts: seq<Token>) returns (e: Exec)
    requires ExecFits(ts)
    ensures ExecOk(e) && ExecToks(e) == ts
    decreases |ts|, 0
  {
    hide RedirsOk, RedirToks, ItemsOk, ItemToks, LineOk, LineToks, LineFits, OnlyRedirs, CommandFits;
    if ts != [] && ts[0].kind == '(' {
      var close := First(ts[1..], ')', 0);
      FirstKind(ts[1..], ')', 0);
      var l := LineOf(ts[1..1 + close]);
      var rs := RedirsOf(ts[close + 2..]);
      e := Block(ts[0], l, ts[close + 1], rs);
      assert ts == [ts[0]] + (ts[1..1 + close] + ([ts[close + 1]] + ts[close + 2..]));
    } else {
      var rs, its := CommandOf(ts, 0);
      e := Simple(rs, its);
    }
  }

  lemma {:induction false} PipeOf(ts: seq<Token>) returns (p: Pipe)
    requires PipeFits(ts)
    ensures PipeOk(p) && PipeToks(p) == ts
    decreases |ts|, 1
  {
    hide ExecOk, ExecToks, ExecFits;
    var bar := First(ts, '|', 0);
    if bar < |ts| {
      FirstKind(ts, '|', 0);
      var e := ExecOf(ts[..bar]);
      var rest := PipeOf(ts[bar + 1..]);
      p := Bar(e, ts[bar], rest);
      assert ts == ts[..bar] + ([ts[bar]] + ts[bar + 1..]);
    } else {
      var e := ExecOf(ts);
      p := One(e);
    }
  }

  lemma {:induction false} BackOf(ts: seq<Token>) returns (p: Pipe, bs: seq<Token>)
    requires BackFits(ts)
    ensures PipeOk(p) && BacksOk(bs) && PipeToks(p) + bs == ts
    decreases |ts|, 2
  {
    hide PipeOk, PipeToks, PipeFits;
    if ts != [] && ts[|ts| - 1].kind == '&' {
      p, bs := BackOf(ts[..|ts| - 1]);
      assert PipeToks(p) + (bs + [ts[|ts| - 1]]) == ts;
      bs := bs + [ts[|ts| - 1]];
    } else {
      p := PipeOf(ts);
      bs := [];
    }
  }

  lemma {:induction false} LineOf(ts: seq<Token>) returns (l: Line)
    requires LineFits(ts)
    ensures LineOk(l) && LineToks(l) == ts
    decreases |ts|, 3
  {
    hide PipeOk, PipeToks, BackFits, BacksOk;
    var semi := First(ts, ';', 0);
    if semi < |ts| {
      FirstKind(ts, ';', 0);
      var p, bs := BackOf(ts[..semi]);
      var rest := LineOf(ts[semi + 1..]);
      l := Then(p, bs, ts[semi], rest);
      assert ts == ts[..semi] + ([ts[semi]] + ts[semi + 1..]);
    } else {
      var p, bs := BackOf(ts);
      l := End(p, bs);
    }
  }

  // ---------------------------------------------------------------- what has a tree fits

  lemma {:induction false} RedirsFit(rs: seq<Redirect>)
    requires RedirsOk(rs)
    ensures OnlyRedirs(RedirToks(rs))
  {
    if rs != [] {
      RedirsFit(rs[1..]);
      assert rs[0] in rs;
      assert RedirToks(rs)[2..] == RedirToks(rs[1..]);
    }
  }

  lemma {:induction false} WithRedirs(rs: seq<Redirect>, ts: seq<Token>, argc: nat)
    requires RedirsOk(rs) && CommandFits(ts, argc)
    ensures CommandFits(RedirToks(rs) + ts, argc)
  {
    hide CommandFits;
    if rs == [] {
      assert RedirToks(rs) + ts == ts;
    } else {
      WithRedirs(rs[1..], ts, argc);
      assert rs[0] in rs;
      PairFits(rs[0].op, rs[0].file, RedirToks(rs[1..]) + ts, argc);
      assert RedirToks(rs) + ts == [rs[0].op, rs[0].file] + (RedirToks(rs[1..]) + ts);
    }
  }

  lemma PairFits(op: Token, file: Token, ts: seq<Token>, argc: nat)
    requires RedirOp(op.kind) && file.kind == 'a' && CommandFits(ts, argc)
    ensures CommandFits([op, file] + ts, argc)
  {
    assert ([op, file] + ts)[2..] == ts;
  }

  lemma {:induction false} ItemsFit(its: seq<Item>, argc: nat)
    requires ItemsOk(its) && argc + |its| <= 9
    ensures CommandFits(ItemToks(its), argc)
  {
    hide RedirsOk, RedirToks;
    if its != [] {
      ItemsFit(its[1..], argc + 1);
      assert its[0] in its;
      WithRedirs(its[0].redirs, ItemToks(its[1..]), argc + 1);
      assert ItemToks(its)[1..] == RedirToks(its[0].redirs) + ItemToks(its[1..]);
    }
  }

  lemma {:induction false} LineDoesFit(l: Line)
    requires LineOk(l)
    ensures LineFits(LineToks(l))
    decreases l
  {
    hide Free, Nested, PipeToks, PipeOk, BacksOk, BackFits, First;
    PipeDoesFit(l.pipe);
    PipeShaped(l.pipe);
    assert ';' in OUTSIDE_PIPE && '&' in OUTSIDE_PIPE;
    BacksFit(PipeToks(l.pipe), l.backs);
    FreeIs(PipeToks(l.pipe) + l.backs, ';');
    if l.Then? {
      LineDoesFit(l.rest);
      SplitsAt(PipeToks(l.pipe) + l.backs, l.semi, LineToks(l.rest));
      assert PipeToks(l.pipe) + l.backs + ([l.semi] + LineToks(l.rest)) == LineToks(l);
    }
  }

  lemma FreeIs(ts: seq<Token>, c: char)
    requires Free(ts, c)
    ensures First(ts, c, 0) == |ts|
  {
  }

  lemma {:induction false} BacksFit(a: seq<Token>, bs: seq<Token>)
    requires PipeFits(a) && Free(a, '&') && Free(a, ';') && BacksOk(bs)
    ensures BackFits(a + bs) && Free(a + bs, ';')
    decreases |bs|
  {
    hide PipeFits, Free;
    if bs == [] {
      assert a + bs == a;
      if a != [] {
        NoBackAtEnd(a);
      }
    } else {
      var n := |bs| - 1;
      BacksFit(a, bs[..n]);
      ShellMeaning.OneToken(bs[n]);
      FreeConcat(a + bs[..n], [bs[n]], ';');
      assert a + bs[..n] + [bs[n]] == a + bs;
      assert (a + bs)[..|a + bs| - 1] == a + bs[..n];
    }
  }

  lemma {:induction false} PipeDoesFit(p: Pipe)
    requires PipeOk(p)
    ensures PipeFits(PipeToks(p))
    decreases p
  {
    hide Free, Nested, ExecToks, ExecOk, ExecFits, First;
    ExecDoesFit(p.exec);
    ExecShaped(p.exec);
    assert '|' in OUTSIDE_EXEC;
    FreeIs(ExecToks(p.exec), '|');
    if p.Bar? {
      PipeDoesFit(p.rest);
      SplitsAt(ExecToks(p.exec), p.bar, PipeToks(p.rest));
    }
  }

  lemma {:induction false} ExecDoesFit(e: Exec)
    requires ExecOk(e)
    ensures ExecFits(ExecToks(e))
    decreases e
  {
    hide Nested, Free, LineToks, LineOk, RedirsOk, RedirToks, ItemsOk, ItemToks, First, LineFits, OnlyRedirs, CommandFits;
    match e
    case Block(open, l, close, rs) =>
      LineDoesFit(l);
      LineShaped(l);
      assert ')' in OUTSIDE_LINE;
      RedirsFit(rs);
      SplitsAt(LineToks(l), close, RedirToks(rs));
      var ts := ExecToks(e);
      assert ts[1..] == LineToks(l) + ([close] + RedirToks(rs));
      assert ts[1..1 + |LineToks(l)|] == LineToks(l) && ts[|LineToks(l)| + 2..] == RedirToks(rs);
    case Simple(rs, its) =>
      ItemsFit(its, 0);
      WithRedirs(rs, ItemToks(its), 0);
      NotGroup(ExecToks(e), 0);
  }

  lemma NotGroup(ts: seq<Token>, argc: nat)
    requires CommandFits(ts, argc)
    ensures ts != [] ==> ts[0].kind != '('
  {
  }

  /** The grammar derives exactly the lines that fit. */
  lemma FitsExactly(ts: seq<Token>)
    ensures LineFits(ts) <==> Derivable(ts)
  {
    hide LineFits, LineOk, LineToks;
    if LineFits(ts) {
      var l := LineOf(ts);
    }
    if Derivable(ts) {
      var l :| LineOk(l) && LineToks(l) == ts;
      LineDoesFit(l);
    }
  }
}
