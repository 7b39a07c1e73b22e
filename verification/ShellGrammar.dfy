/** The grammar of command lines (sh.c): syntax trees over tokens, a recursive descent parser as a
    function, and that it accepts exactly the token lists that some tree derives. */
module ShellGrammar {
  import opened ShellTokens

  const MAXARGS: int := 10

  /** line := pipe '&'* [';' line] */
  datatype Line = End(pipe: Pipe, backs: seq<Token>) | Then(pipe: Pipe, backs: seq<Token>, semi: Token, rest: Line)

  /** pipe := exec ['|' pipe] */
  datatype Pipe = One(exec: Exec) | Bar(exec: Exec, bar: Token, rest: Pipe)

  /** exec := '(' line ')' redirs | redirs (word redirs)* */
  datatype Exec =
    | Block(open: Token, line: Line, close: Token, redirs: seq<Redirect>)
    | Simple(redirs: seq<Redirect>, items: seq<Item>)

  datatype Redirect = Redirect(op: Token, file: Token)
  datatype Item = Item(word: Token, redirs: seq<Redirect>)

  predicate RedirOp(c: char) {
    c == '<' || c == '>' || c == '+'
  }

  predicate EndsExec(c: char) {
    c == '|' || c == ')' || c == '&' || c == ';'
  }

  // ---------------------------------------------------------------- what a tree derives

  function RedirToks(rs: seq<Redirect>): seq<Token> {
    if rs == [] then [] else [rs[0].op, rs[0].file] + RedirToks(rs[1..])
  }

  function ItemToks(its: seq<Item>): seq<Token> {
    if its == [] then [] else [its[0].word] + (RedirToks(its[0].redirs) + ItemToks(its[1..]))
  }

  function LineToks(l: Line): seq<Token> {
    match l
    case End(p, bs) => PipeToks(p) + bs
    case Then(p, bs, semi, rest) => PipeToks(p) + (bs + ([semi] + LineToks(rest)))
  }

  function PipeToks(p: Pipe): seq<Token> {
    match p
    case One(e) => ExecToks(e)
    case Bar(e, bar, rest) => ExecToks(e) + ([bar] + PipeToks(rest))
  }

  function ExecToks(e: Exec): seq<Token> {
    match e
    case Block(open, line, close, rs) => [open] + (LineToks(line) + ([close] + RedirToks(rs)))
    case Simple(rs, its) => RedirToks(rs) + ItemToks(its)
  }

  // ---------------------------------------------------------------- which trees there are

  predicate RedirsOk(rs: seq<Redirect>) {
    forall r :: r in rs ==> RedirOp(r.op.kind) && r.file.kind == 'a'
  }

  predicate ItemsOk(its: seq<Item>) {
    forall it :: it in its ==> it.word.kind == 'a' && RedirsOk(it.redirs)
  }

  predicate BacksOk(bs: seq<Token>) {
    forall b :: b in bs ==> b.kind == '&'
  }

  predicate LineOk(l: Line) {
    match l
    case End(p, bs) => PipeOk(p) && BacksOk(bs)
    case Then(p, bs, semi, rest) => PipeOk(p) && BacksOk(bs) && semi.kind == ';' && LineOk(rest)
  }

  predicate PipeOk(p: Pipe) {
    match p
    case One(e) => ExecOk(e)
    case Bar(e, bar, rest) => ExecOk(e) && bar.kind == '|' && PipeOk(rest)
  }

  predicate ExecOk(e: Exec) {
    match e
    case Block(open, line, close, rs) => open.kind == '(' && LineOk(line) && close.kind == ')' && RedirsOk(rs)
    case Simple(rs, its) => RedirsOk(rs) && ItemsOk(its) && |its| < MAXARGS
  }

  /** A tree derives the tokens. */
  ghost predicate Derivable(ts: seq<Token>) {
    exists l :: LineOk(l) && LineToks(l) == ts
  }

  // ---------------------------------------------------------------- recursive descent

  datatype Parsed<T> = Panic | Parsed(t: T, rest: seq<Token>)

  predicate Starts(ts: seq<Token>, c: char) {
    ts != [] && ts[0].kind == c
  }

  function ParseRedirs(ts: seq<Token>): (r: Parsed<seq<Redirect>>)
    ensures r.Parsed? ==> |r.rest| <= |ts|
  {
    if ts == [] || !RedirOp(ts[0].kind) then Parsed([], ts)
    else if |ts| < 2 || ts[1].kind != 'a' then Panic
    else
      match ParseRedirs(ts[2..])
      case Panic => Panic
      case Parsed(rs, rest) => Parsed([Redirect(ts[0], ts[1])] + rs, rest)
  }

  /** The words of a simple command, `argc` of which are already there. */
  function ParseItems(ts: seq<Token>, argc: nat): (r: Parsed<seq<Item>>)
    ensures r.Parsed? ==> |r.rest| <= |ts|
    decreases |ts|
  {
    if ts == [] || EndsExec(ts[0].kind) then Parsed([], ts)
    else if ts[0].kind != 'a' || argc + 1 >= MAXARGS then Panic
    else
      match ParseRedirs(ts[1..])
      case Panic => Panic
      case Parsed(rs, rest) =>
        match ParseItems(rest, argc + 1)
        case Panic => Panic
        case Parsed(its, rest') => Parsed([Item(ts[0], rs)] + its, rest')
  }

  function Backs(ts: seq<Token>): (n: nat)
    ensures n <= |ts|
  {
    if Starts(ts, '&') then 1 + Backs(ts[1..]) else 0
  }

  function ParseLine(ts: seq<Token>): (r: Parsed<Line>)
    ensures r.Parsed? ==> |r.rest| <= |ts|
    decreases |ts|, 3
  {
    match ParsePipe(ts)
    case Panic => Panic
    case Parsed(p, rest) =>
      var bs, tail := rest[..Backs(rest)], rest[Backs(rest)..];
      if !Starts(tail, ';') then Parsed(End(p, bs), tail)
      else
        match ParseLine(tail[1..])
        case Panic => Panic
        case Parsed(l, rest') => Parsed(Then(p, bs, tail[0], l), rest')
  }

  function ParsePipe(ts: seq<Token>): (r: Parsed<Pipe>)
    ensures r.Parsed? ==> |r.rest| <= |ts|
    decreases |ts|, 2
  {
    match ParseExec(ts)
    case Panic => Panic
    case Parsed(e, rest) =>
      if !Starts(rest, '|') then Parsed(One(e), rest)
      else
        match ParsePipe(rest[1..])
        case Panic => Panic
        case Parsed(p, rest') => Parsed(Bar(e, rest[0], p), rest')
  }

  function ParseExec(ts: seq<Token>): (r: Parsed<Exec>)
    ensures r.Parsed? ==> |r.rest| <= |ts|
    decreases |ts|, 1
  {
    if Starts(ts, '(') then ParseBlock(ts)
    else
      match ParseRedirs(ts)
      case Panic => Panic
      case Parsed(rs, rest) =>
        match ParseItems(rest, 0)
        case Panic => Panic
        case Parsed(its, rest') => Parsed(Simple(rs, its), rest')
  }

  function ParseBlock(ts: seq<Token>): (r: Parsed<Exec>)
    requires Starts(ts, '(')
    ensures r.Parsed? ==> |r.rest| <= |ts|
    decreases |ts|, 0
  {
    match ParseLine(ts[1..])
    case Panic => Panic
    case Parsed(l, rest) =>
      if !Starts(rest, ')') then Panic
      else
        match ParseRedirs(rest[1..])
        case Panic => Panic
        case Parsed(rs, rest') => Parsed(Block(ts[0], l, rest[0], rs), rest')
  }

  // ---------------------------------------------------------------- concatenations

  lemma Cut(ts: seq<Token>, n: nat)
    requires n <= |ts|
    ensures ts == ts[..n] + ts[n..]
  {
  }

  lemma Uncut(a: seq<Token>, b: seq<Token>)
    ensures (a + b)[..|a|] == a && (a + b)[|a|..] == b
  {
  }

  lemma HeadOn(ts: seq<Token>)
    requires ts != []
    ensures ts == [ts[0]] + ts[1..]
  {
  }

  lemma HeadOff(t: Token, ts: seq<Token>)
    ensures ([t] + ts)[1..] == ts && ([t] + ts)[0] == t
  {
  }

  lemma Cat2(a: seq<Token>, b: seq<Token>, c: seq<Token>)
    ensures a + (b + c) == (a + b) + c
  {
  }

  lemma Cat3(a: seq<Token>, b: seq<Token>, c: seq<Token>, d: seq<Token>)
    ensures a + (b + (c + d)) == (a + (b + c)) + d
  {
  }

  lemma Cat4(a: seq<Token>, b: seq<Token>, c: seq<Token>, d: seq<Token>, e: seq<Token>)
    ensures a + (b + (c + (d + e))) == (a + (b + (c + d))) + e
  {
  }

  // ---------------------------------------------------------------- soundness

  lemma {:induction false} RedirsSound(ts: seq<Token>)
    requires ParseRedirs(ts).Parsed?
    ensures var r := ParseRedirs(ts); RedirsOk(r.t) && ts == RedirToks(r.t) + r.rest
    ensures var r := ParseRedirs(ts); r.rest == [] || !RedirOp(r.rest[0].kind)
    decreases |ts|
  {
    if ts != [] && RedirOp(ts[0].kind) {
      RedirsSound(ts[2..]);
      var r' := ParseRedirs(ts[2..]);
      RedirsOn(Redirect(ts[0], ts[1]), r'.t);
      TwoOn(ts);
      Cat2([ts[0], ts[1]], RedirToks(r'.t), r'.rest);
    }
  }

  lemma TwoOn(ts: seq<Token>)
    requires |ts| >= 2
    ensures ts == [ts[0], ts[1]] + ts[2..]
  {
  }

  lemma RedirsOn(r: Redirect, rs: seq<Redirect>)
    requires RedirsOk(rs) && RedirOp(r.op.kind) && r.file.kind == 'a'
    ensures RedirsOk([r] + rs) && RedirToks([r] + rs) == [r.op, r.file] + RedirToks(rs)
  {
    assert ([r] + rs)[1..] == rs;
  }

  lemma ItemsOn(it: Item, its: seq<Item>)
    requires ItemsOk(its) && it.word.kind == 'a' && RedirsOk(it.redirs)
    ensures ItemsOk([it] + its) && ItemToks([it] + its) == [it.word] + (RedirToks(it.redirs) + ItemToks(its))
  {
    hide RedirToks, RedirsOk;
    assert ([it] + its)[1..] == its;
  }

  lemma {:induction false} ItemsSound(ts: seq<Token>, argc: nat)
    requires ParseItems(ts, argc).Parsed?
    ensures var r := ParseItems(ts, argc); ItemsOk(r.t) && (argc < MAXARGS ==> argc + |r.t| < MAXARGS)
    ensures var r := ParseItems(ts, argc); ts == ItemToks(r.t) + r.rest
    decreases |ts|
  {
    hide RedirToks, ParseRedirs, RedirsOk;
    if ts != [] && !EndsExec(ts[0].kind) {
      var a := ParseRedirs(ts[1..]);
      var b := ParseItems(a.rest, argc + 1);
      RedirsSound(ts[1..]);
      ItemsSound(a.rest, argc + 1);
      ItemsOn(Item(ts[0], a.t), b.t);
      HeadOn(ts);
      Cat3([ts[0]], RedirToks(a.t), ItemToks(b.t), b.rest);
    }
  }

  lemma {:induction false} BacksAll(ts: seq<Token>)
    ensures BacksOk(ts[..Backs(ts)])
    ensures !Starts(ts[Backs(ts)..], '&')
  {
    if Starts(ts, '&') {
      BacksAll(ts[1..]);
      var n := Backs(ts[1..]);
      assert ts[..n + 1] == [ts[0]] + ts[1..][..n];
      assert ts[n + 1..] == ts[1..][n..];
    }
  }

  lemma {:induction false} LineSound(ts: seq<Token>)
    requires ParseLine(ts).Parsed?
    ensures var r := ParseLine(ts); LineOk(r.t) && ts == LineToks(r.t) + r.rest
    decreases |ts|, 3
  {
    hide PipeToks, ParsePipe, PipeOk, BacksOk;
    PipeSound(ts);
    var p := ParsePipe(ts);
    var n := Backs(p.rest);
    BacksAll(p.rest);
    Cut(p.rest, n);
    var bs, tail := p.rest[..n], p.rest[n..];
    if Starts(tail, ';') {
      LineSound(tail[1..]);
      var l := ParseLine(tail[1..]);
      HeadOn(tail);
      Cat4(PipeToks(p.t), bs, [tail[0]], LineToks(l.t), l.rest);
    } else {
      Cat2(PipeToks(p.t), bs, tail);
    }
  }

  lemma {:induction false} PipeSound(ts: seq<Token>)
    requires ParsePipe(ts).Parsed?
    ensures var r := ParsePipe(ts); PipeOk(r.t) && ts == PipeToks(r.t) + r.rest
    decreases |ts|, 2
  {
    hide ExecToks, ParseExec, ExecOk;
    ExecSound(ts);
    var e := ParseExec(ts);
    if Starts(e.rest, '|') {
      PipeSound(e.rest[1..]);
      var p := ParsePipe(e.rest[1..]);
      HeadOn(e.rest);
      Cat3(ExecToks(e.t), [e.rest[0]], PipeToks(p.t), p.rest);
    }
  }

  lemma {:induction false} ExecSound(ts: seq<Token>)
    requires ParseExec(ts).Parsed?
    ensures var r := ParseExec(ts); ExecOk(r.t) && ts == ExecToks(r.t) + r.rest
    decreases |ts|, 1
  {
    hide RedirToks, ItemToks, RedirsOk, ItemsOk, ParseRedirs, ParseItems, ParseBlock;
    if Starts(ts, '(') {
      BlockSound(ts);
    } else {
      RedirsSound(ts);
      var rs := ParseRedirs(ts);
      ItemsSound(rs.rest, 0);
      var its := ParseItems(rs.rest, 0);
      Cat2(RedirToks(rs.t), ItemToks(its.t), its.rest);
    }
  }

  lemma {:induction false} BlockSound(ts: seq<Token>)
    requires Starts(ts, '(') && ParseBlock(ts).Parsed?
    ensures var r := ParseBlock(ts); ExecOk(r.t) && ts == ExecToks(r.t) + r.rest
    decreases |ts|, 0
  {
    hide RedirToks, RedirsOk, ParseRedirs, LineToks, LineOk, ParseLine;
    LineSound(ts[1..]);
    var l := ParseLine(ts[1..]);
    RedirsSound(l.rest[1..]);
    var rs := ParseRedirs(l.rest[1..]);
    HeadOn(ts);
    HeadOn(l.rest);
    Cat4([ts[0]], LineToks(l.t), [l.rest[0]], RedirToks(rs.t), rs.rest);
  }

  // ---------------------------------------------------------------- completeness

  lemma {:induction false} RedirsComplete(rs: seq<Redirect>, rest: seq<Token>)
    requires RedirsOk(rs) && (rest == [] || !RedirOp(rest[0].kind))
    ensures ParseRedirs(RedirToks(rs) + rest) == Parsed(rs, rest)
  {
    if rs == [] {
      assert RedirToks(rs) + rest == rest;
    } else {
      RedirsComplete(rs[1..], rest);
      RedirsNext(rs[0], RedirToks(rs[1..]) + rest);
      Cat2([rs[0].op, rs[0].file], RedirToks(rs[1..]), rest);
      assert rs == [rs[0]] + rs[1..];
    }
  }

  lemma RedirsNext(r: Redirect, ts: seq<Token>)
    requires RedirOp(r.op.kind) && r.file.kind == 'a' && ParseRedirs(ts).Parsed?
    ensures ParseRedirs([r.op, r.file] + ts) == Parsed([r] + ParseRedirs(ts).t, ParseRedirs(ts).rest)
  {
    assert ([r.op, r.file] + ts)[2..] == ts;
  }

  // What follows the redirections of an item is no redirection.
  lemma ItemsStart(its: seq<Item>, rest: seq<Token>)
    requires ItemsOk(its) && (rest == [] || EndsExec(rest[0].kind))
    ensures var ts := ItemToks(its) + rest; ts == [] || !RedirOp(ts[0].kind)
    ensures its != [] ==> (ItemToks(its) + rest)[0].kind == 'a'
  {
    hide RedirToks, RedirsOk;
  }

  lemma {:induction false} ItemsComplete(its: seq<Item>, rest: seq<Token>, argc: nat)
    requires ItemsOk(its) && argc + |its| < MAXARGS && (rest == [] || EndsExec(rest[0].kind))
    ensures ParseItems(ItemToks(its) + rest, argc) == Parsed(its, rest)
    decreases |its|
  {
    hide ItemToks, ItemsOk, ParseItems;
    if its == [] {
      NoItems(rest, argc);
    } else {
      assert its == [its[0]] + its[1..];
      FirstItem(its);
      ItemsStart(its[1..], rest);
      ItemsComplete(its[1..], rest, argc + 1);
      ItemsNext(its[0], its[1..], rest, argc);
    }
  }

  lemma FirstItem(its: seq<Item>)
    requires ItemsOk(its) && its != []
    ensures its[0].word.kind == 'a' && RedirsOk(its[0].redirs) && ItemsOk(its[1..])
    ensures ItemToks(its) == [its[0].word] + (RedirToks(its[0].redirs) + ItemToks(its[1..]))
  {
    hide RedirToks, RedirsOk;
  }

  lemma NoItems(rest: seq<Token>, argc: nat)
    requires rest == [] || EndsExec(rest[0].kind)
    ensures ParseItems(ItemToks([]) + rest, argc) == Parsed([], rest)
  {
    EmptyItems(rest);
  }

  lemma ItemsNext(it: Item, its: seq<Item>, rest: seq<Token>, argc: nat)
    requires it.word.kind == 'a' && RedirsOk(it.redirs) && argc + 1 < MAXARGS
    requires var ts := ItemToks(its) + rest; ts == [] || !RedirOp(ts[0].kind)
    requires ParseItems(ItemToks(its) + rest, argc + 1) == Parsed(its, rest)
    ensures ParseItems(([it.word] + (RedirToks(it.redirs) + ItemToks(its))) + rest, argc) == Parsed([it] + its, rest)
  {
    hide ItemToks, RedirToks, RedirsOk, ParseRedirs, RedirOp;
    var tail := ItemToks(its) + rest;
    RedirsComplete(it.redirs, tail);
    Cat3([it.word], RedirToks(it.redirs), ItemToks(its), rest);
    HeadOff(it.word, RedirToks(it.redirs) + tail);
  }

  lemma {:induction false} BacksComplete(bs: seq<Token>, rest: seq<Token>)
    requires BacksOk(bs) && !Starts(rest, '&')
    ensures Backs(bs + rest) == |bs|
  {
    if bs == [] {
      assert bs + rest == rest;
    } else {
      BacksComplete(bs[1..], rest);
      assert (bs + rest)[1..] == bs[1..] + rest;
    }
  }

  lemma {:induction false} LineComplete(l: Line, rest: seq<Token>)
    requires LineOk(l) && (rest == [] || rest[0].kind == ')')
    ensures ParseLine(LineToks(l) + rest) == Parsed(l, rest)
    decreases l
  {
    hide PipeToks, PipeOk, BacksOk, ParsePipe, Backs;
    match l
    case End(p, bs) =>
      LineNext(p, bs, rest);
      Cat2(PipeToks(p), bs, rest);
    case Then(p, bs, semi, l') =>
      LineNext(p, bs, [semi] + (LineToks(l') + rest));
      LineComplete(l', rest);
      HeadOff(semi, LineToks(l') + rest);
      Cat4(PipeToks(p), bs, [semi], LineToks(l'), rest);
  }

  // What parseline finds after the pipe and its '&'s.
  lemma LineNext(p: Pipe, bs: seq<Token>, tail: seq<Token>)
    requires PipeOk(p) && BacksOk(bs) && (tail == [] || tail[0].kind == ')' || tail[0].kind == ';')
    ensures ParsePipe(PipeToks(p) + (bs + tail)) == Parsed(p, bs + tail)
    ensures Backs(bs + tail) == |bs| && (bs + tail)[..|bs|] == bs && (bs + tail)[|bs|..] == tail
    decreases p, 1
  {
    hide PipeToks, PipeOk, ParsePipe, Backs;
    BacksComplete(bs, tail);
    Uncut(bs, tail);
    BackStart(bs, tail);
    PipeComplete(p, bs + tail);
  }

  lemma BackStart(bs: seq<Token>, tail: seq<Token>)
    requires BacksOk(bs) && (tail == [] || tail[0].kind == ')' || tail[0].kind == ';')
    ensures bs + tail == [] || (bs + tail)[0].kind == ')' || (bs + tail)[0].kind == '&' || (bs + tail)[0].kind == ';'
  {
    if bs == [] {
      assert bs + tail == tail;
    } else {
      assert (bs + tail)[0] == bs[0];
    }
  }

  lemma {:induction false} PipeComplete(p: Pipe, rest: seq<Token>)
    requires PipeOk(p) && (rest == [] || rest[0].kind == ')' || rest[0].kind == '&' || rest[0].kind == ';')
    ensures ParsePipe(PipeToks(p) + rest) == Parsed(p, rest)
    decreases p, 0
  {
    hide ExecToks, ExecOk, ParseExec;
    match p
    case One(e) =>
      ExecComplete(e, rest);
    case Bar(e, bar, p') =>
      HeadOff(bar, PipeToks(p') + rest);
      ExecComplete(e, [bar] + (PipeToks(p') + rest));
      PipeComplete(p', rest);
      Cat3(ExecToks(e), [bar], PipeToks(p'), rest);
  }

  lemma {:induction false} ExecComplete(e: Exec, rest: seq<Token>)
    requires ExecOk(e) && (rest == [] || EndsExec(rest[0].kind))
    ensures ParseExec(ExecToks(e) + rest) == Parsed(e, rest)
    decreases e
  {
    hide RedirToks, ItemToks, RedirsOk, ItemsOk, ParseRedirs, ParseItems, LineToks, LineOk, ParseLine, EndsExec, RedirOp;
    EndsNotRedir(rest);
    match e
    case Block(open, l, close, rs) =>
      var tail := [close] + (RedirToks(rs) + rest);
      HeadOff(close, RedirToks(rs) + rest);
      HeadOff(open, LineToks(l) + tail);
      LineComplete(l, tail);
      RedirsComplete(rs, rest);
      Cat4([open], LineToks(l), [close], RedirToks(rs), rest);
    case Simple(rs, its) =>
      ItemsStart(its, rest);
      RedirsComplete(rs, ItemToks(its) + rest);
      ItemsComplete(its, rest, 0);
      SimpleStart(rs, its, rest);
      Cat2(RedirToks(rs), ItemToks(its), rest);
  }

  lemma EndsNotRedir(rest: seq<Token>)
    requires rest == [] || EndsExec(rest[0].kind)
    ensures rest == [] || !RedirOp(rest[0].kind)
  {
  }

  lemma SimpleStart(rs: seq<Redirect>, its: seq<Item>, rest: seq<Token>)
    requires RedirsOk(rs) && ItemsOk(its) && (rest == [] || EndsExec(rest[0].kind))
    ensures !Starts(RedirToks(rs) + (ItemToks(its) + rest), '(')
  {
    hide ItemToks;
    ItemsStart(its, rest);
    var tail := ItemToks(its) + rest;
    if rs == [] {
      assert RedirToks(rs) + tail == tail;
      if its == [] {
        EmptyItems(rest);
      }
    } else {
      assert (RedirToks(rs) + tail)[0] == rs[0].op;
    }
  }

  lemma EmptyItems(rest: seq<Token>)
    ensures ItemToks([]) + rest == rest
  {
  }

  /** The parser takes a token list as a whole exactly when a tree derives it, and returns that tree. */
  lemma AcceptsExactly(ts: seq<Token>)
    ensures Derivable(ts) <==> ParseLine(ts).Parsed? && ParseLine(ts).rest == []
    ensures forall l :: LineOk(l) && LineToks(l) == ts ==> ParseLine(ts) == Parsed(l, [])
  {
    forall l | LineOk(l) && LineToks(l) == ts ensures ParseLine(ts) == Parsed(l, []) {
      LineComplete(l, []);
      assert ts + [] == ts;
    }
    if ParseLine(ts).Parsed? && ParseLine(ts).rest == [] {
      LineSound(ts);
      var l := ParseLine(ts).t;
      assert LineOk(l) && LineToks(l) == ts;
    }
  }
}
