/** gettoken, peek, the parse functions and nulterminate (sh.c): a cursor moved over one buffer,
    argument vectors filled in place, and NULs stored behind the words. */
module Shell {
  import opened ShellTokens
  import opened ShellGrammar
  import opened ShellTree
  import opened ShellOrder
  import opened ShellAccepts
  import opened ShellMeaning

  datatype Option<T> = None | Some(value: T)

  /** An entry of argv with its entry of eargv. */
  datatype Arg = Null | Word(q: int, eq: int)

  /** A struct cmd; the argument vector of an execcmd is filled while the command is built. */
  datatype Cmd =
    | ExecCmd(argv: array<Arg>)
    | RedirCmd(cmd: Cmd, file: Token, mode: int, fd: int)
    | PipeCmd(left: Cmd, right: Cmd)
    | ListCmd(left: Cmd, right: Cmd)
    | BackCmd(cmd: Cmd)

  function Argvs(c: Cmd): set<array<Arg>> {
    match c
    case ExecCmd(argv) => {argv}
    case RedirCmd(d, _, _, _) => Argvs(d)
    case PipeCmd(l, r) => Argvs(l) + Argvs(r)
    case ListCmd(l, r) => Argvs(l) + Argvs(r)
    case BackCmd(d) => Argvs(d)
  }

  /** The arguments up to the null pointer. */
  function Counted(a: seq<Arg>): (r: seq<Token>)
    ensures |r| <= |a|
  {
    if a == [] || a[0].Null? then [] else [Token('a', a[0].q, a[0].eq)] + Counted(a[1..])
  }

  ghost function TreeOf(c: Cmd): Tree
    reads Argvs(c)
  {
    match c
    case ExecCmd(argv) => ExecTree(Counted(argv[..]))
    case RedirCmd(d, file, mode, fd) => RedirTree(TreeOf(d), file, mode, fd)
    case PipeCmd(l, r) => PipeTree(TreeOf(l), TreeOf(r))
    case ListCmd(l, r) => ListTree(TreeOf(l), TreeOf(r))
    case BackCmd(d) => BackTree(TreeOf(d))
  }

  /** Every argument vector has its null pointer. */
  ghost predicate Closed(c: Cmd)
    reads Argvs(c)
  {
    forall a :: a in Argvs(c) ==> |Counted(a[..])| < a.Length
  }

  /** c is t in memory. */
  ghost predicate Stands(c: Cmd, t: Tree)
    reads Argvs(c)
  {
    Closed(c) && TreeOf(c) == t
  }

  function WrapCmd(c: Cmd, rs: seq<Redirect>): Cmd {
    if rs == [] then c
    else RedirCmd(WrapCmd(c, rs[..|rs| - 1]), rs[|rs| - 1].file, Mode(rs[|rs| - 1].op.kind), Fd(rs[|rs| - 1].op.kind))
  }

  lemma {:induction false} WrapTree(c: Cmd, rs: seq<Redirect>)
    ensures Argvs(WrapCmd(c, rs)) == Argvs(c) && TreeOf(WrapCmd(c, rs)) == WrapAll(TreeOf(c), rs)
    decreases |rs|
  {
    if rs != [] {
      WrapTree(c, rs[..|rs| - 1]);
    }
  }

  lemma WrapOne(c: Cmd, rs: seq<Redirect>, r: Redirect)
    ensures WrapCmd(c, rs + [r]) == RedirCmd(WrapCmd(c, rs), r.file, Mode(r.op.kind), Fd(r.op.kind))
  {
    assert (rs + [r])[..|rs|] == rs;
  }

  lemma {:induction false} WrapTwice(c: Cmd, a: seq<Redirect>, b: seq<Redirect>)
    ensures WrapCmd(WrapCmd(c, a), b) == WrapCmd(c, a + b)
    decreases |b|
  {
    if b == [] {
      assert a + b == a;
    } else {
      var n := |b| - 1;
      WrapTwice(c, a, b[..n]);
      assert (a + b)[..|a + b| - 1] == a + b[..n];
    }
  }

  predicate AllSymbols(toks: string) {
    forall c :: c in toks ==> Symbol(c)
  }

  /** The first character of a token of this kind, if the token is a symbol. */
  function FirstChar(kind: char): char {
    if kind == '+' then '>' else kind
  }

  // What peek sees in front of it.
  lemma PeekToken(s: string, p: int)
    requires 0 <= p <= |s| && (p < |s| ==> !White(s[p]))
    ensures Tokens(s, p) == [] <==> p == |s|
    ensures p < |s| ==> var k := Tokens(s, p)[0].kind; forall c :: Symbol(c) ==> (s[p] == c <==> FirstChar(k) == c)
  {
    WhiteUntil(s, p, p);
  }

  lemma BufferAt(b: string, s: string)
    requires Holds(b, s)
    ensures |s| < |b| && b[|s|] == NUL && forall i :: 0 <= i < |s| ==> b[i] == s[i] != NUL
  {
    assert forall i :: 0 <= i < |s| ==> b[..|s|][i] == b[i];
  }

  lemma WhiteOn(s: string, i: nat)
    requires i < |s| && White(s[i])
    ensures SkipWhite(s, i) == SkipWhite(s, i + 1)
  {
  }

  lemma WhiteOver(s: string, i: nat)
    requires i < |s| ==> !White(s[i])
    ensures SkipWhite(s, i) == i
  {
  }

  lemma WordOn(s: string, i: nat)
    requires i < |s| && !White(s[i]) && !Symbol(s[i])
    ensures WordEnd(s, i) == WordEnd(s, i + 1)
  {
  }

  lemma WordOver(s: string, i: nat)
    requires i < |s| ==> White(s[i]) || Symbol(s[i])
    ensures WordEnd(s, i) == i
  {
  }

  // The first token, from what gettoken's loops and branches found.
  lemma TokenRead(s: string, p: nat, q: nat, ret: char, eq: nat)
    requires p <= q <= eq <= |s| && q == SkipWhite(s, p)
    requires q == |s| ==> eq == q
    requires q < |s| && Symbol(s[q]) ==>
      if s[q] == '>' && q + 1 < |s| && s[q + 1] == '>' then ret == '+' && eq == q + 2 else ret == s[q] && eq == q + 1
    requires q < |s| && !Symbol(s[q]) ==> ret == 'a' && eq == WordEnd(s, q)
    ensures if q == |s| then Tokens(s, p) == [] && Tokens(s, eq) == []
            else Tokens(s, p) != [] && Tokens(s, p)[0] == Token(ret, q, eq) && Tokens(s, p)[1..] == Tokens(s, eq) && q < eq
  {
    if q == |s| {
      WhiteUntil(s, q, q);
    }
  }

  class Parser {
    const buf: array<char>
    const es: nat
    var ps: nat

    ghost const text: string             // the line, as it was before any NUL was stored in it

    ghost predicate Valid()
      reads this, buf
    {
      ps <= es && |text| == es && Holds(buf[..], text)
    }

    /** The tokens from the cursor on. */
    ghost function Rest(): seq<Token>
      reads this`ps
    {
      Tokens(text, ps)
    }

    method Gettoken() returns (ret: char, q: nat, eq: nat)
      requires Valid()
      modifies this`ps
      ensures Valid()
      ensures old(Rest()) == [] ==> ret == NUL && q == eq == ps == es && Rest() == []
      ensures old(Rest()) != [] ==>
        && old(Rest())[0] == Token(ret, q, eq) && Rest() == old(Rest())[1..] && ps > old(ps)
    {
      hide Holds, Tokens, Scan, AllWhite, TokenAt, WordAt, White, Symbol, WordChar, SkipWhite, WordEnd;
      ghost var ps0 := ps;
      BufferAt(buf[..], text);
      var s := ps;
      while s < es && White(buf[s])
        invariant ps0 <= s <= es && SkipWhite(text, s) == SkipWhite(text, ps0)
      {
        WhiteOn(text, s);
        s := s + 1;
      }
      WhiteOver(text, s);
      q := s;
      ret := buf[s];
      if s < es {
        if Symbol(ret) {
          s := s + 1;
          if ret == '>' && buf[s] == '>' {
            ret := '+';
            s := s + 1;
          }
        } else {
          ret := 'a';
          while s < es && !White(buf[s]) && !Symbol(buf[s])
            invariant q <= s <= es && WordEnd(text, s) == WordEnd(text, q)
          {
            WordOn(text, s);
            s := s + 1;
          }
          WordOver(text, s);
        }
      }
      eq := s;
      while s < es && White(buf[s])
        invariant eq <= s <= es && SkipWhite(text, s) == SkipWhite(text, eq)
      {
        WhiteOn(text, s);
        s := s + 1;
      }
      WhiteOver(text, s);
      ps := s;
      TokenRead(text, ps0, q, ret, eq);
      TokensFrom(text, eq);
    }

    method Peek(toks: string) returns (b: bool)
      requires Valid() && AllSymbols(toks)
      modifies this`ps
      ensures Valid() && Rest() == old(Rest()) && ps >= old(ps)
      ensures b <==> Rest() != [] && FirstChar(Rest()[0].kind) in toks
      ensures Rest() == [] <==> ps == es
    {
      ghost var ps0 := ps;
      var s := ps;
      while s < es && White(buf[s])
        invariant ps0 <= s <= es && SkipWhite(text, s) == SkipWhite(text, ps0)
      {
        s := s + 1;
      }
      ps := s;
      TokensFrom(text, ps0);
      TokensFrom(text, s);
      PeekToken(text, s);
      b := buf[s] != NUL && buf[s] in toks;
    }

    /** strlen, and the cursor at the start. */
    constructor (buf: array<char>)
      requires exists n :: 0 <= n < buf.Length && buf[n] == NUL
      ensures this.buf == buf && Valid() && ps == 0 && text == buf[..es]
    {
      var n := 0;
      ghost var m :| 0 <= m < buf.Length && buf[m] == NUL;
      while buf[n] != NUL
        invariant 0 <= n <= m && forall i :: 0 <= i < n ==> buf[i] != NUL
        decreases m - n
      {
        n := n + 1;
      }
      this.buf, es, ps, text := buf, n, 0, buf[..n];
    }

    method Parseredirs(cmd: Cmd) returns (r: Option<Cmd>)
      requires Valid()
      modifies this`ps
      ensures Valid() && ps >= old(ps)
      ensures ParseRedirs(old(Rest())).Panic? ==> r == None
      ensures ParseRedirs(old(Rest())).Parsed? ==>
        r == Some(WrapCmd(cmd, ParseRedirs(old(Rest())).t)) && Rest() == ParseRedirs(old(Rest())).rest
    {
      hide Holds, Tokens, ParseRedirs, WrapCmd, RedirOp, FirstChar;
      ghost var ts0: seq<Token>, done: seq<Redirect> := Rest(), [];
      var ret := cmd;
      PeekRedirs();
      var more := Peek("<>");
      RedirsFromStart(ts0);
      WrapNone(cmd);
      while more
        invariant Valid() && ps >= old(ps) && more == (Rest() != [] && RedirOp(Rest()[0].kind))
        invariant ret == WrapCmd(cmd, done) && RedirsFrom(ts0, done, Rest())
        decreases es - ps
      {
        ghost var ts := Rest();
        RedirsFromStep(ts0, done, ts);
        var tok, _, _ := Gettoken();
        var file, q, eq := Gettoken();
        if file != 'a' {
          return None;
        }
        ghost var rd := Redirect(ts[0], ts[1]);
        WrapOne(cmd, done, rd);
        if tok == '<' {
          ret := RedirCmd(ret, Token('a', q, eq), O_RDONLY, 0);
        } else if tok == '>' {
          ret := RedirCmd(ret, Token('a', q, eq), O_WRONLY + O_CREATE, 1);
        } else if tok == '+' {
          ret := RedirCmd(ret, Token('a', q, eq), O_WRONLY + O_CREATE, 1);
        }
        RedirKinds(tok);
        done := done + [rd];
        more := Peek("<>");
      }
      r := Some(ret);
      RedirsFromEnd(ts0, done, Rest());
    }

    method Parseline() returns (r: Option<Cmd>)
      requires Valid()
      modifies this`ps
      ensures Valid() && ps >= old(ps)
      ensures ParseLine(old(Rest())).Panic? ==> r == None
      ensures ParseLine(old(Rest())).Parsed? ==>
        && r.Some? && Rest() == ParseLine(old(Rest())).rest && fresh(Argvs(r.value)) && allocated(Argvs(r.value))
        && Stands(r.value, LineTree(ParseLine(old(Rest())).t))
      decreases es - ps, 3
    {
      hide Holds, Tokens, FirstChar, ParsePipe, ParseLine, PipeTreeOf, LineTree, Stands, Backs, BackAll;
      ghost var ts0 := Rest();
      r := Parsepipe();
      LineBegins(ts0);
      if r == None {
        return;
      }
      ghost var p := ParsePipe(ts0);
      var cmd := Parsebacks(r.value, PipeTreeOf(p.t));
      ghost var n := Backs(p.rest);
      PeekOne(";", ';');
      var more := Peek(";");
      if more {
        ghost var tail := Rest();
        LineThen(ts0, n, tail);
        var _, _, _ := Gettoken();
        var rest := Parseline();
        if rest == None {
          return None;
        }
        ListTreeOf(cmd, BackAll(PipeTreeOf(p.t), n), rest.value, LineTree(ParseLine(tail[1..]).t));
        cmd := ListCmd(cmd, rest.value);
      } else {
        LineEnds(ts0, n);
      }
      r := Some(cmd);
    }

    /** parseline's loop over '&'s. */
    method Parsebacks(c: Cmd, ghost t: Tree) returns (cmd: Cmd)
      requires Valid() && allocated(Argvs(c)) && Stands(c, t)
      modifies this`ps
      ensures Valid() && ps >= old(ps) && Rest() == old(Rest())[Backs(old(Rest()))..]
      ensures Argvs(cmd) == Argvs(c) && Stands(cmd, BackAll(t, Backs(old(Rest()))))
      ensures Closed(cmd) && Ops(TreeOf(cmd)) == Ops(t) + seq(Backs(old(Rest())), _ => '&')
    {
      hide Holds, Tokens, FirstChar, Stands;
      cmd := c;
      ghost var ts, n := Rest(), 0;
      PeekOne("&", '&');
      BackNone(t);
      var more := Peek("&");
      while more
        invariant Valid() && ps >= old(ps) && n <= |ts| && Rest() == ts[n..] && Backs(ts) == n + Backs(ts[n..])
        invariant more == Starts(Rest(), '&')
        invariant Argvs(cmd) == Argvs(c) && Stands(cmd, BackAll(t, n))
        decreases es - ps
      {
        BacksStep(ts, n);
        BackTreeOf(cmd, BackAll(t, n));
        var _, _, _ := Gettoken();
        cmd := BackCmd(cmd);
        n := n + 1;
        more := Peek("&");
      }
      BacksEnd(ts, n);
      StandsFor(cmd, BackAll(t, n));
      BackAllOps(t, n);
    }

    method Parsepipe() returns (r: Option<Cmd>)
      requires Valid()
      modifies this`ps
      ensures Valid() && ps >= old(ps)
      ensures ParsePipe(old(Rest())).Panic? ==> r == None
      ensures ParsePipe(old(Rest())).Parsed? ==>
        && r.Some? && Rest() == ParsePipe(old(Rest())).rest && fresh(Argvs(r.value)) && allocated(Argvs(r.value))
        && Stands(r.value, PipeTreeOf(ParsePipe(old(Rest())).t))
      decreases es - ps, 2
    {
      hide Holds, Tokens, FirstChar, ParseExec, ParsePipe, ExecTreeOf, PipeTreeOf, Stands;
      ghost var ts0 := Rest();
      r := Parseexec();
      PipeBegins(ts0);
      if r == None {
        return;
      }
      PeekOne("|", '|');
      var more := Peek("|");
      if more {
        var _, _, _ := Gettoken();
        var right := Parsepipe();
        if right == None {
          return None;
        }
        PipeTreesOf(r.value, ExecTreeOf(ParseExec(ts0).t), right.value, PipeTreeOf(ParsePipe(ParseExec(ts0).rest[1..]).t));
        r := Some(PipeCmd(r.value, right.value));
      }
    }

    method Parseblock() returns (r: Option<Cmd>)
      requires Valid()
      modifies this`ps
      ensures Valid() && ps >= old(ps)
      ensures !Starts(old(Rest()), '(') ==> r == None
      ensures Starts(old(Rest()), '(') && ParseBlock(old(Rest())).Panic? ==> r == None
      ensures Starts(old(Rest()), '(') && ParseBlock(old(Rest())).Parsed? ==>
        && r.Some? && Rest() == ParseBlock(old(Rest())).rest && fresh(Argvs(r.value)) && allocated(Argvs(r.value))
        && Stands(r.value, ExecTreeOf(ParseBlock(old(Rest())).t))
      decreases es - ps, 0
    {
      hide Holds, Tokens, FirstChar, ParseLine, ParseBlock, ParseRedirs, LineTree, ExecTreeOf, WrapAll, WrapCmd, Stands;
      ghost var ts0 := Rest();
      PeekOne("(", '(');
      PeekOne(")", ')');
      var open := Peek("(");
      if !open {
        return None;
      }
      BlockBegins(ts0);
      var _, _, _ := Gettoken();
      r := Parseline();
      if r == None {
        return;
      }
      var close := Peek(")");
      if !close {
        return None;
      }
      var _, _, _ := Gettoken();
      var inner := r.value;
      r := Parseredirs(inner);
      if r.Some? {
        WrapStands(inner, LineTree(ParseLine(ts0[1..]).t), ParseRedirs(ParseLine(ts0[1..]).rest[1..]).t);
      }
    }

    method Parseexec() returns (r: Option<Cmd>)
      requires Valid()
      modifies this`ps
      ensures Valid() && ps >= old(ps)
      ensures ParseExec(old(Rest())).Panic? ==> r == None
      ensures ParseExec(old(Rest())).Parsed? ==>
        && r.Some? && Rest() == ParseExec(old(Rest())).rest && fresh(Argvs(r.value)) && allocated(Argvs(r.value))
        && Stands(r.value, ExecTreeOf(ParseExec(old(Rest())).t))
      decreases es - ps, 1
    {
      hide Holds, Tokens, FirstChar, ParseBlock, ParseExec, ParseItems, ParseRedirs, ExecTreeOf, WrapCmd, WrapAll, Stands, Counted, Args, ItemRedirs;
      ghost var ts0 := Rest();
      PeekOne("(", '(');
      ExecBegins(ts0);
      var open := Peek("(");
      if open {
        r := Parseblock();
        return;
      }
      var argv := new Arg[MAXARGS](_ => Null);
      r := Parseredirs(ExecCmd(argv));
      if r == None {
        return;
      }
      ghost var rs0, ts1 := ParseRedirs(ts0).t, Rest();
      r := Parseargs(argv, r.value, rs0);
      if r.Some? {
        SimpleDone(argv, Args(ParseItems(ts1, 0).t), rs0 + ItemRedirs(ParseItems(ts1, 0).t));
      }
    }

    /** parseexec's loop: the words into argv, their redirections around the command. */
    method Parseargs(argv: array<Arg>, cmd: Cmd, ghost rs0: seq<Redirect>) returns (r: Option<Cmd>)
      requires Valid() && argv.Length == MAXARGS && (forall k :: 0 <= k < MAXARGS ==> argv[k] == Null)
      requires cmd == WrapCmd(ExecCmd(argv), rs0)
      modifies this`ps, argv
      ensures Valid() && ps >= old(ps)
      ensures ParseItems(old(Rest()), 0).Panic? ==> r == None
      ensures ParseItems(old(Rest()), 0).Parsed? ==>
        && Rest() == ParseItems(old(Rest()), 0).rest
        && Counted(argv[..]) == Args(ParseItems(old(Rest()), 0).t) && |Counted(argv[..])| < argv.Length
        && r == Some(WrapCmd(ExecCmd(argv), rs0 + ItemRedirs(ParseItems(old(Rest()), 0).t)))
    {
      hide Holds, Tokens, FirstChar, ParseItems, ParseRedirs, WrapCmd, EndsExec, Filled, Counted, Args, ItemRedirs, ItemsFrom;
      var argc := 0;
      ghost var ws: seq<Token>, irs: seq<Redirect> := [], [];
      ghost var core, ts1 := ExecCmd(argv), Rest();
      r := Some(cmd);
      FilledStart(argv[..]);
      ItemsFromStart(ts1);
      PeekEnds();
      assert rs0 + [] == rs0;
      var ends := Peek("|)&;");
      while !ends
        invariant Valid() && ps >= old(ps) && ends == (Rest() != [] && EndsExec(Rest()[0].kind))
        invariant 0 <= argc < MAXARGS && argc == |ws| && Filled(argv[..], ws)
        invariant r == Some(WrapCmd(core, rs0 + irs)) && ItemsFrom(ts1, ws, irs, Rest())
        decreases es - ps
      {
        ghost var ts, p0 := Rest(), ps;
        var tok, q, eq := Gettoken();
        KindsNotNul(text, p0);
        if tok == NUL {
          break;
        }
        ItemsFromStep(ts1, ws, irs, ts);
        if tok != 'a' {
          return None;
        }
        FilledStep(argv[..], ws, ts[0]);
        argv[argc] := Word(q, eq);
        argc := argc + 1;
        if argc >= MAXARGS {
          return None;
        }
        r := Parseredirs(r.value);
        if r == None {
          return;
        }
        ghost var rs := ParseRedirs(ts[1..]).t;
        WrapTwice(core, rs0 + irs, rs);
        Regroup(rs0, irs, rs);
        ws, irs := ws + [ts[0]], irs + rs;
        ends := Peek("|)&;");
      }
      ghost var a := argv[..];
      FilledEnd(a, ws);
      ItemsFromEnd(ts1, ws, irs, Rest());
      argv[argc] := Null;
      assert argv[..] == a;
    }

    /** NULs behind exactly the words of the command, nothing else of the buffer touched. */
    method Nulterminate(cmd: Cmd)
      requires EndsWithin(TreeWords(TreeOf(cmd)), buf.Length) && Closed(cmd) && allocated(Argvs(cmd))
      modifies buf
      ensures buf[..] == Stored(old(buf[..]), EndsOf(TreeWords(old(TreeOf(cmd)))))
      decreases cmd
    {
      hide EndsOf, Stored, Closed, TreeOf;
      ghost var b := buf[..];
      UnfoldTree(cmd);
      match cmd
      case ExecCmd(argv) =>
        CountedAt(argv[..]);
        StoredNone(b);
        ghost var ws := Counted(argv[..]);
        var i := 0;
        while argv[i] != Null
          invariant 0 <= i <= |ws| < argv.Length && ws == Counted(argv[..]) && buf[..] == Stored(b, EndsOf(ws[..i]))
          decreases |ws| - i
        {
          StoredOn(b, ws[..i], ws[i]);
          assert ws[..i] + [ws[i]] == ws[..i + 1];
          EndsWithinAt(ws, i, buf.Length);
          buf[argv[i].eq] := NUL;
          i := i + 1;
        }
        assert ws[..i] == ws;
      case RedirCmd(d, file, _, _) =>
        ghost var ws := TreeWords(TreeOf(d));
        EndsWithinAt(ws + [file], |ws|, buf.Length);
        EndsWithinParts(ws, [file], buf.Length);
        Nulterminate(d);
        StoredOn(b, ws, file);
        buf[file.eq] := NUL;
      case PipeCmd(l, r) =>
        EndsWithinParts(TreeWords(TreeOf(l)), TreeWords(TreeOf(r)), buf.Length);
        StoredBoth(b, TreeWords(TreeOf(l)), TreeWords(TreeOf(r)));
        Nulterminate(l);
        Nulterminate(r);
      case ListCmd(l, r) =>
        EndsWithinParts(TreeWords(TreeOf(l)), TreeWords(TreeOf(r)), buf.Length);
        StoredBoth(b, TreeWords(TreeOf(l)), TreeWords(TreeOf(r)));
        Nulterminate(l);
        Nulterminate(r);
      case BackCmd(d) =>
        Nulterminate(d);
    }

    /** parsecmd: a command for exactly the lines that are lists of pipes of commands; its arguments and its
        redirections are those of the line, in order, its pipes, lists and background commands are what
        the operators mean, and every word reads back from the buffer as the token it was. */
    method Parsecmd() returns (r: Option<Cmd>)
      requires Valid() && ps == 0
      modifies this`ps, buf
      ensures r.Some? <==> LineFits(Tokens(text, 0))
      ensures r.Some? <==> Derivable(Tokens(text, 0))
      ensures r.Some? ==> exists l :: LineOk(l) && LineToks(l) == Tokens(text, 0) && Stands(r.value, LineTree(l))
      ensures r.Some? ==> multiset(TreeWords(TreeOf(r.value))) == multiset(Words(Tokens(text, 0)))
      ensures r.Some? ==> TreeRoles(TreeOf(r.value)) == TokenRoles(Tokens(text, 0), ';')
      ensures r.Some? ==> TreeOf(r.value) == Meaning(Tokens(text, 0)) && Ops(TreeOf(r.value)) == OpToks(Tokens(text, 0))
      ensures r.Some? ==> forall t :: t in TreeWords(TreeOf(r.value)) ==> ReadsBack(buf[..], text, t)
    {
      hide Holds, ParseLine, LineTree, Stands, Tokens, Closed, TreeOf, Derivable, FirstChar, LineFits, Meaning, Ops, OpToks, LineOk, LineToks;
      ghost var ts := Rest();
      FitsExactly(ts);
      r := Parseline();
      LineAccepted(ts);
      if r == None {
        return;
      }
      NoSymbols();
      var _ := Peek("");
      if ps != es {
        return None;
      }
      ghost var b, t := buf[..], TreeOf(r.value);
      StandsFor(r.value, LineTree(ParseLine(ts).t));
      LineRead(b, text, ParseLine(ts).t);
      Nulterminate(r.value);
    }
  }

  lemma PeekRedirs()
    ensures AllSymbols("<>") && forall k :: FirstChar(k) in "<>" <==> RedirOp(k)
  {
  }

  lemma RedirKinds(op: char)
    requires RedirOp(op)
    ensures op == '<' || op == '>' || op == '+'
    ensures op != '<' ==> Mode(op) == O_WRONLY + O_CREATE && Fd(op) == 1
  {
  }

  lemma WrapNone(c: Cmd)
    ensures WrapCmd(c, []) == c
  {
  }

  /** `done` has been read of ts0 and cur is left. */
  predicate RedirsFrom(ts0: seq<Token>, done: seq<Redirect>, cur: seq<Token>) {
    match ParseRedirs(cur)
    case Panic => ParseRedirs(ts0).Panic?
    case Parsed(rs, rest) => ParseRedirs(ts0) == Parsed(done + rs, rest)
  }

  lemma RedirsFromStart(ts: seq<Token>)
    ensures RedirsFrom(ts, [], ts)
  {
    hide ParseRedirs;
    if ParseRedirs(ts).Parsed? {
      assert [] + ParseRedirs(ts).t == ParseRedirs(ts).t;
    }
  }

  lemma RedirsFromStep(ts0: seq<Token>, done: seq<Redirect>, ts: seq<Token>)
    requires RedirsFrom(ts0, done, ts) && ts != [] && RedirOp(ts[0].kind)
    ensures |ts| < 2 || ts[1].kind != 'a' ==> ParseRedirs(ts0).Panic?
    ensures |ts| >= 2 && ts[1].kind == 'a' ==> RedirsFrom(ts0, done + [Redirect(ts[0], ts[1])], ts[1..][1..])
  {
    if |ts| >= 2 && ts[1].kind == 'a' {
      assert ts[1..][1..] == ts[2..];
      if ParseRedirs(ts[2..]).Parsed? {
        var rs := ParseRedirs(ts[2..]).t;
        assert done + ([Redirect(ts[0], ts[1])] + rs) == done + [Redirect(ts[0], ts[1])] + rs;
      }
    }
  }

  lemma RedirsFromEnd(ts0: seq<Token>, done: seq<Redirect>, ts: seq<Token>)
    requires RedirsFrom(ts0, done, ts) && (ts == [] || !RedirOp(ts[0].kind))
    ensures ParseRedirs(ts0) == Parsed(done, ts)
  {
    assert done + [] == done;
  }

  // ---------------------------------------------------------------- what peek decides

  lemma PeekOne(toks: string, c: char)
    requires toks == [c] && Symbol(c) && c != '>'
    ensures AllSymbols(toks) && forall k :: FirstChar(k) in toks <==> k == c
  {
  }

  lemma PeekEnds()
    ensures AllSymbols("|)&;") && forall k :: FirstChar(k) in "|)&;" <==> EndsExec(k)
  {
  }

  lemma KindsNotNul(s: string, p: int)
    requires 0 <= p <= |s|
    ensures forall t :: t in Tokens(s, p) ==> t.kind != NUL
  {
    hide Tokens, WordAt, AllWhite;
    forall t | t in Tokens(s, p) ensures t.kind != NUL {
      EachToken(s, p, t);
    }
  }

  // ---------------------------------------------------------------- parseline

  lemma LineBegins(ts0: seq<Token>)
    ensures ParsePipe(ts0).Panic? ==> ParseLine(ts0).Panic?
  {
    hide ParsePipe, Backs;
  }

  lemma BackNone(t: Tree)
    ensures BackAll(t, 0) == t
  {
  }

  lemma BacksStep(ts: seq<Token>, n: nat)
    requires n <= |ts| && Starts(ts[n..], '&')
    ensures n < |ts| && ts[n..][1..] == ts[n + 1..] && Backs(ts[n..]) == 1 + Backs(ts[n + 1..])
  {
    assert ts[n..][1..] == ts[n + 1..];
  }

  lemma BacksEnd(ts: seq<Token>, n: nat)
    requires n <= |ts| && Backs(ts) == n + Backs(ts[n..]) && !Starts(ts[n..], '&')
    ensures Backs(ts) == n
  {
  }

  lemma LineThen(ts0: seq<Token>, n: nat, tail: seq<Token>)
    requires ParsePipe(ts0).Parsed? && n == Backs(ParsePipe(ts0).rest) && tail == ParsePipe(ts0).rest[n..] && Starts(tail, ';')
    ensures ParseLine(tail[1..]).Panic? ==> ParseLine(ts0).Panic?
    ensures ParseLine(tail[1..]).Parsed? ==>
      && ParseLine(ts0).Parsed? && ParseLine(ts0).rest == ParseLine(tail[1..]).rest
      && LineTree(ParseLine(ts0).t) == ListTree(BackAll(PipeTreeOf(ParsePipe(ts0).t), n), LineTree(ParseLine(tail[1..]).t))
  {
    hide ParsePipe, Backs, PipeTreeOf, BackAll;
  }

  lemma LineEnds(ts0: seq<Token>, n: nat)
    requires ParsePipe(ts0).Parsed? && n == Backs(ParsePipe(ts0).rest) && !Starts(ParsePipe(ts0).rest[n..], ';')
    ensures ParseLine(ts0).Parsed? && ParseLine(ts0).rest == ParsePipe(ts0).rest[n..]
    ensures LineTree(ParseLine(ts0).t) == BackAll(PipeTreeOf(ParsePipe(ts0).t), n)
  {
    hide ParsePipe, Backs, PipeTreeOf, BackAll;
  }

  lemma BackTreeOf(c: Cmd, t: Tree)
    requires Stands(c, t)
    ensures Argvs(BackCmd(c)) == Argvs(c) && Stands(BackCmd(c), BackTree(t))
  {
    hide Counted;
  }

  lemma ListTreeOf(a: Cmd, t: Tree, b: Cmd, u: Tree)
    requires Stands(a, t) && Stands(b, u)
    ensures Argvs(ListCmd(a, b)) == Argvs(a) + Argvs(b) && Stands(ListCmd(a, b), ListTree(t, u))
  {
    hide Counted;
  }

  // ---------------------------------------------------------------- parsepipe

  lemma PipeBegins(ts0: seq<Token>)
    ensures var e := ParseExec(ts0);
      && (e.Panic? ==> ParsePipe(ts0).Panic?)
      && (e.Parsed? && !Starts(e.rest, '|') ==>
            ParsePipe(ts0) == Parsed(One(e.t), e.rest) && PipeTreeOf(One(e.t)) == ExecTreeOf(e.t))
      && (e.Parsed? && Starts(e.rest, '|') ==>
            var p := ParsePipe(e.rest[1..]);
            && (p.Panic? ==> ParsePipe(ts0).Panic?)
            && (p.Parsed? ==>
                  && ParsePipe(ts0) == Parsed(Bar(e.t, e.rest[0], p.t), p.rest)
                  && PipeTreeOf(Bar(e.t, e.rest[0], p.t)) == PipeTree(ExecTreeOf(e.t), PipeTreeOf(p.t))))
  {
    hide ParseExec, ExecTreeOf;
  }

  lemma PipeTreesOf(a: Cmd, t: Tree, b: Cmd, u: Tree)
    requires Stands(a, t) && Stands(b, u)
    ensures Argvs(PipeCmd(a, b)) == Argvs(a) + Argvs(b) && Stands(PipeCmd(a, b), PipeTree(t, u))
  {
    hide Counted;
  }

  // ---------------------------------------------------------------- parseblock and parseexec

  lemma BlockBegins(ts0: seq<Token>)
    requires Starts(ts0, '(')
    ensures var l := ParseLine(ts0[1..]);
      && (l.Panic? || !Starts(l.rest, ')') ==> ParseBlock(ts0).Panic?)
      && (l.Parsed? && Starts(l.rest, ')') ==>
            var rs := ParseRedirs(l.rest[1..]);
            && (rs.Panic? ==> ParseBlock(ts0).Panic?)
            && (rs.Parsed? ==>
                  && ParseBlock(ts0) == Parsed(Block(ts0[0], l.t, l.rest[0], rs.t), rs.rest)
                  && ExecTreeOf(ParseBlock(ts0).t) == WrapAll(LineTree(l.t), rs.t)))
  {
    hide ParseLine, ParseRedirs, WrapAll, LineTree;
  }

  lemma WrapStands(c: Cmd, t: Tree, rs: seq<Redirect>)
    requires Stands(c, t)
    ensures Argvs(WrapCmd(c, rs)) == Argvs(c) && Stands(WrapCmd(c, rs), WrapAll(t, rs))
  {
    hide Counted, WrapCmd, WrapAll;
    WrapTree(c, rs);
  }

  lemma ExecBegins(ts0: seq<Token>)
    ensures Starts(ts0, '(') ==> ParseExec(ts0) == ParseBlock(ts0)
    ensures !Starts(ts0, '(') ==>
      var rs := ParseRedirs(ts0);
      && (rs.Panic? ==> ParseExec(ts0).Panic?)
      && (rs.Parsed? ==>
            var its := ParseItems(rs.rest, 0);
            && (its.Panic? ==> ParseExec(ts0).Panic?)
            && (its.Parsed? ==>
                  && ParseExec(ts0) == Parsed(Simple(rs.t, its.t), its.rest)
                  && ExecTreeOf(ParseExec(ts0).t) == WrapAll(ExecTree(Args(its.t)), rs.t + ItemRedirs(its.t))))
  {
    hide ParseBlock, ParseRedirs, ParseItems, WrapAll, Args, ItemRedirs;
  }

  /** The first words of the argument vector are ws, the other entries null. */
  predicate Filled(a: seq<Arg>, ws: seq<Token>) {
    && |ws| <= |a|
    && (forall k :: 0 <= k < |ws| ==> a[k] == Word(ws[k].q, ws[k].eq) && ws[k].kind == 'a')
    && (forall k :: |ws| <= k < |a| ==> a[k] == Null)
  }

  lemma Regroup(a: seq<Redirect>, b: seq<Redirect>, c: seq<Redirect>)
    ensures a + b + c == a + (b + c)
  {
  }

  lemma FilledStart(a: seq<Arg>)
    requires forall k :: 0 <= k < |a| ==> a[k] == Null
    ensures Filled(a, [])
  {
  }

  lemma FilledStep(a: seq<Arg>, ws: seq<Token>, t: Token)
    requires Filled(a, ws) && |ws| < |a| && t.kind == 'a'
    ensures Filled(a[|ws| := Word(t.q, t.eq)], ws + [t])
  {
  }

  lemma {:induction false} FilledEnd(a: seq<Arg>, ws: seq<Token>)
    requires Filled(a, ws) && |ws| < |a|
    ensures Counted(a) == ws && a[|ws|] == Null
  {
    if ws != [] {
      assert ws == [ws[0]] + ws[1..];
      FilledEnd(a[1..], ws[1..]);
    }
  }

  lemma SimpleDone(argv: array<Arg>, ws: seq<Token>, rs: seq<Redirect>)
    requires Counted(argv[..]) == ws && |ws| < argv.Length
    ensures var c := WrapCmd(ExecCmd(argv), rs);
      Argvs(c) == {argv} && Stands(c, WrapAll(ExecTree(ws), rs))
  {
    hide Counted, WrapCmd, WrapAll;
    WrapStands(ExecCmd(argv), ExecTree(ws), rs);
  }

  /** The words ws and redirections irs have been read of ts1, and cur is left. */
  predicate ItemsFrom(ts1: seq<Token>, ws: seq<Token>, irs: seq<Redirect>, cur: seq<Token>) {
    match ParseItems(cur, |ws|)
    case Panic => ParseItems(ts1, 0).Panic?
    case Parsed(its, rest) =>
      && ParseItems(ts1, 0).Parsed? && ParseItems(ts1, 0).rest == rest
      && Args(ParseItems(ts1, 0).t) == ws + Args(its) && ItemRedirs(ParseItems(ts1, 0).t) == irs + ItemRedirs(its)
  }

  lemma ItemsFromStart(ts: seq<Token>)
    ensures ItemsFrom(ts, [], [], ts)
  {
    hide ParseItems, Args, ItemRedirs;
    if ParseItems(ts, 0).Parsed? {
      assert [] + Args(ParseItems(ts, 0).t) == Args(ParseItems(ts, 0).t);
      assert [] + ItemRedirs(ParseItems(ts, 0).t) == ItemRedirs(ParseItems(ts, 0).t);
    }
  }

  lemma ItemsFromStep(ts1: seq<Token>, ws: seq<Token>, irs: seq<Redirect>, ts: seq<Token>)
    requires ItemsFrom(ts1, ws, irs, ts) && ts != [] && !EndsExec(ts[0].kind)
    ensures ts[0].kind != 'a' || |ws| + 1 >= MAXARGS || ParseRedirs(ts[1..]).Panic? ==> ParseItems(ts1, 0).Panic?
    ensures ts[0].kind == 'a' && |ws| + 1 < MAXARGS && ParseRedirs(ts[1..]).Parsed? ==>
      ItemsFrom(ts1, ws + [ts[0]], irs + ParseRedirs(ts[1..]).t, ParseRedirs(ts[1..]).rest)
  {
    hide ParseRedirs, EndsExec;
    if ts[0].kind == 'a' && |ws| + 1 < MAXARGS && ParseRedirs(ts[1..]).Parsed? {
      var rs := ParseRedirs(ts[1..]);
      var b := ParseItems(rs.rest, |ws| + 1);
      assert |ws + [ts[0]]| == |ws| + 1;
      if b.Parsed? {
        ItemOn(Item(ts[0], rs.t), b.t);
        assert ws + ([ts[0]] + Args(b.t)) == ws + [ts[0]] + Args(b.t);
        assert irs + (rs.t + ItemRedirs(b.t)) == irs + rs.t + ItemRedirs(b.t);
      }
    }
  }

  lemma ItemOn(it: Item, its: seq<Item>)
    ensures Args([it] + its) == [it.word] + Args(its) && ItemRedirs([it] + its) == it.redirs + ItemRedirs(its)
  {
    assert ([it] + its)[1..] == its;
  }

  lemma ItemsFromEnd(ts1: seq<Token>, ws: seq<Token>, irs: seq<Redirect>, ts: seq<Token>)
    requires ItemsFrom(ts1, ws, irs, ts) && (ts == [] || EndsExec(ts[0].kind))
    ensures ParseItems(ts1, 0).Parsed? && ParseItems(ts1, 0).rest == ts
    ensures Args(ParseItems(ts1, 0).t) == ws && ItemRedirs(ParseItems(ts1, 0).t) == irs
  {
    hide EndsExec;
    assert ParseItems(ts, |ws|) == Parsed([], ts);
    assert ws + [] == ws && irs + [] == irs;
  }

  // ---------------------------------------------------------------- nulterminate and parsecmd

  predicate EndsWithin(ts: seq<Token>, n: int) {
    forall t :: t in ts ==> 0 <= t.eq < n
  }

  lemma EndsWithinAt(ts: seq<Token>, i: nat, n: int)
    requires EndsWithin(ts, n) && i < |ts|
    ensures 0 <= ts[i].eq < n
  {
    assert ts[i] in ts;
  }

  lemma EndsWithinParts(a: seq<Token>, b: seq<Token>, n: int)
    requires EndsWithin(a + b, n)
    ensures EndsWithin(a, n) && EndsWithin(b, n)
  {
    forall t | t in a ensures t in a + b {
    }
    forall t | t in b ensures t in a + b {
    }
  }

  lemma UnfoldTree(c: Cmd)
    requires Closed(c)
    ensures match c
      case ExecCmd(argv) => TreeOf(c) == ExecTree(Counted(argv[..])) && |Counted(argv[..])| < argv.Length
      case RedirCmd(d, file, mode, fd) => TreeOf(c) == RedirTree(TreeOf(d), file, mode, fd) && Closed(d)
      case PipeCmd(l, r) => TreeOf(c) == PipeTree(TreeOf(l), TreeOf(r)) && Closed(l) && Closed(r)
      case ListCmd(l, r) => TreeOf(c) == ListTree(TreeOf(l), TreeOf(r)) && Closed(l) && Closed(r)
      case BackCmd(d) => TreeOf(c) == BackTree(TreeOf(d)) && Closed(d)
  {
    hide Counted;
  }

  lemma {:induction false} CountedAt(a: seq<Arg>)
    ensures forall k :: 0 <= k < |Counted(a)| ==> a[k].Word? && Counted(a)[k].eq == a[k].eq
    ensures |Counted(a)| < |a| ==> a[|Counted(a)|] == Null
  {
    if a != [] && a[0].Word? {
      CountedAt(a[1..]);
    }
  }

  lemma StoredNone(b: string)
    ensures b == Stored(b, EndsOf([]))
  {
  }

  lemma StoredOn(b: string, ts: seq<Token>, t: Token)
    requires 0 <= t.eq < |b|
    ensures Stored(b, EndsOf(ts))[t.eq := NUL] == Stored(b, EndsOf(ts + [t]))
  {
    EndsConcat(ts, [t]);
  }

  lemma EndsConcat(a: seq<Token>, b: seq<Token>)
    ensures EndsOf(a + b) == EndsOf(a) + EndsOf(b)
  {
    forall e ensures e in EndsOf(a + b) <==> e in EndsOf(a) + EndsOf(b) {
    }
  }

  lemma StoredBoth(b: string, x: seq<Token>, y: seq<Token>)
    ensures Stored(Stored(b, EndsOf(x)), EndsOf(y)) == Stored(b, EndsOf(x + y))
  {
    hide Stored, EndsOf;
    EndsConcat(x, y);
    StoredTwice(b, EndsOf(x), EndsOf(y));
  }

  lemma LineAccepted(ts: seq<Token>)
    ensures Derivable(ts) <==> ParseLine(ts).Parsed? && ParseLine(ts).rest == []
    ensures Derivable(ts) ==> LineOk(ParseLine(ts).t) && LineToks(ParseLine(ts).t) == ts
  {
    hide ParseLine, Derivable, LineToks, LineOk;
    AcceptsExactly(ts);
    if ParseLine(ts).Parsed? {
      LineSound(ts);
      assert LineToks(ParseLine(ts).t) + [] == LineToks(ParseLine(ts).t);
    }
  }

  // The words of an accepted line before and after nulterminate.
  lemma LineRead(b: string, s: string, l: Line)
    requires Holds(b, s) && LineOk(l) && LineToks(l) == Tokens(s, 0)
    ensures var ws := TreeWords(LineTree(l));
      && multiset(ws) == multiset(Words(Tokens(s, 0))) && EndsWithin(ws, |b|)
      && TreeRoles(LineTree(l)) == TokenRoles(Tokens(s, 0), ';')
      && LineTree(l) == Meaning(Tokens(s, 0)) && Ops(LineTree(l)) == OpToks(Tokens(s, 0))
      && forall t :: t in ws ==> ReadsBack(Stored(b, EndsOf(ws)), s, t)
  {
    hide Tokens, Words, LineTree, LineToks, LineOk, TreeWords, EndsOf, Stored, CString;
    var ws := TreeWords(LineTree(l));
    LineWords(l);
    LineOrdered(l);
    LineMeans(l);
    LineOps(l);
    forall t | t in ws ensures WordAt(s, t.q, t.eq) {
      assert t in multiset(Words(Tokens(s, 0)));
      WordIn(Tokens(s, 0), t);
      EachToken(s, 0, t);
    }
    forall t | t in ws ensures ReadsBack(Stored(b, EndsOf(ws)), s, t) {
      WordReadsBack(b, s, ws, t);
    }
  }

  lemma NoSymbols()
    ensures AllSymbols("")
  {
  }

  lemma StandsFor(c: Cmd, t: Tree)
    requires Stands(c, t)
    ensures Closed(c) && TreeOf(c) == t
  {
    hide Closed, TreeOf;
  }
}
