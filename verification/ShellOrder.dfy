/** In which order the words of a line stand in its command tree (sh.c): arguments from left to
    right, and redirections from left to right with their files, modes and descriptors. */
module ShellOrder {
  import opened ShellTokens
  import opened ShellGrammar
  import opened ShellTree

  datatype Target = Target(file: Token, mode: int, fd: int)

  /** The arguments and the redirections of a tree or of a list of tokens, in order. */
  datatype Roles = Roles(args: seq<Token>, targets: seq<Target>)

  function Join(a: Roles, b: Roles): Roles {
    Roles(a.args + b.args, a.targets + b.targets)
  }

  function Nothing(): Roles {
    Roles([], [])
  }

  /** argv entries and redirections from left to right; those around a command come after it. */
  function TreeRoles(t: Tree): Roles {
    match t
    case ExecTree(args) => Roles(args, [])
    case RedirTree(c, file, mode, fd) => Join(TreeRoles(c), Roles([], [Target(file, mode, fd)]))
    case PipeTree(l, r) => Join(TreeRoles(l), TreeRoles(r))
    case ListTree(l, r) => Join(TreeRoles(l), TreeRoles(r))
    case BackTree(c) => TreeRoles(c)
  }

  /** What a token is behind one of kind `before`: behind a redirection operator its file, else an argument. */
  function RoleOf(t: Token, before: char): Roles {
    if t.kind != 'a' then Nothing()
    else if before == '<' then Roles([], [Target(t, 0, 0)])                          // O_RDONLY
    else if before == '>' || before == '+' then Roles([], [Target(t, 0x201, 1)])     // O_WRONLY|O_CREATE
    else Roles([t], [])
  }

  function TokenRoles(ts: seq<Token>, before: char): Roles {
    if ts == [] then Nothing() else Join(RoleOf(ts[0], before), TokenRoles(ts[1..], ts[0].kind))
  }

  function LastKind(ts: seq<Token>, before: char): char {
    if ts == [] then before else ts[|ts| - 1].kind
  }

  lemma JoinThree(a: Roles, b: Roles, c: Roles)
    ensures Join(Join(a, b), c) == Join(a, Join(b, c))
    ensures Join(a, Nothing()) == a == Join(Nothing(), a)
  {
  }

  lemma {:induction false} RolesConcat(a: seq<Token>, b: seq<Token>, before: char)
    ensures TokenRoles(a + b, before) == Join(TokenRoles(a, before), TokenRoles(b, LastKind(a, before)))
  {
    hide Join, RoleOf;
    if a == [] {
      assert a + b == b;
      JoinThree(TokenRoles(b, before), Nothing(), Nothing());
    } else {
      assert (a + b)[1..] == a[1..] + b;
      RolesConcat(a[1..], b, a[0].kind);
      JoinThree(RoleOf(a[0], before), TokenRoles(a[1..], a[0].kind), TokenRoles(b, LastKind(a, before)));
    }
  }

  /** The tokens mean what the tree says, wherever they stand but behind a redirection operator. */
  ghost predicate Ordered(ts: seq<Token>, r: Roles) {
    forall before :: !RedirOp(before) ==> TokenRoles(ts, before) == r && !RedirOp(LastKind(ts, before))
  }

  lemma OrderedConcat(a: seq<Token>, b: seq<Token>, r: Roles, q: Roles)
    requires Ordered(a, r) && Ordered(b, q)
    ensures Ordered(a + b, Join(r, q))
  {
    forall before | !RedirOp(before) ensures TokenRoles(a + b, before) == Join(r, q) && !RedirOp(LastKind(a + b, before)) {
      RolesConcat(a, b, before);
      LastConcat(a, b, before);
    }
  }

  lemma LastConcat(a: seq<Token>, b: seq<Token>, before: char)
    ensures LastKind(a + b, before) == LastKind(b, LastKind(a, before))
  {
  }

  lemma OrderedOne(t: Token)
    requires !RedirOp(t.kind)
    ensures Ordered([t], if t.kind == 'a' then Roles([t], []) else Nothing())
  {
    forall before | !RedirOp(before) ensures TokenRoles([t], before) == if t.kind == 'a' then Roles([t], []) else Nothing() {
      assert [t][1..] == [];
    }
  }

  function TargetOf(r: Redirect): Target {
    Target(r.file, Mode(r.op.kind), Fd(r.op.kind))
  }

  function Targets(rs: seq<Redirect>): seq<Target> {
    if rs == [] then [] else [TargetOf(rs[0])] + Targets(rs[1..])
  }

  lemma {:induction false} RedirsOrdered(rs: seq<Redirect>)
    requires RedirsOk(rs)
    ensures Ordered(RedirToks(rs), Roles([], Targets(rs)))
  {
    if rs == [] {
    } else {
      RedirsOrdered(rs[1..]);
      var r := rs[0];
      PairOrdered(r);
      OrderedConcat([r.op, r.file], RedirToks(rs[1..]), Roles([], [TargetOf(r)]), Roles([], Targets(rs[1..])));
    }
  }

  lemma PairOrdered(r: Redirect)
    requires RedirOp(r.op.kind) && r.file.kind == 'a'
    ensures Ordered([r.op, r.file], Roles([], [TargetOf(r)]))
  {
    var ts := [r.op, r.file];
    assert ts[1..] == [r.file] && [r.file][1..] == [];
    forall before ensures TokenRoles(ts, before) == Roles([], [TargetOf(r)]) {
      assert TokenRoles([r.file], r.op.kind) == Roles([], [TargetOf(r)]);
    }
  }

  lemma {:induction false} TargetsConcat(a: seq<Redirect>, b: seq<Redirect>)
    ensures Targets(a + b) == Targets(a) + Targets(b)
  {
    hide Targets;
    if a == [] {
      assert a + b == b;
      NoTargets(b);
    } else {
      TargetsConcat(a[1..], b);
      MoreTargets(a[0], a[1..]);
      MoreTargets(a[0], a[1..] + b);
      assert a == [a[0]] + a[1..] && a + b == [a[0]] + (a[1..] + b);
    }
  }

  lemma NoTargets(b: seq<Redirect>)
    ensures Targets([]) + Targets(b) == Targets(b)
  {
  }

  lemma MoreTargets(r: Redirect, rs: seq<Redirect>)
    ensures Targets([r] + rs) == [TargetOf(r)] + Targets(rs)
  {
    assert ([r] + rs)[1..] == rs;
  }

  lemma {:induction false} WrapRoles(t: Tree, rs: seq<Redirect>)
    ensures TreeRoles(WrapAll(t, rs)) == Join(TreeRoles(t), Roles([], Targets(rs)))
    decreases |rs|
  {
    if rs == [] {
    } else {
      var n := |rs| - 1;
      WrapRoles(t, rs[..n]);
      assert rs == rs[..n] + [rs[n]];
      TargetsConcat(rs[..n], [rs[n]]);
      assert Targets([rs[n]]) == [TargetOf(rs[n])];
    }
  }

  lemma {:induction false} BackRoles(t: Tree, n: nat)
    ensures TreeRoles(BackAll(t, n)) == TreeRoles(t)
  {
    if n > 0 {
      BackRoles(t, n - 1);
    }
  }

  lemma {:induction false} BacksOrdered(bs: seq<Token>)
    requires BacksOk(bs)
    ensures Ordered(bs, Nothing())
  {
    if bs != [] {
      assert bs == [bs[0]] + bs[1..];
      OrderedOne(bs[0]);
      BacksOrdered(bs[1..]);
      OrderedConcat([bs[0]], bs[1..], Nothing(), Nothing());
    }
  }

  lemma {:induction false} ItemsOrdered(its: seq<Item>)
    requires ItemsOk(its)
    ensures Ordered(ItemToks(its), Roles(Args(its), Targets(ItemRedirs(its))))
  {
    hide Ordered, RedirsOk, TokenRoles;
    if its == [] {
      NoneOrdered();
    } else {
      var it := its[0];
      ItemsOrdered(its[1..]);
      RedirsOrdered(it.redirs);
      OrderedOne(it.word);
      TargetsConcat(it.redirs, ItemRedirs(its[1..]));
      OrderedConcat(RedirToks(it.redirs), ItemToks(its[1..]), Roles([], Targets(it.redirs)),
                    Roles(Args(its[1..]), Targets(ItemRedirs(its[1..]))));
      var rest := Roles(Args(its[1..]), Targets(it.redirs) + Targets(ItemRedirs(its[1..])));
      assert Join(Roles([], Targets(it.redirs)), Roles(Args(its[1..]), Targets(ItemRedirs(its[1..])))) == rest;
      OrderedConcat([it.word], RedirToks(it.redirs) + ItemToks(its[1..]), Roles([it.word], []), rest);
      assert Join(Roles([it.word], []), rest) == Roles(Args(its), Targets(ItemRedirs(its)));
    }
  }

  lemma NoneOrdered()
    ensures Ordered([], Nothing()) && Targets([]) == []
  {
  }

  /** The tree of a line has its arguments and its redirections in the order of the line. */
  lemma {:induction false} LineOrdered(l: Line)
    requires LineOk(l)
    ensures Ordered(LineToks(l), TreeRoles(LineTree(l)))
    decreases l
  {
    hide Ordered, Join, PipeToks, PipeTreeOf, PipeOk, BacksOk, TreeRoles;
    PipeOrdered(l.pipe);
    BacksOrdered(l.backs);
    BackRoles(PipeTreeOf(l.pipe), |l.backs|);
    var r := TreeRoles(PipeTreeOf(l.pipe));
    JoinThree(r, Nothing(), Nothing());
    match l
    case End(p, bs) =>
      OrderedConcat(PipeToks(p), bs, r, Nothing());
    case Then(p, bs, semi, rest) =>
      var q := TreeRoles(LineTree(rest));
      LineOrdered(rest);
      OrderedOne(semi);
      JoinThree(q, Nothing(), Nothing());
      OrderedConcat([semi], LineToks(rest), Nothing(), q);
      OrderedConcat(bs, [semi] + LineToks(rest), Nothing(), q);
      OrderedConcat(PipeToks(p), bs + ([semi] + LineToks(rest)), r, q);
      TwoRoles(BackAll(PipeTreeOf(p), |bs|), LineTree(rest));
  }

  lemma TwoRoles(a: Tree, b: Tree)
    ensures TreeRoles(ListTree(a, b)) == Join(TreeRoles(a), TreeRoles(b)) == TreeRoles(PipeTree(a, b))
  {
  }

  lemma {:induction false} PipeOrdered(p: Pipe)
    requires PipeOk(p)
    ensures Ordered(PipeToks(p), TreeRoles(PipeTreeOf(p)))
    decreases p
  {
    hide Ordered, Join, ExecToks, ExecTreeOf, ExecOk, TreeRoles;
    ExecOrdered(p.exec);
    match p
    case One(e) =>
    case Bar(e, bar, rest) =>
      var q := TreeRoles(PipeTreeOf(rest));
      PipeOrdered(rest);
      OrderedOne(bar);
      JoinThree(q, Nothing(), Nothing());
      OrderedConcat([bar], PipeToks(rest), Nothing(), q);
      OrderedConcat(ExecToks(e), [bar] + PipeToks(rest), TreeRoles(ExecTreeOf(e)), q);
      TwoRoles(ExecTreeOf(e), PipeTreeOf(rest));
  }

  lemma {:induction false} ExecOrdered(e: Exec)
    requires ExecOk(e)
    ensures Ordered(ExecToks(e), TreeRoles(ExecTreeOf(e)))
    decreases e
  {
    hide Ordered, LineToks, LineTree, LineOk, RedirToks, RedirsOk, ItemToks, ItemsOk, TreeRoles, Targets, WrapAll, Args;
    RedirsOrdered(e.redirs);
    match e
    case Block(open, l, close, rs) =>
      var q, t := TreeRoles(LineTree(l)), Roles([], Targets(rs));
      LineOrdered(l);
      WrapRoles(LineTree(l), rs);
      OrderedOne(open);
      OrderedOne(close);
      JoinThree(t, Nothing(), Nothing());
      JoinThree(Join(q, t), Nothing(), Nothing());
      OrderedConcat([close], RedirToks(rs), Nothing(), t);
      OrderedConcat(LineToks(l), [close] + RedirToks(rs), q, t);
      OrderedConcat([open], LineToks(l) + ([close] + RedirToks(rs)), Nothing(), Join(q, t));
    case Simple(rs, its) =>
      ItemsOrdered(its);
      WrapRoles(ExecTree(Args(its)), rs + ItemRedirs(its));
      TargetsConcat(rs, ItemRedirs(its));
      OrderedConcat(RedirToks(rs), ItemToks(its), Roles([], Targets(rs)), Roles(Args(its), Targets(ItemRedirs(its))));
      ArgsFirst(Args(its), Targets(rs), Targets(ItemRedirs(its)));
  }

  lemma ArgsFirst(args: seq<Token>, a: seq<Target>, b: seq<Target>)
    ensures Join(TreeRoles(ExecTree(args)), Roles([], a + b)) == Join(Roles([], a), Roles(args, b))
  {
  }
}
