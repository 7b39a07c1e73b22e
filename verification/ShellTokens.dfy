/** The tokens of a command line (sh.c: gettoken): what a list of tokens must be to be the tokens
    of a text, and the one list that is. */
module ShellTokens {

  const NUL: char := '\0'

  predicate White(c: char) {
    c == ' ' || c == '\t' || c == '\r' || c == '\n' || c == (11 as char)
  }

  predicate Symbol(c: char) {
    c == '<' || c == '|' || c == '>' || c == '&' || c == ';' || c == '(' || c == ')'
  }

  predicate WordChar(c: char) {
    !White(c) && !Symbol(c)
  }

  /** A token at s[q..eq]: its kind is 'a' for a word, '+' for >>, else the symbol itself. */
  datatype Token = Token(kind: char, q: int, eq: int)

  /** s[q..eq] is a longest word. */
  predicate WordAt(s: string, q: int, eq: int) {
    && 0 <= q < eq <= |s|
    && (forall i :: q <= i < eq ==> WordChar(s[i]))
    && (eq < |s| ==> !WordChar(s[eq]))
  }

  predicate TokenAt(s: string, t: Token) {
    && 0 <= t.q < t.eq <= |s|
    && if WordChar(s[t.q]) then t.kind == 'a' && WordAt(s, t.q, t.eq)
       else if s[t.q] == '>' && t.q + 1 < |s| && s[t.q + 1] == '>' then t.kind == '+' && t.eq == t.q + 2
       else Symbol(s[t.q]) && t.kind == s[t.q] && t.eq == t.q + 1
  }

  predicate AllWhite(s: string, p: int, q: int) {
    0 <= p <= q <= |s| && forall i :: p <= i < q ==> White(s[i])
  }

  /** The tokens stand one after the other from p on, with only white space between and around them. */
  predicate Lexed(s: string, p: int, ts: seq<Token>)
    decreases ts
  {
    if ts == [] then AllWhite(s, p, |s|)
    else AllWhite(s, p, ts[0].q) && TokenAt(s, ts[0]) && Lexed(s, ts[0].eq, ts[1..])
  }

  // ---------------------------------------------------------------- the lexer as a function

  function SkipWhite(s: string, p: int): (q: int)
    ensures p <= q && (p <= |s| ==> q <= |s|)
    ensures 0 <= p <= |s| ==> AllWhite(s, p, q) && (q < |s| ==> !White(s[q]))
    decreases |s| - p
  {
    if 0 <= p < |s| && White(s[p]) then SkipWhite(s, p + 1) else p
  }

  function WordEnd(s: string, p: int): (q: int)
    ensures p <= q && (p <= |s| ==> q <= |s|)
    ensures 0 <= p <= |s| ==> (forall i :: p <= i < q ==> WordChar(s[i])) && (q < |s| ==> !WordChar(s[q]))
    decreases |s| - p
  {
    if 0 <= p < |s| && WordChar(s[p]) then WordEnd(s, p + 1) else p
  }

  /** The token that starts at q. */
  function Scan(s: string, q: int): (t: Token)
    requires 0 <= q < |s| && !White(s[q])
    ensures t.q == q && TokenAt(s, t)
  {
    if Symbol(s[q]) then
      if s[q] == '>' && q + 1 < |s| && s[q + 1] == '>' then Token('+', q, q + 2) else Token(s[q], q, q + 1)
    else Token('a', q, WordEnd(s, q))
  }

  function Tokens(s: string, p: int): (ts: seq<Token>)
    decreases |s| - p
  {
    var q := SkipWhite(s, p);
    if 0 <= p && q < |s| then [Scan(s, q)] + Tokens(s, Scan(s, q).eq) else []
  }

  // ---------------------------------------------------------------- they agree

  // Where the first token must start, and where it must end.
  lemma WhiteUntil(s: string, p: int, q: int)
    requires AllWhite(s, p, q) && (q < |s| ==> !White(s[q]))
    ensures SkipWhite(s, p) == q
    decreases q - p
  {
    if p < q {
      assert White(s[p]);
      WhiteUntil(s, p + 1, q);
    }
  }

  lemma WordUntil(s: string, p: int, q: int)
    requires 0 <= p <= q <= |s| && (forall i :: p <= i < q ==> WordChar(s[i])) && (q < |s| ==> !WordChar(s[q]))
    ensures WordEnd(s, p) == q
    decreases q - p
  {
    if p < q {
      assert WordChar(s[p]);
      WordUntil(s, p + 1, q);
    }
  }

  lemma OneToken(s: string, t: Token)
    requires TokenAt(s, t)
    ensures !White(s[t.q]) && Scan(s, t.q) == t
  {
    if WordChar(s[t.q]) {
      WordUntil(s, t.q, t.eq);
    }
  }

  lemma {:induction false} TokensLexed(s: string, p: int)
    requires 0 <= p <= |s|
    ensures Lexed(s, p, Tokens(s, p))
    decreases |s| - p
  {
    var q := SkipWhite(s, p);
    if q < |s| {
      TokensLexed(s, Scan(s, q).eq);
      assert Tokens(s, p)[1..] == Tokens(s, Scan(s, q).eq);
    }
  }

  /** There is exactly one way to cut a text into tokens. */
  lemma {:induction false} LexedExactly(s: string, p: int, ts: seq<Token>)
    requires 0 <= p <= |s|
    ensures Lexed(s, p, ts) <==> ts == Tokens(s, p)
    decreases ts
  {
    TokensLexed(s, p);
    if Lexed(s, p, ts) {
      if ts == [] {
        WhiteUntil(s, p, |s|);
      } else {
        OneToken(s, ts[0]);
        WhiteUntil(s, p, ts[0].q);
        LexedExactly(s, ts[0].eq, ts[1..]);
        assert ts == [ts[0]] + ts[1..];
      }
    }
  }

  lemma {:induction false} EachToken(s: string, p: int, t: Token)
    requires 0 <= p <= |s| && t in Tokens(s, p)
    ensures TokenAt(s, t)
    decreases |s| - p
  {
    var q := SkipWhite(s, p);
    if t != Scan(s, q) {
      EachToken(s, Scan(s, q).eq, t);
    }
  }

  /** Skipping white space does not change what is left. */
  lemma TokensFrom(s: string, p: int)
    requires 0 <= p <= |s|
    ensures Tokens(s, SkipWhite(s, p)) == Tokens(s, p)
  {
    WhiteUntil(s, SkipWhite(s, p), SkipWhite(s, p));
  }
}
