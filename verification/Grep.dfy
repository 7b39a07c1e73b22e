/** The matcher of grep (grep.c): patterns as lists of items, the words they stand for, and that
    match, matchhere and matchstar decide them. */
module Grep {

  const NUL: char := '\0'

  /** One character, or any number of it; '.' stands for every character. */
  datatype Item = One(c: char) | Star(c: char)

  predicate Fits(c: char, x: char) {
    c == '.' || c == x
  }

  /** The items of a pattern behind its '^'. A character before '*' is starred, whatever it is. */
  function Items(re: string): seq<Item>
    decreases |re|
  {
    if re == "" then []
    else if |re| >= 2 && re[1] == '*' then [Star(re[0])] + Items(re[2..])
    else if re == "$" then []
    else [One(re[0])] + Items(re[1..])
  }

  /** A '$' ends the pattern, and is not starred away. */
  predicate EndAnchored(re: string)
    decreases |re|
  {
    if re == "" then false
    else if |re| >= 2 && re[1] == '*' then EndAnchored(re[2..])
    else if re == "$" then true
    else EndAnchored(re[1..])
  }

  /** All of w are c, or c is the dot. */
  predicate Repeats(c: char, w: string) {
    c == '.' || forall i :: 0 <= i < |w| ==> w[i] == c
  }

  /** The words that a list of items stands for. */
  ghost predicate Denotes(its: seq<Item>, w: string)
    decreases |its|
  {
    if its == [] then w == ""
    else
      match its[0]
      case One(c) => w != "" && (c == '.' || w[0] == c) && Denotes(its[1..], w[1..])
      case Star(c) => exists k :: 0 <= k <= |w| && Repeats(c, w[..k]) && Denotes(its[1..], w[k..])
  }

  /** Some prefix of the text, the whole of it before a final '$', is a word of the pattern. */
  ghost predicate Accepts(re: string, text: string) {
    exists n :: 0 <= n <= |text| && Denotes(Items(re), text[..n]) && (EndAnchored(re) ==> n == |text|)
  }

  /** What grep promises: a prefix after '^', otherwise any substring, that the pattern stands for. */
  ghost predicate Matches(re: string, text: string) {
    if re != "" && re[0] == '^' then Accepts(re[1..], text)
    else exists i, j :: 0 <= i <= j <= |text| && Substring(re, text, i, j)
  }

  ghost predicate Substring(re: string, text: string, i: int, j: int) {
    0 <= i <= j <= |text| && Denotes(Items(re), text[i..j]) && (EndAnchored(re) ==> j == |text|)
  }

  // ---------------------------------------------------------------- one item at a time

  lemma AcceptsEmpty(text: string)
    ensures Accepts("", text)
  {
    assert text[..0] == "";
    assert Denotes(Items(""), text[..0]);
  }

  lemma AcceptsEnd(text: string)
    ensures Accepts("$", text) <==> text == ""
  {
    assert Items("$") == [];
    assert text[..|text|] == text;
    if text == "" {
      assert Denotes(Items("$"), text[..0]);
    }
  }

  lemma ItemsOne(re: string)
    requires re != "" && !(|re| >= 2 && re[1] == '*') && re != "$"
    ensures Items(re) != [] && Items(re)[0] == One(re[0]) && Items(re)[1..] == Items(re[1..])
    ensures EndAnchored(re) == EndAnchored(re[1..])
  {
  }

  lemma AcceptsOne(re: string, text: string)
    requires re != "" && !(|re| >= 2 && re[1] == '*') && re != "$"
    ensures Accepts(re, text) <==> text != "" && Fits(re[0], text[0]) && Accepts(re[1..], text[1..])
  {
    hide Items, EndAnchored;
    ItemsOne(re);
    if Accepts(re, text) {
      var n :| 0 <= n <= |text| && Denotes(Items(re), text[..n]) && (EndAnchored(re) ==> n == |text|);
      assert text[..n][1..] == text[1..][..n - 1];
    }
    if text != "" && Fits(re[0], text[0]) && Accepts(re[1..], text[1..]) {
      var n :| 0 <= n <= |text[1..]| && Denotes(Items(re[1..]), text[1..][..n]) && (EndAnchored(re[1..]) ==> n == |text[1..]|);
      assert text[..n + 1][1..] == text[1..][..n];
      assert Denotes(Items(re), text[..n + 1]);
    }
  }

  ghost predicate StarAccepts(c: char, re: string, text: string) {
    exists k :: 0 <= k <= |text| && StarAt(c, re, text, k)
  }

  /** c takes the first k characters, the pattern goes on behind them. */
  ghost predicate StarAt(c: char, re: string, text: string, k: int) {
    0 <= k <= |text| && Repeats(c, text[..k]) && Accepts(re, text[k..])
  }

  lemma ItemsStar(re: string)
    requires |re| >= 2 && re[1] == '*'
    ensures Items(re) != [] && Items(re)[0] == Star(re[0]) && Items(re)[1..] == Items(re[2..])
    ensures EndAnchored(re) == EndAnchored(re[2..])
  {
  }

  lemma AcceptsStar(re: string, text: string)
    requires |re| >= 2 && re[1] == '*'
    ensures Accepts(re, text) <==> StarAccepts(re[0], re[2..], text)
  {
    hide Items, EndAnchored, Repeats;
    ItemsStar(re);
    if Accepts(re, text) {
      var n :| 0 <= n <= |text| && Denotes(Items(re), text[..n]) && (EndAnchored(re) ==> n == |text|);
      var k :| 0 <= k <= |text[..n]| && Repeats(re[0], text[..n][..k]) && Denotes(Items(re)[1..], text[..n][k..]);
      assert text[..n][..k] == text[..k] && text[..n][k..] == text[k..][..n - k];
      assert Accepts(re[2..], text[k..]);
      assert StarAt(re[0], re[2..], text, k);
    }
    if StarAccepts(re[0], re[2..], text) {
      var k :| 0 <= k <= |text| && StarAt(re[0], re[2..], text, k);
      var m :| 0 <= m <= |text[k..]| && Denotes(Items(re[2..]), text[k..][..m]) && (EndAnchored(re[2..]) ==> m == |text[k..]|);
      assert text[..k + m][..k] == text[..k] && text[..k + m][k..] == text[k..][..m];
      assert Denotes(Items(re), text[..k + m]);
    }
  }

  lemma RepeatsOn(c: char, w: string)
    requires w != ""
    ensures Repeats(c, w) <==> Fits(c, w[0]) && Repeats(c, w[1..])
  {
    assert w == [w[0]] + w[1..];
  }

  /** Taking one character more, or none. */
  lemma StarSteps(c: char, re: string, text: string)
    ensures StarAccepts(c, re, text) <==>
      Accepts(re, text) || (text != "" && Fits(c, text[0]) && StarAccepts(c, re, text[1..]))
  {
    hide Accepts;
    assert text[..0] == "" && text[0..] == text;
    if Accepts(re, text) {
      assert StarAt(c, re, text, 0);
    }
    if StarAccepts(c, re, text) && !Accepts(re, text) {
      var k :| 0 <= k <= |text| && StarAt(c, re, text, k);
      assert text[..k][0] == text[0];
      assert text[1..][k - 1..] == text[k..];
      assert text[1..][..k - 1] == text[..k][1..];
      RepeatsOn(c, text[..k]);
      assert StarAt(c, re, text[1..], k - 1);
    }
    if text != "" && Fits(c, text[0]) && StarAccepts(c, re, text[1..]) {
      var k :| 0 <= k <= |text[1..]| && StarAt(c, re, text[1..], k);
      assert text[1..][k..] == text[k + 1..];
      assert text[..k + 1][1..] == text[1..][..k];
      RepeatsOn(c, text[..k + 1]);
      assert StarAt(c, re, text, k + 1);
    }
  }

  // ---------------------------------------------------------------- the code

  /** A C string: the character at its end is NUL, and there is none before. */
  function Char(s: string, i: int): char {
    if 0 <= i < |s| then s[i] else NUL
  }

  predicate CString(s: string) {
    forall i :: 0 <= i < |s| ==> s[i] != NUL
  }

  method Match(re: string, text: string) returns (r: bool)
    requires CString(re) && CString(text)
    ensures r <==> Matches(re, text)
  {
    hide Accepts, Substring, EndAnchored, Items, Denotes;
    if Char(re, 0) == '^' {
      assert text[0..] == text;
      r := Matchhere(re, 1, text, 0);
      return;
    }
    var t := 0;
    assert re[0..] == re;
    while true
      invariant 0 <= t <= |text| && forall i :: 0 <= i < t ==> !Accepts(re, text[i..])
      decreases |text| - t
    {
      var here := Matchhere(re, 0, text, t);
      if here {
        SomeSubstring(re, text, t);
        return true;
      }
      if Char(text, t) == NUL {
        break;
      }
      t := t + 1;
    }
    NoSubstring(re, text);
    r := false;
  }

  lemma SomeSubstring(re: string, text: string, i: int)
    requires 0 <= i <= |text| && Accepts(re, text[i..])
    ensures exists a, b :: 0 <= a <= b <= |text| && Substring(re, text, a, b)
  {
    hide Denotes, Items, EndAnchored;
    var n :| 0 <= n <= |text[i..]| && Denotes(Items(re), text[i..][..n]) && (EndAnchored(re) ==> n == |text[i..]|);
    assert text[i..][..n] == text[i..i + n];
    assert Substring(re, text, i, i + n);
  }

  lemma NoSubstring(re: string, text: string)
    requires forall i :: 0 <= i <= |text| ==> !Accepts(re, text[i..])
    ensures !exists a, b :: 0 <= a <= b <= |text| && Substring(re, text, a, b)
  {
    hide Denotes, Items, EndAnchored;
    forall a, b | 0 <= a <= b <= |text| ensures !Substring(re, text, a, b) {
      assert text[a..][..b - a] == text[a..b];
      assert !Accepts(re, text[a..]);
    }
  }

  method Matchhere(re: string, i: nat, text: string, j: nat) returns (r: bool)
    requires CString(re) && CString(text) && i <= |re| && j <= |text|
    ensures r <==> Accepts(re[i..], text[j..])
    decreases |re| - i, 0
  {
    hide Accepts, StarAccepts, EndAnchored, Items, Denotes;
    if Char(re, i) == NUL {
      assert re[i..] == "";
      AcceptsEmpty(text[j..]);
      return true;
    }
    if Char(re, i + 1) == '*' {
      assert re[i..][2..] == re[i + 2..];
      AcceptsStar(re[i..], text[j..]);
      r := Matchstar(re[i], re, i + 2, text, j);
      return;
    }
    if re[i] == '$' && Char(re, i + 1) == NUL {
      assert re[i..] == "$";
      AcceptsEnd(text[j..]);
      return Char(text, j) == NUL;
    }
    AcceptsOne(re[i..], text[j..]);
    if Char(text, j) != NUL && (re[i] == '.' || re[i] == text[j]) {
      assert re[i..][1..] == re[i + 1..] && text[j..][1..] == text[j + 1..];
      r := Matchhere(re, i + 1, text, j + 1);
      return;
    }
    r := false;
  }

  method Matchstar(c: char, re: string, i: nat, text: string, j: nat) returns (r: bool)
    requires CString(re) && CString(text) && i <= |re| && j <= |text|
    ensures r <==> StarAccepts(c, re[i..], text[j..])
    decreases |re| - i, 1
  {
    hide Accepts, StarAccepts;
    var t := j;
    while true
      invariant j <= t <= |text| && (StarAccepts(c, re[i..], text[j..]) <==> StarAccepts(c, re[i..], text[t..]))
      decreases |text| - t
    {
      StarSteps(c, re[i..], text[t..]);
      var here := Matchhere(re, i, text, t);
      if here {
        return true;
      }
      if Char(text, t) == NUL {
        break;
      }
      assert text[t..][1..] == text[t + 1..];
      t := t + 1;
      if !(text[t - 1] == c || c == '.') {
        break;
      }
    }
    r := false;
  }
}
