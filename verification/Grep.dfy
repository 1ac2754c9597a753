/** The regular-expression matcher of grep (xv6/user/grep.c) against the language that
    its patterns denote. Strings are as in C without their final NUL. */
module Grep {
  // ---------------------------------------------------------------------------
  // Patterns and what they denote
  // ---------------------------------------------------------------------------

  /** One character, or any number of one character; '.' stands for every character. */
  datatype Item = One(c: char) | Many(c: char)

  /** A pattern after its leading '^': items, and whether a final '$' follows. A star
      binds the character before it whatever that is, '$' and '*' included. */
  datatype Pattern = Pattern(items: seq<Item>, anchored: bool)

  function Parse(re: string): (p: Pattern) {
    if re == "" then Pattern([], false)
    else if |re| >= 2 && re[1] == '*' then
      var q := Parse(re[2..]);
      Pattern([Many(re[0])] + q.items, q.anchored)
    else if re == "$" then Pattern([], true)
    else
      var q := Parse(re[1..]);
      Pattern([One(re[0])] + q.items, q.anchored)
  }

  predicate Fits(c: char, x: char) {
    c == '.' || c == x
  }

  /** The strings of an item. */
  ghost predicate ItemHas(i: Item, s: string) {
    && (i.One? ==> |s| == 1)
    && forall k :: 0 <= k < |s| ==> Fits(i.c, s[k])
  }

  function Concat(pieces: seq<string>): (s: string) {
    if pieces == [] then "" else pieces[0] + Concat(pieces[1..])
  }

  /** The text begins with pieces for the items one after the other, and ends there if
      the pattern is anchored. */
  ghost predicate Begins(p: Pattern, text: string, pieces: seq<string>, rest: string) {
    && |pieces| == |p.items|
    && (forall k :: 0 <= k < |pieces| ==> ItemHas(p.items[k], pieces[k]))
    && text == Concat(pieces) + rest
    && (p.anchored ==> rest == "")
  }

  ghost predicate MatchesHere(re: string, text: string) {
    exists pieces: seq<string>, rest: string :: Begins(Parse(re), text, pieces, rest)
  }

  /** Some position of the text, or only its start after '^', begins a match. */
  ghost predicate Matches(re: string, text: string) {
    if re != "" && re[0] == '^' then MatchesHere(re[1..], text)
    else exists p: nat :: p <= |text| && MatchesHere(re, text[p..])
  }

  // ---------------------------------------------------------------------------
  // The language by its first item
  // ---------------------------------------------------------------------------

  lemma EmptyPattern(text: string)
    ensures MatchesHere("", text)
  {
    assert Begins(Parse(""), text, [], text);
  }

  lemma EndPattern(text: string)
    ensures MatchesHere("$", text) <==> text == ""
  {
    if text == "" {
      assert Begins(Parse("$"), text, [], "");
    }
    if MatchesHere("$", text) {
      var pieces, rest :| Begins(Parse("$"), text, pieces, rest);
      assert pieces == [];
    }
  }

  /** The first `k` characters of the text are like `c`. */
  ghost predicate Run(c: char, text: string, k: nat) {
    k <= |text| && forall j :: 0 <= j < k ==> Fits(c, text[j])
  }

  ghost predicate ManyThen(c: char, re: string, text: string) {
    exists k: nat :: Run(c, text, k) && MatchesHere(re, text[k..])
  }

  lemma PieceOff(p: Pattern, i: Item, text: string, pieces: seq<string>, rest: string)
    requires Begins(Pattern([i] + p.items, p.anchored), text, pieces, rest)
    ensures |pieces| > 0 && |pieces[0]| <= |text| && ItemHas(i, pieces[0]) && text[..|pieces[0]|] == pieces[0]
    ensures Begins(p, text[|pieces[0]|..], pieces[1..], rest)
  {
    var q := Pattern([i] + p.items, p.anchored);
    assert q.items[0] == i && q.items[1..] == p.items;
    assert text == pieces[0] + (Concat(pieces[1..]) + rest);
    forall k | 0 <= k < |pieces[1..]|
      ensures ItemHas(p.items[k], pieces[1..][k])
    {
      assert ItemHas(q.items[k + 1], pieces[k + 1]);
    }
  }

  lemma PieceOn(p: Pattern, i: Item, text: string, piece: string, pieces: seq<string>, rest: string)
    requires |piece| <= |text| && text[..|piece|] == piece && ItemHas(i, piece)
             && Begins(p, text[|piece|..], pieces, rest)
    ensures Begins(Pattern([i] + p.items, p.anchored), text, [piece] + pieces, rest)
  {
    var ps := [piece] + pieces;
    assert ps[1..] == pieces;
    assert text == piece + text[|piece|..];
    assert Concat(ps) + rest == piece + (Concat(pieces) + rest);
  }

  lemma OnePattern(re: string, text: string)
    requires re != "" && !(|re| >= 2 && re[1] == '*') && re != "$"
    ensures MatchesHere(re, text) <==> text != "" && Fits(re[0], text[0]) && MatchesHere(re[1..], text[1..])
  {
    var p, i := Parse(re[1..]), One(re[0]);
    if MatchesHere(re, text) {
      var pieces, rest :| Begins(Parse(re), text, pieces, rest);
      PieceOff(p, i, text, pieces, rest);
      assert text[0] == pieces[0][0];
    }
    if text != "" && Fits(re[0], text[0]) && MatchesHere(re[1..], text[1..]) {
      var pieces, rest :| Begins(p, text[1..], pieces, rest);
      PieceOn(p, i, text, text[..1], pieces, rest);
      assert Begins(Parse(re), text, [text[..1]] + pieces, rest);
    }
  }

  lemma ManyPattern(re: string, text: string)
    requires |re| >= 2 && re[1] == '*'
    ensures MatchesHere(re, text) <==> ManyThen(re[0], re[2..], text)
  {
    var p, i := Parse(re[2..]), Many(re[0]);
    if MatchesHere(re, text) {
      var pieces, rest :| Begins(Parse(re), text, pieces, rest);
      PieceOff(p, i, text, pieces, rest);
      assert Run(re[0], text, |pieces[0]|) by {
        forall j | 0 <= j < |pieces[0]|
          ensures Fits(re[0], text[j])
        {
          assert text[j] == text[..|pieces[0]|][j];
        }
      }
    }
    if ManyThen(re[0], re[2..], text) {
      var k: nat :| Run(re[0], text, k) && MatchesHere(re[2..], text[k..]);
      var pieces, rest :| Begins(p, text[k..], pieces, rest);
      PieceOn(p, i, text, text[..k], pieces, rest);
      assert Begins(Parse(re), text, [text[..k]] + pieces, rest);
    }
  }

  // ---------------------------------------------------------------------------
  // The matcher
  // ---------------------------------------------------------------------------

  method Matchhere(re: string, text: string) returns (r: bool)
    ensures r <==> MatchesHere(re, text)
    decreases |re|, 1
  {
    if re == "" {
      EmptyPattern(text);
      return true;
    }
    if |re| >= 2 && re[1] == '*' {
      ManyPattern(re, text);
      r := Matchstar(re[0], re[2..], text);
      return;
    }
    if re[0] == '$' && |re| == 1 {
      EndPattern(text);
      return text == "";
    }
    OnePattern(re, text);
    if text != "" && (re[0] == '.' || re[0] == text[0]) {
      r := Matchhere(re[1..], text[1..]);
      return;
    }
    return false;
  }

  /** The loop tries every length of the run, shortest first. */
  method Matchstar(c: char, re: string, text: string) returns (r: bool)
    ensures r <==> ManyThen(c, re, text)
    decreases |re|, 2
  {
    var k := 0;
    while true
      invariant Run(c, text, k)
      invariant forall j: nat :: j < k ==> !MatchesHere(re, text[j..])
      decreases |text| - k
    {
      var here := Matchhere(re, text[k..]);
      if here {
        return true;
      }
      if k == |text| || !(text[k] == c || c == '.') {
        break;
      }
      k := k + 1;
    }
    forall j: nat | Run(c, text, j)
      ensures !MatchesHere(re, text[j..])
    {
      assert j <= k;
    }
    return false;
  }

  method Match(re: string, text: string) returns (r: bool)
    ensures r <==> Matches(re, text)
  {
    if re != "" && re[0] == '^' {
      r := Matchhere(re[1..], text);
      return;
    }
    var p := 0;
    while true
      invariant p <= |text|
      invariant forall j: nat :: j < p ==> !MatchesHere(re, text[j..])
      decreases |text| - p
    {
      var here := Matchhere(re, text[p..]);
      if here {
        return true;
      }
      if p == |text| {
        break;
      }
      p := p + 1;
    }
    return false;
  }
}
