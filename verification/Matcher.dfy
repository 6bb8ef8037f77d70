/**
 The regular-expression matcher of user/grep.c against the language its
 patterns denote. Strings are the characters before the terminating NUL.
 */
module Matcher {
  // ---------------------------------------------------------------------
  // What a pattern means

  datatype Atom = Any | Literal(c: char)

  datatype Item = One(a: Atom) | Star(a: Atom)

  datatype Pattern = Pattern(items: seq<Item>, atEnd: bool)

  predicate Fits(a: Atom, c: char) { a == Any || a == Literal(c) }

  /** Word w is in the language of the items. */
  ghost predicate Denotes(items: seq<Item>, w: string)
    decreases |items|
  {
    if |items| == 0 then w == []
    else
      match items[0]
      case One(a) => |w| > 0 && Fits(a, w[0]) && Denotes(items[1..], w[1..])
      case Star(a) => exists k :: 0 <= k <= |w| && AllFit(a, w[..k]) && Denotes(items[1..], w[k..])
  }

  ghost predicate AllFit(a: Atom, w: string) { forall i :: 0 <= i < |w| ==> Fits(a, w[i]) }

  function AtomOf(c: char): Atom { if c == '.' then Any else Literal(c) }

  /** A character followed by `*` is a repetition, a final `$` is the end of the text, `.` is any character. */
  function Parse(re: string): Pattern
    decreases |re|
  {
    if |re| == 0 then Pattern([], false)
    else if |re| >= 2 && re[1] == '*' then
      var p := Parse(re[2..]);
      Pattern([Star(AtomOf(re[0]))] + p.items, p.atEnd)
    else if re == "$" then Pattern([], true)
    else
      var p := Parse(re[1..]);
      Pattern([One(AtomOf(re[0]))] + p.items, p.atEnd)
  }

  /** text[..j] is a match of p that starts where the text does. */
  ghost predicate PrefixAt(p: Pattern, text: string, j: nat) {
    j <= |text| && Denotes(p.items, text[..j]) && (p.atEnd ==> j == |text|)
  }

  ghost predicate HasPrefix(p: Pattern, text: string) { exists j: nat :: PrefixAt(p, text, j) }

  /** Some part text[i..] begins with a match; i is 0 if the pattern starts with `^`. */
  ghost predicate Matches(re: string, text: string) {
    if |re| > 0 && re[0] == '^' then HasPrefix(Parse(re[1..]), text)
    else exists i :: 0 <= i <= |text| && HasPrefix(Parse(re), text[i..])
  }

  // ---------------------------------------------------------------------
  // The matcher

  function MatchHere(re: string, text: string): bool
    decreases |re|, |text|, 0
  {
    if |re| == 0 then true
    else if |re| >= 2 && re[1] == '*' then MatchStar(re[0], re[2..], text)
    else if re == "$" then |text| == 0
    else if |text| > 0 && (re[0] == '.' || re[0] == text[0]) then MatchHere(re[1..], text[1..])
    else false
  }

  function MatchStar(c: char, re: string, text: string): bool
    decreases |re|, |text|, 1
  {
    MatchHere(re, text) || (|text| > 0 && (text[0] == c || c == '.') && MatchStar(c, re, text[1..]))
  }

  lemma {:induction false} MatchHereCorrect(re: string, text: string)
    ensures MatchHere(re, text) <==> HasPrefix(Parse(re), text)
    decreases |re|, |text|, 0
  {
    var p := Parse(re);
    if |re| == 0 {
      assert PrefixAt(p, text, 0);
    } else if |re| >= 2 && re[1] == '*' {
      MatchStarCorrect(re[0], re[2..], text);
      assert p.items[1..] == Parse(re[2..]).items;
    } else if re == "$" {
      assert text[..|text|] == text;
      if |text| == 0 { assert PrefixAt(p, text, 0); }
    } else {
      var rest := Parse(re[1..]);
      assert p.items[1..] == rest.items;
      if |text| > 0 {
        MatchHereCorrect(re[1..], text[1..]);
        OneStep(p, rest, AtomOf(re[0]), text);
      }
    }
  }

  lemma OneStep(p: Pattern, rest: Pattern, a: Atom, text: string)
    requires |p.items| > 0 && p.items[0] == One(a) && p.items[1..] == rest.items && p.atEnd == rest.atEnd && |text| > 0
    ensures HasPrefix(p, text) <==> Fits(a, text[0]) && HasPrefix(rest, text[1..])
  {
    if j: nat :| PrefixAt(p, text, j) {
      assert text[..j][1..] == text[1..][..j - 1];
      assert PrefixAt(rest, text[1..], j - 1);
    }
    if Fits(a, text[0]) && HasPrefix(rest, text[1..]) {
      var j: nat :| PrefixAt(rest, text[1..], j);
      assert text[..j + 1][1..] == text[1..][..j];
      assert PrefixAt(p, text, j + 1);
    }
  }

  lemma {:induction false} MatchStarCorrect(c: char, re: string, text: string)
    ensures MatchStar(c, re, text) <==> HasPrefix(Pattern([Star(AtomOf(c))] + Parse(re).items, Parse(re).atEnd), text)
    decreases |re|, |text|, 1
  {
    var rest := Parse(re);
    var p := Pattern([Star(AtomOf(c))] + rest.items, rest.atEnd);
    assert p.items[1..] == rest.items;
    MatchHereCorrect(re, text);
    if |text| > 0 { MatchStarCorrect(c, re, text[1..]); }
    StarStep(p, rest, AtomOf(c), text);
  }

  /** A repetition matches nothing, or one character and then the repetition again. */
  lemma StarStep(p: Pattern, rest: Pattern, a: Atom, text: string)
    requires |p.items| > 0 && p.items[0] == Star(a) && p.items[1..] == rest.items && p.atEnd == rest.atEnd
    ensures HasPrefix(p, text) <==> HasPrefix(rest, text) || (|text| > 0 && Fits(a, text[0]) && HasPrefix(p, text[1..]))
  {
    if j: nat :| PrefixAt(p, text, j) {
      StarForward(p, rest, a, text, j);
    }
    if j: nat :| PrefixAt(rest, text, j) {
      assert text[..j][0..] == text[..j];
      assert AllFit(a, text[..j][..0]);
      assert PrefixAt(p, text, j);
    }
    if |text| > 0 && Fits(a, text[0]) && HasPrefix(p, text[1..]) {
      var j: nat :| PrefixAt(p, text[1..], j);
      StarBack(p, rest, a, text, j);
    }
  }

  lemma StarForward(p: Pattern, rest: Pattern, a: Atom, text: string, j: nat)
    requires |p.items| > 0 && p.items[0] == Star(a) && p.items[1..] == rest.items && p.atEnd == rest.atEnd
    requires PrefixAt(p, text, j)
    ensures HasPrefix(rest, text) || (|text| > 0 && Fits(a, text[0]) && HasPrefix(p, text[1..]))
  {
    var w := text[..j];
    var k :| 0 <= k <= |w| && AllFit(a, w[..k]) && Denotes(rest.items, w[k..]);
    if k == 0 {
      assert w[0..] == w;
      assert PrefixAt(rest, text, j);
    } else {
      var v := text[1..][..j - 1];
      assert v == w[1..];
      assert v[k - 1..] == w[k..];
      var head := v[..k - 1];
      forall i | 0 <= i < |head| ensures Fits(a, head[i]) { assert head[i] == w[..k][i + 1]; }
      assert Denotes(p.items, v);
      assert PrefixAt(p, text[1..], j - 1);
      assert w[..k][0] == text[0];
    }
  }

  lemma StarBack(p: Pattern, rest: Pattern, a: Atom, text: string, j: nat)
    requires |p.items| > 0 && p.items[0] == Star(a) && p.items[1..] == rest.items && p.atEnd == rest.atEnd
    requires |text| > 0 && Fits(a, text[0]) && PrefixAt(p, text[1..], j)
    ensures HasPrefix(p, text)
  {
    var v := text[1..][..j];
    var k :| 0 <= k <= |v| && AllFit(a, v[..k]) && Denotes(rest.items, v[k..]);
    var w := text[..j + 1];
    assert v == w[1..];
    assert w[k + 1..] == v[k..];
    var head := w[..k + 1];
    forall i | 0 <= i < |head| ensures Fits(a, head[i]) { assert i > 0 ==> head[i] == v[..k][i - 1]; }
    assert Denotes(p.items, w);
    assert PrefixAt(p, text, j + 1);
  }

  // ---------------------------------------------------------------------
  // The loops

  /** matchstar: tries the rest of the pattern at each position the repetition can reach. */
  method StarLoop(c: char, re: string, text: string) returns (found: bool)
    ensures found <==> HasPrefix(Pattern([Star(AtomOf(c))] + Parse(re).items, Parse(re).atEnd), text)
  {
    MatchStarCorrect(c, re, text);
    var t := text;
    while true
      invariant MatchStar(c, re, t) == MatchStar(c, re, text)
      decreases |t|
    {
      if MatchHere(re, t) { return true; }
      if !(|t| > 0 && (t[0] == c || c == '.')) { return false; }
      t := t[1..];
    }
  }

  /** match: sound and complete for the language of the pattern. */
  method Match(re: string, text: string) returns (found: bool)
    ensures found <==> Matches(re, text)
  {
    if |re| > 0 && re[0] == '^' {
      MatchHereCorrect(re[1..], text);
      return MatchHere(re[1..], text);
    }
    var at := 0;
    while true
      invariant at <= |text|
      invariant forall i :: 0 <= i < at ==> !HasPrefix(Parse(re), text[i..])
      decreases |text| - at
    {
      MatchHereCorrect(re, text[at..]);
      if MatchHere(re, text[at..]) { return true; }
      if at == |text| { return false; }
      at := at + 1;
    }
  }

  /** Matching is finding a part of the text in the pattern's language, with both anchors. */
  lemma MatchesSubstring(re: string, text: string)
    requires |re| == 0 || re[0] != '^'
    ensures Matches(re, text) <==>
      exists i, j :: 0 <= i <= j <= |text| && Denotes(Parse(re).items, text[i..j]) && (Parse(re).atEnd ==> j == |text|)
  {
    var p := Parse(re);
    if Matches(re, text) {
      var i :| 0 <= i <= |text| && HasPrefix(p, text[i..]);
      var j: nat :| PrefixAt(p, text[i..], j);
      assert text[i..][..j] == text[i..i + j];
    }
    if i, j :| 0 <= i <= j <= |text| && Denotes(p.items, text[i..j]) && (p.atEnd ==> j == |text|) {
      assert text[i..][..j - i] == text[i..j];
      assert PrefixAt(p, text[i..], j - i);
    }
  }
}
