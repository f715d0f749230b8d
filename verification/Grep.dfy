/** The matcher of user/grep.c against the language of the pattern.  A string here is what comes before the
    terminating NUL. */
module Grep {
  /** What a pattern stands for: a character, or '.', once or any number of times. */
  datatype Atom = One(c: char) | Many(c: char)
  datatype Pattern = Pattern(atoms: seq<Atom>, toEnd: bool)

  /** The reading of a pattern: '*' is a star only after a character, '$' an end mark only at the end and not
      before a '*'. */
  function Reading(re: string): Pattern {
    if re == "" then Pattern([], false)
    else if |re| > 1 && re[1] == '*' then
      var p := Reading(re[2..]);
      Pattern([Many(re[0])] + p.atoms, p.toEnd)
    else if re == "$" then Pattern([], true)
    else
      var p := Reading(re[1..]);
      Pattern([One(re[0])] + p.atoms, p.toEnd)
  }

  predicate Fits(c: char, x: char) { c == '.' || c == x }

  predicate InAtom(a: Atom, w: string) {
    match a
    case One(c) => |w| == 1 && Fits(c, w[0])
    case Many(c) => forall i :: 0 <= i < |w| ==> Fits(c, w[i])
  }

  /** w is a concatenation of words, one for each atom. */
  ghost predicate InLanguage(atoms: seq<Atom>, w: string) {
    if atoms == [] then w == ""
    else exists k :: 0 <= k <= |w| && InAtom(atoms[0], w[..k]) && InLanguage(atoms[1..], w[k..])
  }

  /** The first n characters of text are in the pattern's language, and all of it if it is so marked. */
  ghost predicate Takes(p: Pattern, text: string, n: nat) {
    n <= |text| && InLanguage(p.atoms, text[..n]) && (p.toEnd ==> n == |text|)
  }

  ghost predicate MatchesHere(p: Pattern, text: string) { exists n: nat :: Takes(p, text, n) }

  ghost predicate Matches(re: string, text: string) {
    if re != "" && re[0] == '^' then MatchesHere(Reading(re[1..]), text)
    else exists i :: 0 <= i <= |text| && MatchesHere(Reading(re), text[i..])
  }

  // ---------------------------------------------------------------------
  // How a match at the front of the text begins

  lemma EmptyTakes(text: string, n: nat)
    ensures Takes(Pattern([], false), text, n) <==> n == 0
    ensures Takes(Pattern([], true), text, n) <==> n == 0 && text == ""
  {
  }

  lemma OneTakes(c: char, p: Pattern, text: string, n: nat)
    ensures Takes(Pattern([One(c)] + p.atoms, p.toEnd), text, n) <==>
      n > 0 && text != "" && Fits(c, text[0]) && Takes(p, text[1..], n - 1)
  {
    var q := Pattern([One(c)] + p.atoms, p.toEnd);
    assert q.atoms[1..] == p.atoms;
    if n <= |text| {
      var w := text[..n];
      if n > 0 {
        assert w[1..] == text[1..][..n - 1] && w[..1] == [text[0]];
      }
      if InLanguage(q.atoms, w) {
        var k :| 0 <= k <= |w| && InAtom(q.atoms[0], w[..k]) && InLanguage(q.atoms[1..], w[k..]);
        assert k == 1;
      }
      if n > 0 && Fits(c, text[0]) && InLanguage(p.atoms, w[1..]) {
        assert InAtom(q.atoms[0], w[..1]);
      }
    }
  }

  lemma CutAt(text: string, k: nat, n: nat)
    requires k <= n <= |text|
    ensures text[..n][..k] == text[..k] && text[..n][k..] == text[k..][..n - k]
  {
  }

  lemma ManySplits(c: char, p: Pattern, text: string, n: nat) returns (k: nat)
    requires Takes(Pattern([Many(c)] + p.atoms, p.toEnd), text, n)
    ensures k <= n <= |text| && InAtom(Many(c), text[..k]) && Takes(p, text[k..], n - k)
  {
    var q, w := Pattern([Many(c)] + p.atoms, p.toEnd), text[..n];
    assert q.atoms[1..] == p.atoms;
    k :| 0 <= k <= |w| && InAtom(q.atoms[0], w[..k]) && InLanguage(q.atoms[1..], w[k..]);
    CutAt(text, k, n);
  }

  lemma ManyJoins(c: char, p: Pattern, text: string, n: nat, k: nat)
    requires k <= n && k <= |text| && InAtom(Many(c), text[..k]) && Takes(p, text[k..], n - k)
    ensures Takes(Pattern([Many(c)] + p.atoms, p.toEnd), text, n)
  {
    var q, w := Pattern([Many(c)] + p.atoms, p.toEnd), text[..n];
    assert q.atoms[1..] == p.atoms;
    CutAt(text, k, n);
    assert InAtom(q.atoms[0], w[..k]) && InLanguage(q.atoms[1..], w[k..]);
  }

  /** The star's share can be any k characters that fit. */
  lemma ManyTakes(c: char, p: Pattern, text: string, n: nat)
    ensures Takes(Pattern([Many(c)] + p.atoms, p.toEnd), text, n) <==>
      exists k :: 0 <= k <= n && k <= |text| && InAtom(Many(c), text[..k]) && Takes(p, text[k..], n - k)
  {
    if Takes(Pattern([Many(c)] + p.atoms, p.toEnd), text, n) {
      var k := ManySplits(c, p, text, n);
    }
    if k :| 0 <= k <= n && k <= |text| && InAtom(Many(c), text[..k]) && Takes(p, text[k..], n - k) {
      ManyJoins(c, p, text, n, k);
    }
  }

  lemma OneHere(c: char, p: Pattern, text: string)
    ensures MatchesHere(Pattern([One(c)] + p.atoms, p.toEnd), text) <==>
      text != "" && Fits(c, text[0]) && MatchesHere(p, text[1..])
  {
    var q := Pattern([One(c)] + p.atoms, p.toEnd);
    if n: nat :| Takes(q, text, n) { OneTakes(c, p, text, n); }
    if text != "" {
      if n: nat :| Takes(p, text[1..], n) { OneTakes(c, p, text, n + 1); }
    }
  }

  /** What matchstar looks for: some number of fitting characters after which the rest matches. */
  ghost predicate StarHere(c: char, p: Pattern, text: string) {
    exists k :: 0 <= k <= |text| && InAtom(Many(c), text[..k]) && MatchesHere(p, text[k..])
  }

  lemma ManyHere(c: char, p: Pattern, text: string)
    ensures MatchesHere(Pattern([Many(c)] + p.atoms, p.toEnd), text) <==> StarHere(c, p, text)
  {
    var q := Pattern([Many(c)] + p.atoms, p.toEnd);
    if n: nat :| Takes(q, text, n) {
      ManyTakes(c, p, text, n);
      var k :| 0 <= k <= n && k <= |text| && InAtom(Many(c), text[..k]) && Takes(p, text[k..], n - k);
      assert MatchesHere(p, text[k..]);
    }
    if k :| 0 <= k <= |text| && InAtom(Many(c), text[..k]) && MatchesHere(p, text[k..]) {
      var n: nat :| Takes(p, text[k..], n);
      assert Takes(p, text[k..], (n + k) - k);
      ManyTakes(c, p, text, n + k);
    }
  }

  // ---------------------------------------------------------------------
  // The matcher

  method MatchHere(re: string, text: string) returns (b: bool)
    ensures b <==> MatchesHere(Reading(re), text)
    decreases |re|, 0
  {
    if re == "" {
      EmptyTakes(text, 0);
      return true;
    }
    if |re| > 1 && re[1] == '*' {
      ManyHere(re[0], Reading(re[2..]), text);
      b := MatchStar(re[0], re[2..], text);
      return;
    }
    if re == "$" {
      forall n: nat ensures Takes(Reading(re), text, n) <==> n == 0 && text == "" { EmptyTakes(text, n); }
      assert text == "" ==> Takes(Reading(re), text, 0);
      return text == "";
    }
    OneHere(re[0], Reading(re[1..]), text);
    if text != "" && (re[0] == '.' || re[0] == text[0]) {
      b := MatchHere(re[1..], text[1..]);
      return;
    }
    return false;
  }

  lemma StarStops(c: char, text: string, i: nat, k: nat)
    requires i <= |text| && k <= |text| && (i < |text| ==> !Fits(c, text[i])) && InAtom(Many(c), text[..k])
    ensures k <= i
  {
  }

  method MatchStar(c: char, re: string, text: string) returns (b: bool)
    ensures b <==> StarHere(c, Reading(re), text)
    decreases |re|, 1
  {
    var i := 0;
    while true
      invariant 0 <= i <= |text| && InAtom(Many(c), text[..i])
      invariant forall k :: 0 <= k < i ==> !MatchesHere(Reading(re), text[k..])
      decreases |text| - i
    {
      b := MatchHere(re, text[i..]);
      if b { return; }
      if i == |text| || !(text[i] == c || c == '.') { break; }
      i := i + 1;
    }
    forall k | 0 <= k <= |text| && InAtom(Many(c), text[..k]) ensures k <= i { StarStops(c, text, i, k); }
  }

  method Match(re: string, text: string) returns (b: bool)
    ensures b <==> Matches(re, text)
  {
    if re != "" && re[0] == '^' {
      b := MatchHere(re[1..], text);
      return;
    }
    var i := 0;
    while true
      invariant 0 <= i <= |text|
      invariant forall k :: 0 <= k < i ==> !MatchesHere(Reading(re), text[k..])
      decreases |text| - i
    {
      b := MatchHere(re, text[i..]);
      if b || i == |text| { break; }
      i := i + 1;
    }
  }
}
