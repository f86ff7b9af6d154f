/**
 The regular-expression matcher of grep: match, matchhere and matchstar against the language
 that the pattern denotes.  Patterns and texts are C strings, written here without their final
 zero.
 */
module RegexMatcher {
  // ----- what a pattern means --------------------------------------------------

  datatype Item = One(c: char) | Star(c: char)

  /** A pattern without a leading '^': its items, and whether it ends in '$'. */
  datatype Pattern = Pattern(items: seq<Item>, toEnd: bool)

  /** A character followed by '*' is repeated, whatever it is; a '$' is special only as the last
      character of the pattern; all else stands for itself. */
  function Parse(re: string): (p: Pattern) {
    if re == "" then Pattern([], false)
    else if |re| > 1 && re[1] == '*' then
      var p := Parse(re[2..]);
      Pattern([Star(re[0])] + p.items, p.toEnd)
    else if re == "$" then Pattern([], true)
    else
      var p := Parse(re[1..]);
      Pattern([One(re[0])] + p.items, p.toEnd)
  }

  predicate Fits(c: char, x: char) { c == '.' || c == x }

  predicate AllFit(c: char, w: string) { forall i | 0 <= i < |w| :: Fits(c, w[i]) }

  /** w is in the language of the items. */
  ghost predicate InLanguage(items: seq<Item>, w: string)
    decreases |items|
  {
    if items == [] then w == ""
    else match items[0]
      case One(c) => w != "" && Fits(c, w[0]) && InLanguage(items[1..], w[1..])
      case Star(c) => exists k: nat | k <= |w| :: AllFit(c, w[..k]) && InLanguage(items[1..], w[k..])
  }

  /** A prefix of the text, all of it if the pattern says so, is in the language. */
  ghost predicate MatchesHere(p: Pattern, text: string) {
    exists n: nat | n <= |text| :: InLanguage(p.items, text[..n]) && (p.toEnd ==> n == |text|)
  }

  /** Some suffix of the text matches; after a leading '^', the whole of it. */
  ghost predicate Matches(re: string, text: string) {
    if re != "" && re[0] == '^' then MatchesHere(Parse(re[1..]), text)
    else exists k: nat | k <= |text| :: MatchesHere(Parse(re), text[k..])
  }

  // ----- one item at a time -------------------------------------------------------

  lemma EmptyMatches(toEnd: bool, text: string)
    ensures MatchesHere(Pattern([], toEnd), text) <==> !toEnd || text == ""
  {
    assert text[..0] == "";
    if !toEnd || text == "" { assert InLanguage([], text[..0]); }
  }

  lemma OneMatches(c: char, p: Pattern, text: string)
    ensures MatchesHere(Pattern([One(c)] + p.items, p.toEnd), text) <==>
            text != "" && Fits(c, text[0]) && MatchesHere(p, text[1..])
  {
    var q := Pattern([One(c)] + p.items, p.toEnd);
    assert q.items[1..] == p.items;
    if MatchesHere(q, text) {
      var n: nat :| n <= |text| && InLanguage(q.items, text[..n]) && (p.toEnd ==> n == |text|);
      assert text[..n][1..] == text[1..][..n - 1];
    }
    if text != "" && Fits(c, text[0]) && MatchesHere(p, text[1..]) {
      var n: nat :| n <= |text[1..]| && InLanguage(p.items, text[1..][..n]) && (p.toEnd ==> n == |text[1..]|);
      assert text[..n + 1][1..] == text[1..][..n];
    }
  }

  /** k characters go to the star, and what follows matches the rest. */
  ghost predicate StarSplits(c: char, p: Pattern, text: string, k: nat) {
    k <= |text| && AllFit(c, text[..k]) && MatchesHere(p, text[k..])
  }

  ghost predicate StarThen(c: char, p: Pattern, text: string) {
    exists k: nat :: StarSplits(c, p, text, k)
  }

  lemma StarMatches(c: char, p: Pattern, text: string)
    ensures MatchesHere(Pattern([Star(c)] + p.items, p.toEnd), text) <==> StarThen(c, p, text)
  {
    var q := Pattern([Star(c)] + p.items, p.toEnd);
    assert q.items[1..] == p.items;
    if MatchesHere(q, text) {
      var n: nat :| n <= |text| && InLanguage(q.items, text[..n]) && (p.toEnd ==> n == |text|);
      var k: nat :| k <= n && AllFit(c, text[..n][..k]) && InLanguage(p.items, text[..n][k..]);
      assert text[..n][..k] == text[..k] && text[..n][k..] == text[k..][..n - k];
      assert StarSplits(c, p, text, k);
    }
    if k: nat :| StarSplits(c, p, text, k) {
      var n: nat :| n <= |text[k..]| && InLanguage(p.items, text[k..][..n]) && (p.toEnd ==> n == |text[k..]|);
      assert text[..k + n][..k] == text[..k] && text[..k + n][k..] == text[k..][..n];
      assert InLanguage(q.items, text[..k + n]);
    }
  }

  // ----- the matcher -----------------------------------------------------------------

  method Match(re: string, text: string) returns (r: bool)
    ensures r <==> Matches(re, text)
  {
    if re != "" && re[0] == '^' {
      r := MatchHere(re[1..], text);
      return;
    }
    var t: nat := 0;
    while true
      invariant t <= |text| && forall k: nat | k < t :: !MatchesHere(Parse(re), text[k..])
      decreases |text| - t
    {
      r := MatchHere(re, text[t..]);
      if r { return; }
      if t == |text| { break; }
      t := t + 1;
    }
    r := false;
  }

  method MatchHere(re: string, text: string) returns (r: bool)
    ensures r <==> MatchesHere(Parse(re), text)
    decreases |re|, 0
  {
    if re == "" {
      EmptyMatches(false, text);
      return true;
    }
    if |re| > 1 && re[1] == '*' {
      var p := Parse(re[2..]);
      assert Parse(re) == Pattern([Star(re[0])] + p.items, p.toEnd);
      StarMatches(re[0], p, text);
      r := MatchStar(re[0], re[2..], text);
      return;
    }
    if re[0] == '$' && |re| == 1 {
      EmptyMatches(true, text);
      return text == "";
    }
    OneMatches(re[0], Parse(re[1..]), text);
    if text != "" && (re[0] == '.' || re[0] == text[0]) {
      r := MatchHere(re[1..], text[1..]);
      return;
    }
    r := false;
  }

  method MatchStar(c: char, re: string, text: string) returns (r: bool)
    ensures r <==> StarThen(c, Parse(re), text)
    decreases |re|, 1
  {
    var t: nat := 0;
    while true
      invariant t <= |text| && AllFit(c, text[..t]) && forall k: nat | k < t :: !StarSplits(c, Parse(re), text, k)
      decreases |text| - t
    {
      r := MatchHere(re, text[t..]);
      if r {
        assert StarSplits(c, Parse(re), text, t);
        return;
      }
      if !(t < |text| && (text[t] == c || c == '.')) { break; }
      t := t + 1;
    }
    forall k: nat ensures !StarSplits(c, Parse(re), text, k) {
      if t < k <= |text| { assert text[..k][t] == text[t]; }
    }
    r := false;
  }
}
