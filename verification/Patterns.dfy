/** grep's pattern language and matcher. */
module Patterns {

  /** One piece of a pattern. */
  datatype Element =
    | One(c: char)    // that character, or any if it is a dot
    | Many(c: char)   // any number of them
    | AtEnd           // a dollar at the end of the pattern

  predicate Fits(c: char, x: char) {
    c == '.' || c == x
  }

  /** A star binds the character before it, whatever that is; a dollar is special only at the end. */
  function Elements(re: string): (r: seq<Element>)
    ensures |r| <= |re|
  {
    if re == "" then []
    else if |re| > 1 && re[1] == '*' then [Many(re[0])] + Elements(re[2..])
    else if re == "$" then [AtEnd]
    else [One(re[0])] + Elements(re[1..])
  }

  // ---------- what a pattern means ----------

  /** Element `e` covers `text` from `i` up to `j`. */
  predicate Covers(e: Element, text: string, i: nat, j: nat)
    requires i <= j <= |text|
  {
    match e
    case One(c) => j == i + 1 && Fits(c, text[i])
    case Many(c) => forall k | i <= k < j :: Fits(c, text[k])
    case AtEnd => i == j == |text|
  }

  ghost predicate Piece(elements: seq<Element>, text: string, cuts: seq<nat>, k: nat)
    requires k < |elements| && k + 1 < |cuts|
  {
    cuts[k] <= cuts[k + 1] <= |text| && Covers(elements[k], text, cuts[k], cuts[k + 1])
  }

  /** The text, from its start, falls into consecutive stretches covered by the elements in order. */
  ghost predicate FallsInto(elements: seq<Element>, text: string, cuts: seq<nat>) {
    && |cuts| == |elements| + 1 && cuts[0] == 0
    && forall k: nat | k < |elements| :: Piece(elements, text, cuts, k)
  }

  ghost predicate MatchesHere(elements: seq<Element>, text: string) {
    exists cuts :: FallsInto(elements, text, cuts)
  }

  /** A caret anchors the pattern; otherwise it may match anywhere, the very end included. */
  ghost predicate Matches(re: string, text: string) {
    if re != "" && re[0] == '^' then MatchesHere(Elements(re[1..]), text)
    else exists i: nat :: i <= |text| && MatchesHere(Elements(re), text[i..])
  }

  // ---------- taking a match apart ----------

  function Shifted(cuts: seq<nat>, n: nat): (r: seq<nat>)
    ensures |r| == |cuts| && forall k | 0 <= k < |cuts| :: r[k] == cuts[k] + n
  {
    seq(|cuts|, k requires 0 <= k < |cuts| => cuts[k] + n)
  }

  lemma CoversShift(e: Element, text: string, n: nat, i: nat, j: nat)
    requires n <= |text| && i <= j <= |text| - n
    ensures Covers(e, text[n..], i, j) <==> Covers(e, text, n + i, n + j)
  {
    if e.Many? {
      assert forall k | i <= k < j :: text[n..][k] == text[n + k];
      assert forall k | n + i <= k < n + j :: text[k] == text[n..][k - n];
    }
  }

  /** The first element covers `n` characters and the others what follows. */
  lemma MatchJoin(e: Element, rest: seq<Element>, text: string, n: nat)
    requires n <= |text| && Covers(e, text, 0, n) && MatchesHere(rest, text[n..])
    ensures MatchesHere([e] + rest, text)
  {
    var cuts :| FallsInto(rest, text[n..], cuts);
    var all := [0] + Shifted(cuts, n);
    forall k: nat | k < |[e] + rest| ensures Piece([e] + rest, text, all, k) {
      if k > 0 {
        assert Piece(rest, text[n..], cuts, k - 1);
        CoversShift(rest[k - 1], text, n, cuts[k - 1], cuts[k]);
      }
    }
    assert FallsInto([e] + rest, text, all);
  }

  lemma MatchSplit(e: Element, rest: seq<Element>, text: string) returns (n: nat)
    requires MatchesHere([e] + rest, text)
    ensures n <= |text| && Covers(e, text, 0, n) && MatchesHere(rest, text[n..])
  {
    var all :| FallsInto([e] + rest, text, all);
    n := all[1];
    assert Piece([e] + rest, text, all, 0);
    CutsGrow([e] + rest, text, all);
    var cuts := seq(|rest| + 1, k requires 0 <= k < |rest| + 1 => all[k + 1] - n);
    forall k: nat | k < |rest| ensures Piece(rest, text[n..], cuts, k) {
      assert Piece([e] + rest, text, all, k + 1);
      CoversShift(rest[k], text, n, cuts[k], cuts[k + 1]);
    }
    assert FallsInto(rest, text[n..], cuts);
  }

  lemma CutsGrow(elements: seq<Element>, text: string, cuts: seq<nat>)
    requires FallsInto(elements, text, cuts) && elements != []
    ensures forall k: nat | 1 <= k < |cuts| :: cuts[1] <= cuts[k] <= |text|
  {
    var k := 1;
    assert Piece(elements, text, cuts, 0);
    while k < |elements|
      invariant 1 <= k <= |elements|
      invariant forall j: nat | 1 <= j <= k :: cuts[1] <= cuts[j] <= |text|
    {
      assert Piece(elements, text, cuts, k);
      k := k + 1;
    }
  }

  lemma NothingMatches(text: string)
    ensures MatchesHere([], text)
  {
    assert FallsInto([], text, [0]);
  }

  /** A single character more. */
  lemma OneMatches(c: char, rest: seq<Element>, text: string)
    ensures MatchesHere([One(c)] + rest, text) <==> text != "" && Fits(c, text[0]) && MatchesHere(rest, text[1..])
  {
    if MatchesHere([One(c)] + rest, text) {
      var n := MatchSplit(One(c), rest, text);
    }
    if text != "" && Fits(c, text[0]) && MatchesHere(rest, text[1..]) {
      MatchJoin(One(c), rest, text, 1);
    }
  }

  lemma EndMatches(text: string)
    ensures MatchesHere([AtEnd], text) <==> text == ""
  {
    var none: seq<Element> := [];
    assert [AtEnd] + none == [AtEnd];
    if MatchesHere([AtEnd] + none, text) {
      var n := MatchSplit(AtEnd, none, text);
    }
    if text == "" {
      NothingMatches(text[0..]);
      MatchJoin(AtEnd, none, text, 0);
    }
  }

  /** A star takes nothing, or one character and stays. */
  lemma ManyMatches(c: char, rest: seq<Element>, text: string)
    ensures MatchesHere([Many(c)] + rest, text)
       <==> MatchesHere(rest, text)
            || (text != "" && Fits(c, text[0]) && MatchesHere([Many(c)] + rest, text[1..]))
  {
    if MatchesHere([Many(c)] + rest, text) {
      var n := MatchSplit(Many(c), rest, text);
      if n == 0 {
        assert text[0..] == text;
      } else {
        CoversShift(Many(c), text, 1, 0, n - 1);
        assert text[1..][n - 1..] == text[n..];
        MatchJoin(Many(c), rest, text[1..], n - 1);
      }
    }
    if MatchesHere(rest, text) {
      assert text[0..] == text;
      MatchJoin(Many(c), rest, text, 0);
    }
    if text != "" && Fits(c, text[0]) && MatchesHere([Many(c)] + rest, text[1..]) {
      var n := MatchSplit(Many(c), rest, text[1..]);
      CoversShift(Many(c), text, 1, 0, n);
      assert text[1..][n..] == text[n + 1..];
      MatchJoin(Many(c), rest, text, n + 1);
    }
  }

  // ---------- the matcher ----------

  /** Does `re` match at the start of `text`? */
  method MatchHere(re: string, text: string) returns (r: bool)
    ensures r <==> MatchesHere(Elements(re), text)
    decreases |re|, 0
  {
    if re == "" {
      NothingMatches(text);
      return true;
    }
    if |re| > 1 && re[1] == '*' {
      r := MatchStar(re[0], re[2..], text);
      return;
    }
    if re == "$" {
      EndMatches(text);
      return text == "";
    }
    OneMatches(re[0], Elements(re[1..]), text);
    if text != "" && (re[0] == '.' || re[0] == text[0]) {
      r := MatchHere(re[1..], text[1..]);
      return;
    }
    r := false;
  }

  /** Does `c*` followed by `re` match at the start of `text`? */
  method MatchStar(c: char, re: string, text: string) returns (r: bool)
    ensures r <==> MatchesHere([Many(c)] + Elements(re), text)
    decreases |re|, 1
  {
    hide Elements;
    var i := 0;
    assert text[0..] == text;
    while true
      invariant 0 <= i <= |text|
      invariant MatchesHere([Many(c)] + Elements(re), text) <==> MatchesHere([Many(c)] + Elements(re), text[i..])
      decreases |text| - i
    {
      ManyMatches(c, Elements(re), text[i..]);
      var here := MatchHere(re, text[i..]);
      if here {
        return true;
      }
      if i == |text| || !(text[i] == c || c == '.') {
        return false;
      }
      assert text[i..][1..] == text[i + 1..];
      i := i + 1;
    }
  }

  /** Does `re` match anywhere in `text`? */
  method Match(re: string, text: string) returns (r: bool)
    ensures r <==> Matches(re, text)
  {
    hide Elements, MatchesHere;
    if re != "" && re[0] == '^' {
      r := MatchHere(re[1..], text);
      return;
    }
    var i := 0;
    while true
      invariant 0 <= i <= |text|
      invariant forall j: nat | j < i :: !MatchesHere(Elements(re), text[j..])
      decreases |text| - i
    {
      var here := MatchHere(re, text[i..]);
      if here {
        return true;
      }
      if i == |text| {
        return false;
      }
      i := i + 1;
    }
  }
}
