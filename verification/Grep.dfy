/** user/grep.c's matcher: what a pattern means, and that match() decides it. */
module Grep {
  /** A character to match ('.' for any), once or any number of times. */
  datatype Item = Item(c: char, star: bool)

  /** A pattern after an optional '^': items, and whether a final '$' follows them. */
  datatype Pattern = Pattern(items: seq<Item>, toEnd: bool)

  predicate IsString(s: seq<char>) { '\0' !in s }

  /** The character at a position, or the NUL after the last. */
  function At(s: seq<char>, i: nat): char { if i < |s| then s[i] else '\0' }

  /** The pattern that re means from position i on. */
  function Parse(re: seq<char>, i: nat): Pattern
    requires i <= |re|
    decreases |re| - i
  {
    if i == |re| then Pattern([], false)
    else if At(re, i + 1) == '*' && i + 1 < |re| then
      var p := Parse(re, i + 2);
      p.(items := [Item(re[i], true)] + p.items)
    else if re[i] == '$' && i + 1 == |re| then Pattern([], true)
    else
      var p := Parse(re, i + 1);
      p.(items := [Item(re[i], false)] + p.items)
  }

  predicate CharMatches(c: char, t: char) { c == '.' || c == t }

  // ----- what a pattern means -----

  /** text[a..b] is what an item matches. */
  ghost predicate Span(item: Item, text: seq<char>, a: nat, b: nat) {
    && a <= b <= |text| && (!item.star ==> b == a + 1)
    && forall k :: a <= k < b ==> CharMatches(item.c, text[k])
  }

  /** cuts are positions from which each item matches up to the next. */
  ghost predicate Cuts(p: Pattern, text: seq<char>, start: nat, cuts: seq<nat>) {
    && |cuts| == |p.items| + 1 && cuts[0] == start <= |text|
    && (forall k :: 0 <= k < |p.items| ==> Span(p.items[k], text, cuts[k], cuts[k + 1]))
    && (p.toEnd ==> cuts[|p.items|] == |text|)
  }

  /** The pattern matches text from position start on. */
  ghost predicate Matches(p: Pattern, text: seq<char>, start: nat) {
    exists cuts :: Cuts(p, text, start, cuts)
  }

  lemma CutsBounded(p: Pattern, text: seq<char>, start: nat, cuts: seq<nat>, k: nat)
    requires Cuts(p, text, start, cuts) && k <= |p.items|
    ensures cuts[k] <= |text|
  {
    if k > 0 { assert Span(p.items[k - 1], text, cuts[k - 1], cuts[k - 1 + 1]); }
  }

  /** A pattern matches if its first item matches up to some position and the rest from there on. */
  lemma MatchesFirst(item: Item, rest: Pattern, text: seq<char>, start: nat)
    ensures var p := rest.(items := [item] + rest.items);
            Matches(p, text, start) <==> exists b :: Span(item, text, start, b) && Matches(rest, text, b)
  {
    var p := rest.(items := [item] + rest.items);
    if Matches(p, text, start) {
      var cuts :| Cuts(p, text, start, cuts);
      assert Span(p.items[0], text, cuts[0], cuts[0 + 1]);
      forall k | 0 <= k < |rest.items|
        ensures Span(rest.items[k], text, cuts[1..][k], cuts[1..][k + 1])
      {
        assert Span(p.items[k + 1], text, cuts[k + 1], cuts[k + 1 + 1]);
      }
      CutsBounded(p, text, start, cuts, 1);
      assert Cuts(rest, text, cuts[1], cuts[1..]);
    }
    if b :| Span(item, text, start, b) && Matches(rest, text, b) {
      var tail :| Cuts(rest, text, b, tail);
      var cuts := [start] + tail;
      forall k | 0 <= k < |p.items|
        ensures Span(p.items[k], text, cuts[k], cuts[k + 1])
      {
        if k > 0 { assert Span(rest.items[k - 1], text, tail[k - 1], tail[k - 1 + 1]); }
      }
      assert Cuts(p, text, start, cuts);
    }
  }

  lemma MatchesNone(toEnd: bool, text: seq<char>, start: nat)
    ensures Matches(Pattern([], toEnd), text, start) <==> start <= |text| && (toEnd ==> start == |text|)
  {
    if start <= |text| && (toEnd ==> start == |text|) {
      assert Cuts(Pattern([], toEnd), text, start, [start]);
    }
  }

  /** What match() decides: with '^' only position 0 counts. */
  ghost predicate Found(re: seq<char>, text: seq<char>) {
    if At(re, 0) == '^' && re != [] then Matches(Parse(re, 1), text, 0)
    else exists start :: 0 <= start <= |text| && Matches(Parse(re, 0), text, start)
  }

  // ----- the matcher -----

  /** matchhere(re + i, text + t) */
  method MatchHere(re: seq<char>, i: nat, text: seq<char>, t: nat) returns (r: bool)
    requires IsString(re) && IsString(text) && i <= |re| && t <= |text|
    ensures r <==> Matches(Parse(re, i), text, t)
    decreases |re| - i, 0
  {
    if At(re, i) == '\0' {
      MatchesNone(false, text, t);
      return true;
    }
    if At(re, i + 1) == '*' {
      r := MatchStar(re[i], re, i + 2, text, t);
      return;
    }
    if re[i] == '$' && At(re, i + 1) == '\0' {
      MatchesNone(true, text, t);
      return At(text, t) == '\0';
    }
    OneChar(re[i], Parse(re, i + 1), text, t);
    if At(text, t) != '\0' && (re[i] == '.' || re[i] == At(text, t)) {
      r := MatchHere(re, i + 1, text, t + 1);
      return;
    }
    return false;
  }

  lemma OneChar(c: char, rest: Pattern, text: seq<char>, t: nat)
    ensures Matches(rest.(items := [Item(c, false)] + rest.items), text, t)
            <==> t < |text| && CharMatches(c, text[t]) && Matches(rest, text, t + 1)
  {
    MatchesFirst(Item(c, false), rest, text, t);
    if t < |text| && CharMatches(c, text[t]) { assert Span(Item(c, false), text, t, t + 1); }
  }

  /** matchstar(c, re + i, text + t) */
  method MatchStar(c: char, re: seq<char>, i: nat, text: seq<char>, t: nat) returns (r: bool)
    requires IsString(re) && IsString(text) && i <= |re| && t <= |text|
    ensures r <==> Matches(Parse(re, i).(items := [Item(c, true)] + Parse(re, i).items), text, t)
    decreases |re| - i, 1
  {
    MatchesFirst(Item(c, true), Parse(re, i), text, t);
    var b := t;
    var more := true;
    while more
      invariant t <= b <= |text| && (more ==> Span(Item(c, true), text, t, b))
      invariant forall e :: t <= e < b ==> !Matches(Parse(re, i), text, e)
      invariant !more ==> !Matches(Parse(re, i), text, b) && !(b < |text| && CharMatches(c, text[b]))
      decreases more, |text| - b
    {
      r := MatchHere(re, i, text, b);
      if r {
        return;
      }
      more := At(text, b) != '\0' && (At(text, b) == c || c == '.');
      if more {
        b := b + 1;
      }
    }
    forall e: nat | Span(Item(c, true), text, t, e)
      ensures !Matches(Parse(re, i), text, e)
    {}
    return false;
  }

  /** match(re, text) */
  method Match(re: seq<char>, text: seq<char>) returns (r: bool)
    requires IsString(re) && IsString(text)
    ensures r <==> Found(re, text)
  {
    if At(re, 0) == '^' {
      r := MatchHere(re, 1, text, 0);
      return;
    }
    var t := 0;
    var more := true;
    while more
      invariant 0 <= t <= |text| && forall e :: 0 <= e < t ==> !Matches(Parse(re, 0), text, e)
      invariant !more ==> t == |text| && !Matches(Parse(re, 0), text, t)
      decreases more, |text| - t
    {
      r := MatchHere(re, 0, text, t);
      if r {
        return;
      }
      more := At(text, t) != '\0';
      if more {
        t := t + 1;
      }
    }
    return false;
  }
}
