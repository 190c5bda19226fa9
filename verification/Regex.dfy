/** grep.c's matcher, against the language its patterns denote. */
module Regex {
  /** A pattern is a list of these; End can only come last. */
  datatype Item = Char(c: char) | Dot | Star(c: char) | End

  function Items(re: string): seq<Item> {
    if re == [] then []
    else if |re| >= 2 && re[1] == '*' then [Star(re[0])] + Items(re[2..])
    else if re == "$" then [End]
    else [if re[0] == '.' then Dot else Char(re[0])] + Items(re[1..])
  }

  predicate Covers(c: char, x: char) {
    c == '.' || c == x
  }

  predicate AllCovered(c: char, s: string) {
    forall i :: 0 <= i < |s| ==> Covers(c, s[i])
  }

  /** The language of a list of items.  End adds no characters: it says where the string stops. */
  predicate In(items: seq<Item>, s: string)
    decreases |items|
  {
    if items == [] then s == [] else
    var rest := items[1..];
    match items[0]
    case Char(c) => s != [] && s[0] == c && In(rest, s[1..])
    case Dot => s != [] && In(rest, s[1..])
    case Star(c) => exists n :: 0 <= n <= |s| && AllCovered(c, s[..n]) && In(rest, s[n..])
    case End => In(rest, s)
  }

  predicate Anchored(items: seq<Item>) {
    items != [] && items[|items| - 1] == End
  }

  /** Some prefix of text is in the language, and it is all of text if the pattern ends in $. */
  predicate Begins(items: seq<Item>, text: string) {
    exists n :: 0 <= n <= |text| && In(items, text[..n]) && (Anchored(items) ==> n == |text|)
  }

  predicate Found(re: string, text: string) {
    if re != [] && re[0] == '^' then Begins(Items(re[1..]), text)
    else exists i :: 0 <= i <= |text| && Begins(Items(re), text[i..])
  }

  // ---- how Begins unfolds ----

  lemma BeginsNothing(text: string)
    ensures Begins([], text)
  {
    assert In([], text[..0]);
  }

  lemma BeginsEnd(text: string)
    ensures Begins([End], text) <==> text == []
  {
    if text == [] {
      assert [End][1..] == [] && In([], text[..0]);
      assert In([End], text[..0]);
    } else {
      forall n | 0 <= n <= |text| && In([End], text[..n]) ensures n != |text| {
        assert In([End][1..], text[..n]);
      }
    }
  }

  lemma AnchoredTail(x: Item, rest: seq<Item>)
    requires x != End
    ensures Anchored([x] + rest) <==> Anchored(rest)
  {
  }

  // One character, and then the rest.
  lemma BeginsOne(x: Item, rest: seq<Item>, text: string)
    requires x.Char? || x.Dot?
    ensures Begins([x] + rest, text) <==>
              text != [] && (x.Dot? || x.c == text[0]) && Begins(rest, text[1..])
  {
    var items := [x] + rest;
    assert items[1..] == rest;
    AnchoredTail(x, rest);
    if Begins(items, text) {
      var n :| 0 <= n <= |text| && In(items, text[..n]) && (Anchored(items) ==> n == |text|);
      assert text[..n][1..] == text[1..][..n - 1];
    }
    if text != [] && (x.Dot? || x.c == text[0]) && Begins(rest, text[1..]) {
      var n :| 0 <= n <= |text| - 1 && In(rest, text[1..][..n]) && (Anchored(rest) ==> n == |text| - 1);
      assert text[..n + 1][1..] == text[1..][..n];
      assert In(items, text[..n + 1]);
    }
  }

  /** A star takes any number of the characters it covers. */
  lemma BeginsStar(c: char, rest: seq<Item>, text: string)
    ensures Begins([Star(c)] + rest, text) <==>
              exists k :: 0 <= k <= |text| && AllCovered(c, text[..k]) && Begins(rest, text[k..])
  {
    var items := [Star(c)] + rest;
    assert items[1..] == rest;
    AnchoredTail(Star(c), rest);
    if Begins(items, text) {
      var n :| 0 <= n <= |text| && In(items, text[..n]) && (Anchored(items) ==> n == |text|);
      var s := text[..n];
      var k :| 0 <= k <= |s| && AllCovered(c, s[..k]) && In(rest, s[k..]);
      assert s[..k] == text[..k] && s[k..] == text[k..][..n - k];
      assert Begins(rest, text[k..]);
    }
    if exists k :: 0 <= k <= |text| && AllCovered(c, text[..k]) && Begins(rest, text[k..]) {
      var k :| 0 <= k <= |text| && AllCovered(c, text[..k]) && Begins(rest, text[k..]);
      var n :| 0 <= n <= |text| - k && In(rest, text[k..][..n]) && (Anchored(rest) ==> n == |text| - k);
      var s := text[..k + n];
      assert s[..k] == text[..k] && s[k..] == text[k..][..n];
      assert In(items, s);
    }
  }

  // ---- the code ----

  /** matchhere: a match that starts at the beginning of text. */
  method MatchHere(re: string, text: string) returns (found: bool)
    ensures found <==> Begins(Items(re), text)
    decreases |re|, |text|, 0
  {
    if re == [] {
      BeginsNothing(text);
      return true;
    }
    if |re| >= 2 && re[1] == '*' {
      BeginsStar(re[0], Items(re[2..]), text);
      found := MatchStar(re[0], re[2..], text);
      return;
    }
    if re[0] == '$' && |re| == 1 {
      BeginsEnd(text);
      return text == [];
    }
    BeginsOne(if re[0] == '.' then Dot else Char(re[0]), Items(re[1..]), text);
    if text != [] && (re[0] == '.' || re[0] == text[0]) {
      found := MatchHere(re[1..], text[1..]);
      return;
    }
    found := false;
  }

  /** matchstar: c* and then re, at the beginning of text. */
  method MatchStar(c: char, re: string, text: string) returns (found: bool)
    ensures found <==> exists k :: 0 <= k <= |text| && AllCovered(c, text[..k]) && Begins(Items(re), text[k..])
    decreases |re|, |text|, 1
  {
    var i := 0;
    while true
      invariant 0 <= i <= |text| && AllCovered(c, text[..i])
      invariant forall k :: 0 <= k < i ==> !Begins(Items(re), text[k..])
      decreases |text| - i
    {
      found := MatchHere(re, text[i..]);
      if found {
        return;
      }
      if i == |text| {
        return;
      }
      if !(text[i] == c || c == '.') {
        assert forall k :: i < k <= |text| ==> !AllCovered(c, text[..k]) by {
          forall k | i < k <= |text| ensures !AllCovered(c, text[..k]) { assert text[..k][i] == text[i]; }
        }
        return;
      }
      i := i + 1;
    }
  }

  /** match: 1 exactly when the text contains a match; with ^, when it begins with one. */
  method Match(re: string, text: string) returns (found: bool)
    ensures found <==> Found(re, text)
  {
    if re != [] && re[0] == '^' {
      found := MatchHere(re[1..], text);
      return;
    }
    var i := 0;
    while true
      invariant 0 <= i <= |text|
      invariant forall k :: 0 <= k < i ==> !Begins(Items(re), text[k..])
      decreases |text| - i
    {
      found := MatchHere(re, text[i..]);
      if found || i == |text| {
        return;
      }
      i := i + 1;
    }
  }
}
