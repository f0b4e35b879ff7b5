/** grep.c's matcher (The Practice of Programming, chapter 9) against what its patterns mean.

    Strings are without their terminating NUL; the end of a sequence stands for it. */
module Regex {
  /** One element of a pattern: a character, or any number of one. A '.' stands for every character. */
  datatype Item = One(c: char) | Star(c: char)

  /** A pattern without its '^': its elements, and whether a final '$' ties it to the end of the text. */
  datatype Pat = Pat(items: seq<Item>, atEnd: bool)

  function Parse(re: string): (p: Pat)
    ensures Render(p) == re
    decreases |re|
  {
    if re == "" then Pat([], false)
    else if |re| >= 2 && re[1] == '*' then
      var p := Parse(re[2..]);
      Pat([Star(re[0])] + p.items, p.atEnd)
    else if re == "$" then Pat([], true)
    else
      var p := Parse(re[1..]);
      Pat([One(re[0])] + p.items, p.atEnd)
  }

  /** The text of a pattern; Parse's contract says it loses nothing of it. */
  function Render(p: Pat): string
    decreases |p.items|
  {
    if p.items == [] then if p.atEnd then "$" else ""
    else
      (match p.items[0] case One(c) => [c] case Star(c) => [c, '*']) + Render(Pat(p.items[1..], p.atEnd))
  }

  // ---- meaning ----

  predicate Fits1(c: char, x: char) {
    c == '.' || c == x
  }

  predicate Fits(it: Item, piece: string) {
    match it
    case One(c) => |piece| == 1 && Fits1(c, piece[0])
    case Star(c) => forall i :: 0 <= i < |piece| ==> Fits1(c, piece[i])
  }

  function Concat(pieces: seq<string>): string {
    if pieces == [] then "" else pieces[0] + Concat(pieces[1..])
  }

  /** `text` is one piece for each element, and then `rest`. */
  predicate Splits(items: seq<Item>, pieces: seq<string>, text: string, rest: string) {
    && |pieces| == |items|
    && (forall j :: 0 <= j < |items| ==> Fits(items[j], pieces[j]))
    && text == Concat(pieces) + rest
  }

  /** The pattern matches at the beginning of `text`. */
  ghost predicate Here(p: Pat, text: string) {
    exists pieces: seq<string>, rest: string :: Splits(p.items, pieces, text, rest) && (p.atEnd ==> rest == "")
  }

  /** The pattern, '^' and all, matches somewhere in `text`. */
  ghost predicate Found(re: string, text: string) {
    if re != "" && re[0] == '^' then Here(Parse(re[1..]), text)
    else exists i :: 0 <= i <= |text| && Here(Parse(re), text[i..])
  }

  /** A first element takes some prefix, the others match after it. */
  lemma FirstElement(it: Item, p: Pat, text: string)
    ensures Here(Pat([it] + p.items, p.atEnd), text) <==>
            exists k :: 0 <= k <= |text| && Fits(it, text[..k]) && Here(p, text[k..])
  {
    hide Fits;
    var q := Pat([it] + p.items, p.atEnd);
    if Here(q, text) {
      var pieces: seq<string>, rest: string :| Splits(q.items, pieces, text, rest) && (q.atEnd ==> rest == "");
      var k := |pieces[0]|;
      assert text == pieces[0] + (Concat(pieces[1..]) + rest);
      assert text[..k] == pieces[0] && text[k..] == Concat(pieces[1..]) + rest;
      assert q.items[0] == it && q.items[1..] == p.items;
      assert Splits(p.items, pieces[1..], text[k..], rest);
    }
    if k :| 0 <= k <= |text| && Fits(it, text[..k]) && Here(p, text[k..]) {
      var pieces: seq<string>, rest: string :| Splits(p.items, pieces, text[k..], rest) && (p.atEnd ==> rest == "");
      var all := [text[..k]] + pieces;
      assert all[1..] == pieces;
      assert text == text[..k] + text[k..] == Concat(all) + rest;
      assert Splits(q.items, all, text, rest);
    }
  }

  lemma NoElements(atEnd: bool, text: string)
    ensures Here(Pat([], atEnd), text) <==> (atEnd ==> text == "")
  {
    if atEnd ==> text == "" {
      assert Splits([], [], text, text);
    }
  }

  lemma OneElement(c: char, p: Pat, text: string)
    ensures Here(Pat([One(c)] + p.items, p.atEnd), text) <==> text != "" && Fits1(c, text[0]) && Here(p, text[1..])
  {
    FirstElement(One(c), p, text);
    if text != "" {
      assert text[..1][0] == text[0];
      assert Fits1(c, text[0]) ==> Fits(One(c), text[..1]);
    }
  }

  /** What a pattern means, by its text: the empty one matches, a character before a star any number of itself, a
      final '$' the end of the text, any other character itself, and '.' every character. */
  lemma OnText(re: string, text: string)
    ensures re == "" ==> Here(Parse(re), text)
    ensures |re| >= 2 && re[1] == '*' ==>
              (Here(Parse(re), text) <==>
               exists k :: 0 <= k <= |text| && (forall i :: 0 <= i < k ==> re[0] == '.' || re[0] == text[i])
                           && Here(Parse(re[2..]), text[k..]))
    ensures re == "$" ==> (Here(Parse(re), text) <==> text == "")
    ensures re != "" && re != "$" && !(|re| >= 2 && re[1] == '*') ==>
              (Here(Parse(re), text) <==>
               text != "" && (re[0] == '.' || re[0] == text[0]) && Here(Parse(re[1..]), text[1..]))
  {
    hide Here;
    NoElements(Parse(re).atEnd, text);
    if |re| >= 2 && re[1] == '*' {
      FirstElement(Star(re[0]), Parse(re[2..]), text);
      forall k | 0 <= k <= |text|
        ensures Fits(Star(re[0]), text[..k]) <==> forall i :: 0 <= i < k ==> re[0] == '.' || re[0] == text[i]
      {
        assert forall i :: 0 <= i < k ==> text[..k][i] == text[i];
      }
    } else if re != "" && re != "$" {
      OneElement(re[0], Parse(re[1..]), text);
    }
  }

  // ---- the matcher ----

  /** matchhere: search for `re` at the beginning of `text`. */
  method MatchHere(re: string, text: string) returns (r: bool)
    ensures r <==> Here(Parse(re), text)
    decreases |re|, 0
  {
    if re == "" {
      NoElements(false, text);
      return true;
    }
    if |re| >= 2 && re[1] == '*' {
      FirstElement(Star(re[0]), Parse(re[2..]), text);
      r := MatchStar(re[0], re[2..], text);
      return;
    }
    if re[0] == '$' && |re| == 1 {
      NoElements(true, text);
      return text == "";
    }
    OneElement(re[0], Parse(re[1..]), text);
    if text != "" && (re[0] == '.' || re[0] == text[0]) {
      r := MatchHere(re[1..], text[1..]);
      return;
    }
    return false;
  }

  /** matchstar: some number of `c`, and then `re`. */
  method MatchStar(c: char, re: string, text: string) returns (r: bool)
    ensures r <==> exists k :: 0 <= k <= |text| && Fits(Star(c), text[..k]) && Here(Parse(re), text[k..])
    decreases |re|, 1
  {
    var i := 0;
    while true
      invariant 0 <= i <= |text| && Fits(Star(c), text[..i])
      invariant forall k :: 0 <= k < i ==> !Here(Parse(re), text[k..])
      decreases |text| - i
    {
      var here := MatchHere(re, text[i..]);
      if here {
        return true;
      }
      if i == |text| || !(text[i] == c || c == '.') {
        forall k | i < k <= |text|
          ensures !Fits(Star(c), text[..k])
        {
          assert text[..k][i] == text[i];
        }
        return false;
      }
      i := i + 1;
    }
  }

  /** match: `re` anywhere in `text`, or only at its beginning after a '^'. */
  method Match(re: string, text: string) returns (r: bool)
    ensures r <==> Found(re, text)
  {
    if re != "" && re[0] == '^' {
      r := MatchHere(re[1..], text);
      return;
    }
    var i := 0;
    while true
      invariant 0 <= i <= |text|
      invariant forall k :: 0 <= k < i ==> !Here(Parse(re), text[k..])
      decreases |text| - i
    {
      r := MatchHere(re, text[i..]);
      if r {
        return;
      }
      if i == |text| {
        return false;
      }
      i := i + 1;
    }
  }
}
