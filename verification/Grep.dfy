/** The regular expression matcher of user/grep.c, against a declarative meaning of patterns. */
module Grep {

  // What a pattern means.

  /** A literal or '.', or such a character followed by '*'. */
  datatype Item = One(c: char) | Star(c: char)

  /** The items of a pattern, and whether a final '$' ties it to the end of the text. */
  datatype Pattern = Pattern(items: seq<Item>, end: bool)

  function Decode(re: string): Pattern {
    if re == "" then Pattern([], false)
    else if |re| >= 2 && re[1] == '*' then
      var p := Decode(re[2..]);
      Pattern([Star(re[0])] + p.items, p.end)
    else if re == "$" then Pattern([], true)
    else
      var p := Decode(re[1..]);
      Pattern([One(re[0])] + p.items, p.end)
  }

  predicate Fits(c: char, x: char) { c == '.' || c == x }

  /** A piece of text stands for one item. */
  predicate Stands(item: Item, piece: string) {
    match item
    case One(c) => |piece| == 1 && Fits(c, piece[0])
    case Star(c) => forall k | 0 <= k < |piece| :: Fits(c, piece[k])
  }

  function Flat(pieces: seq<string>): string {
    if pieces == [] then "" else pieces[0] + Flat(pieces[1..])
  }

  predicate Explains(items: seq<Item>, pieces: seq<string>) {
    |pieces| == |items| && forall k | 0 <= k < |items| :: Stands(items[k], pieces[k])
  }

  /** The text begins with one piece for each item, and with nothing more if the pattern ends in '$'. */
  predicate Opens(p: Pattern, pieces: seq<string>, text: string) {
    Explains(p.items, pieces) && Flat(pieces) <= text && (p.end ==> Flat(pieces) == text)
  }

  ghost predicate Begins(p: Pattern, text: string) { exists pieces :: Opens(p, pieces, text) }

  /** Some substring of the text, or some prefix under a leading '^', is described by the pattern. */
  ghost predicate Means(re: string, text: string) {
    if re != "" && re[0] == '^' then Begins(Decode(re[1..]), text)
    else exists i :: 0 <= i <= |text| && Begins(Decode(re), text[i..])
  }

  // The matcher as functions.

  predicate MatchHere(re: string, text: string)
    decreases |re|, |text|, 0
  {
    if re == "" then true
    else if |re| >= 2 && re[1] == '*' then MatchStar(re[0], re[2..], text)
    else if re == "$" then text == ""
    else text != "" && Fits(re[0], text[0]) && MatchHere(re[1..], text[1..])
  }

  predicate MatchStar(c: char, re: string, text: string)
    decreases |re|, |text|, 1
  {
    MatchHere(re, text) || (text != "" && Fits(c, text[0]) && MatchStar(c, re, text[1..]))
  }

  // It finds only what is there.

  lemma OpensMore(item: Item, p: Pattern, piece: string, pieces: seq<string>, text: string)
    requires Stands(item, piece) && piece <= text && Opens(p, pieces, text[|piece|..])
    ensures Opens(Pattern([item] + p.items, p.end), [piece] + pieces, text)
  {
    var all := [piece] + pieces;
    assert all[1..] == pieces;
    assert text == piece + text[|piece|..];
  }

  lemma {:induction false} HereSound(re: string, text: string) returns (pieces: seq<string>)
    requires MatchHere(re, text)
    ensures Opens(Decode(re), pieces, text)
    decreases |re|, |text|, 0
  {
    if re == "" {
      pieces := [];
    } else if |re| >= 2 && re[1] == '*' {
      var piece, rest := StarSound(re[0], re[2..], text);
      OpensMore(Star(re[0]), Decode(re[2..]), piece, rest, text);
      pieces := [piece] + rest;
    } else if re == "$" {
      pieces := [];
    } else {
      var rest := HereSound(re[1..], text[1..]);
      OpensMore(One(re[0]), Decode(re[1..]), text[..1], rest, text);
      pieces := [text[..1]] + rest;
    }
  }

  lemma {:induction false} StarSound(c: char, re: string, text: string) returns (piece: string, pieces: seq<string>)
    requires MatchStar(c, re, text)
    ensures Stands(Star(c), piece) && piece <= text && Opens(Decode(re), pieces, text[|piece|..])
    decreases |re|, |text|, 1
  {
    if MatchHere(re, text) {
      piece := "";
      pieces := HereSound(re, text);
      assert text[0..] == text;
    } else {
      var more;
      more, pieces := StarSound(c, re, text[1..]);
      piece := text[..1] + more;
      assert text[1..][|more|..] == text[|piece|..];
    }
  }

  // It finds everything that is there.

  lemma OpensRest(item: Item, p: Pattern, q: Pattern, pieces: seq<string>, text: string)
    requires q == Pattern([item] + p.items, p.end) && Opens(q, pieces, text)
    ensures |pieces| > 0 && Stands(item, pieces[0]) && pieces[0] <= text && Opens(p, pieces[1..], text[|pieces[0]|..])
  {
    assert q.items[1..] == p.items;
    var piece, rest := pieces[0], pieces[1..];
    assert Stands(q.items[0], pieces[0]);
    assert Flat(pieces) == piece + Flat(rest);
    assert piece == text[..|piece|] by {
      assert piece == Flat(pieces)[..|piece|];
    }
    forall k | 0 <= k < |p.items| ensures Stands(p.items[k], rest[k]) {
      assert Stands(q.items[k + 1], pieces[k + 1]);
    }
    assert Flat(rest) == Flat(pieces)[|piece|..];
  }

  lemma {:induction false} HereComplete(re: string, text: string, pieces: seq<string>)
    requires Opens(Decode(re), pieces, text)
    ensures MatchHere(re, text)
    decreases |re|, |text|, 0
  {
    if re == "" {
    } else if |re| >= 2 && re[1] == '*' {
      OpensRest(Star(re[0]), Decode(re[2..]), Decode(re), pieces, text);
      StarComplete(re[0], re[2..], text, pieces[0], pieces[1..]);
    } else if re == "$" {
      assert pieces == [];
    } else {
      OpensRest(One(re[0]), Decode(re[1..]), Decode(re), pieces, text);
      HereComplete(re[1..], text[1..], pieces[1..]);
    }
  }

  lemma {:induction false} StarComplete(c: char, re: string, text: string, piece: string, pieces: seq<string>)
    requires Stands(Star(c), piece) && piece <= text && Opens(Decode(re), pieces, text[|piece|..])
    ensures MatchStar(c, re, text)
    decreases |re|, |text|, 1
  {
    if piece == "" {
      assert text[0..] == text;
      HereComplete(re, text, pieces);
    } else {
      assert text[0] == piece[0];
      assert text[1..][|piece[1..]|..] == text[|piece|..];
      StarComplete(c, re, text[1..], piece[1..], pieces);
    }
  }

  /** matchhere decides whether the text begins as the pattern says. */
  lemma HereDecides(re: string, text: string)
    ensures MatchHere(re, text) <==> Begins(Decode(re), text)
  {
    if MatchHere(re, text) {
      var pieces := HereSound(re, text);
    }
    if Begins(Decode(re), text) {
      var pieces :| Opens(Decode(re), pieces, text);
      HereComplete(re, text, pieces);
    }
  }

  // The matcher as written.

  method Matchhere(re: string, text: string) returns (r: bool)
    ensures r == MatchHere(re, text)
    decreases |re|, |text|, 0
  {
    if re == "" {
      return true;
    }
    if |re| >= 2 && re[1] == '*' {
      r := Matchstar(re[0], re[2..], text);
      return;
    }
    if re == "$" {
      return text == "";
    }
    if text != "" && (re[0] == '.' || re[0] == text[0]) {
      r := Matchhere(re[1..], text[1..]);
      return;
    }
    return false;
  }

  method Matchstar(c: char, re: string, text: string) returns (r: bool)
    ensures r == MatchStar(c, re, text)
    decreases |re|, |text|, 1
  {
    var s := text;
    while true
      invariant |s| <= |text| && MatchStar(c, re, s) == MatchStar(c, re, text)
      decreases |s|
    {
      r := Matchhere(re, s);
      if r {
        return;
      }
      if !(s != "" && (s[0] == c || c == '.')) {
        return false;
      }
      s := s[1..];
    }
  }

  /** match returns 1 exactly for the texts the pattern means. */
  method Match(re: string, text: string) returns (r: bool)
    ensures r <==> Means(re, text)
  {
    if re != "" && re[0] == '^' {
      r := Matchhere(re[1..], text);
      HereDecides(re[1..], text);
      return;
    }
    var i := 0;
    while true
      invariant 0 <= i <= |text| && forall k | 0 <= k < i :: !Begins(Decode(re), text[k..])
      decreases |text| - i
    {
      r := Matchhere(re, text[i..]);
      HereDecides(re, text[i..]);
      if r {
        return;
      }
      if i == |text| {
        return false;
      }
      i := i + 1;
    }
  }
}
