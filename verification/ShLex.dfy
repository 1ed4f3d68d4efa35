/** Texts and their tokens: a text is blanks and spelled tokens, and the shell's lexer finds exactly
    those. */
module ShLex {
  import opened ShSpec
  import opened ShTree
  import opened ShGrammar

  /** A token and the blanks before it. */
  datatype Piece = Piece(space: string, token: Token)

  function Spell(k: Token): string { if k.Word? then k.w else if k.c == '+' then ">>" else [k.c] }

  predicate Blank(s: string) { forall x | 0 <= x < |s| :: s[x] in " \t\r\n\U{B}" }

  predicate GoodToken(k: Token) { if k.Word? then IsWord(k.w) else Symbol(k.c) || k.c == '+' }

  /** Without a blank between them the two tokens would run together. */
  predicate Clash(k: Token, l: Token) { (k.Word? && l.Word?) || (k == Sym('>') && (l == Sym('>') || l == Sym('+'))) }

  predicate Spaced(ps: seq<Piece>) {
    && (forall x | 0 <= x < |ps| :: Blank(ps[x].space) && GoodToken(ps[x].token))
    && (forall x | 0 <= x < |ps| - 1 :: ps[x + 1].space == "" ==> !Clash(ps[x].token, ps[x + 1].token))
  }

  function TextOf(ps: seq<Piece>, tail: string): string {
    if ps == [] then tail else ps[0].space + (Spell(ps[0].token) + TextOf(ps[1..], tail))
  }

  function TokensIn(ps: seq<Piece>): (r: seq<Token>)
    ensures |r| == |ps|
  {
    if ps == [] then [] else [ps[0].token] + TokensIn(ps[1..])
  }

  lemma {:induction false} SkipBlank(t: string, i: nat, s: string, k: nat)
    requires Here(t, i, s) && Blank(s) && k <= |s| && (i + |s| == |t| || !Ws(t[i + |s|]))
    ensures Skip(t, i + k) == i + |s|
    decreases |s| - k
  {
    if k < |s| {
      HereAt(t, i, s, k);
      SkipBlank(t, i, s, k + 1);
    }
  }

  lemma FirstChar(k: Token)
    requires GoodToken(k)
    ensures |Spell(k)| > 0 && !Ws(Spell(k)[0]) && Spell(k)[0] != '\0'
    ensures k.Word? <==> WordChar(Spell(k)[0])
    ensures Spell(k)[0] == '>' <==> k == Sym('>') || k == Sym('+')
  {
  }

  /** What stands right after a token. */
  predicate Follows(t: string, e: nat, k: Token) {
    e <= |t| && (e < |t| ==> if k.Word? then Ws(t[e]) || Symbol(t[e]) else k == Sym('>') ==> t[e] != '>')
  }

  lemma TokenHere(t: string, q: nat, k: Token)
    requires Here(t, q, Spell(k)) && GoodToken(k) && Follows(t, q + |Spell(k)|, k)
    ensures var e := q + |Spell(k)|;
            var a := GetToken(t, q);
            && a.next == Skip(t, e) && TokenOf(t, a) == k && a.kind != '\0' && Skip(t, q) == q
  {
    FirstChar(k);
    HereAt(t, q, Spell(k), 0);
    if k.Word? {
      WordHere(t, q, k.w);
    } else if k.c == '+' {
      HereAt(t, q, ">>", 1);
    }
  }

  lemma HereSplit(t: string, i: nat, a: string, b: string)
    requires i <= |t| && t[i..] == a + b
    ensures Here(t, i, a) && i + |a| <= |t| && t[i + |a|..] == b
  {
    assert t[i..i + |a|] == t[i..][..|a|];
    assert t[i + |a|..] == t[i..][|a|..];
  }

  lemma NextFollows(t: string, e: nat, k: Token, ps: seq<Piece>, tail: string)
    requires e <= |t| && t[e..] == TextOf(ps, tail) && Blank(tail) && Spaced([Piece("", k)] + ps)
    ensures Follows(t, e, k)
  {
    if e < |t| {
      assert t[e] == t[e..][0];
      if ps != [] {
        var all := [Piece("", k)] + ps;
        assert all[1] == ps[0] && all[0].token == k;
        FirstChar(ps[0].token);
      }
    }
  }

  lemma SpacedTail(ps: seq<Piece>)
    requires Spaced(ps) && ps != []
    ensures Spaced(ps[1..]) && Spaced([Piece("", ps[0].token)] + ps[1..])
  {
    var all := [Piece("", ps[0].token)] + ps[1..];
    forall x | 0 <= x < |all| - 1 ensures all[x + 1].space == "" ==> !Clash(all[x].token, all[x + 1].token) {
      assert all[x].token == ps[x].token && all[x + 1] == ps[x + 1];
    }
  }

  lemma BlankEnd(t: string, i: nat, tail: string)
    requires NoNul(t) && i <= |t| && t[i..] == tail && Blank(tail)
    ensures Tokens(t, i) == []
  {
    assert Here(t, i, tail);
    SkipBlank(t, i, tail, 0);
    NoTokens(t, i);
  }

  /** Blanks and a token. */
  lemma PieceHere(t: string, i: nat, space: string, k: Token)
    requires NoNul(t) && Here(t, i, space) && Blank(space) && Here(t, i + |space|, Spell(k)) && GoodToken(k)
    requires Follows(t, i + |space| + |Spell(k)|, k)
    ensures var e := i + |space| + |Spell(k)|; e <= |t| && Tokens(t, i) == [k] + Tokens(t, e)
  {
    hide GetToken, Tokens, Follows, Spell, Blank;
    var q := i + |space|;
    assert t[q] == Spell(k)[0] && !Ws(t[q]) by {
      FirstChar(k);
      HereAt(t, q, Spell(k), 0);
    }
    TokenHere(t, q, k);
    SkipBlank(t, i, space, 0);
    GetSkip(t, i);
    TokensAt(t, i);
    TokensSkip(t, q + |Spell(k)|);
  }

  /** The lexer finds the tokens a text was made of, whatever the blanks between them. */
  lemma {:induction false} LexText(t: string, i: nat, ps: seq<Piece>, tail: string)
    requires NoNul(t) && i <= |t| && t[i..] == TextOf(ps, tail) && Spaced(ps) && Blank(tail)
    ensures Tokens(t, i) == TokensIn(ps)
    decreases |ps|
  {
    hide GetToken, Tokens, Spaced, Follows, Here, Spell, GoodToken, Blank, NoNul;
    if ps == [] {
      BlankEnd(t, i, tail);
    } else {
      var k, rest := ps[0].token, TextOf(ps[1..], tail);
      var q := i + |ps[0].space|;
      HereSplit(t, i, ps[0].space, Spell(k) + rest);
      HereSplit(t, q, Spell(k), rest);
      SpacedTail(ps);
      GoodFirst(ps);
      var e := q + |Spell(k)|;
      NextFollows(t, e, k, ps[1..], tail);
      PieceHere(t, i, ps[0].space, k);
      LexText(t, e, ps[1..], tail);
    }
  }

  lemma GoodFirst(ps: seq<Piece>)
    requires Spaced(ps) && ps != []
    ensures Blank(ps[0].space) && GoodToken(ps[0].token)
  {
  }

  /** Every text is made of the tokens the lexer finds. */
  lemma {:induction false} LexSplits(t: string, i: nat) returns (ps: seq<Piece>, tail: string)
    requires NoNul(t) && i <= |t|
    ensures t[i..] == TextOf(ps, tail) && Spaced(ps) && Blank(tail) && TokensIn(ps) == Tokens(t, i)
    decreases |t| - i
  {
    hide GetToken, Tokens, Spaced, TokenOf, Spell, GoodToken, Follows, Blank, TextOf, TokensIn, NoNul;
    var q := Skip(t, i);
    TokensAt(t, i);
    NoTokens(t, i);
    BlankSkip(t, i);
    if q == |t| {
      ps, tail := [], t[i..];
      NonePieces(tail);
    } else {
      SpelledOut(t, i);
      var k := TokenOf(t, GetToken(t, i));
      var e := q + |Spell(k)|;
      var more;
      more, tail := LexSplits(t, e);
      TokensSkip(t, e);
      assert t[i..] == t[i..q] + (t[q..e] + t[e..]);
      SpacedMore(t, e, t[i..q], k, more, tail);
      OnePiece(Piece(t[i..q], k), more, tail);
      ps := [Piece(t[i..q], k)] + more;
    }
  }

  lemma BlankSkip(t: string, i: nat)
    requires i <= |t|
    ensures Blank(t[i..Skip(t, i)]) && (Skip(t, i) == |t| ==> t[i..Skip(t, i)] == t[i..])
  {
  }

  lemma NonePieces(tail: string)
    ensures Spaced([]) && TextOf([], tail) == tail && TokensIn([]) == []
  {
  }

  lemma OnePiece(p: Piece, more: seq<Piece>, tail: string)
    ensures TextOf([p] + more, tail) == p.space + (Spell(p.token) + TextOf(more, tail))
    ensures TokensIn([p] + more) == [p.token] + TokensIn(more)
  {
    assert ([p] + more)[1..] == more;
  }

  /** The token the lexer finds is spelled where it stands, and nothing more belongs to it. */
  lemma SpelledOut(t: string, i: nat)
    requires NoNul(t) && i <= |t| && Skip(t, i) < |t|
    ensures var a, q := GetToken(t, i), Skip(t, i);
            var k := TokenOf(t, a);
            var e := q + |Spell(k)|;
            && a.kind != '\0' && e <= |t| && t[q..e] == Spell(k) && e > q && GoodToken(k) && Follows(t, e, k)
            && a.next == Skip(t, e)
  {
    hide Skip, WordEnd;
    var q := Skip(t, i);
    assert t[q] == At(t, q) && !Ws(t[q]) && t[q] != '\0';
    if WordChar(t[q]) {
      SpelledWord(t, q);
    }
  }

  lemma SpelledWord(t: string, q: nat)
    requires NoNul(t) && q < |t| && WordChar(t[q])
    ensures q < WordEnd(t, q) && IsWord(t[q..WordEnd(t, q)])
  {
  }

  lemma SpacedMore(t: string, e: nat, space: string, k: Token, more: seq<Piece>, tail: string)
    requires e <= |t| && t[e..] == TextOf(more, tail) && Spaced(more) && Blank(space) && GoodToken(k)
             && Follows(t, e, k)
    ensures Spaced([Piece(space, k)] + more)
  {
    var ps := [Piece(space, k)] + more;
    if more != [] && more[0].space == "" {
      FirstChar(more[0].token);
      assert t[e] == t[e..][0];
    }
    forall x | 0 <= x < |ps| - 1 ensures ps[x + 1].space == "" ==> !Clash(ps[x].token, ps[x + 1].token) {
      if x > 0 {
        assert ps[x] == more[x - 1] && ps[x + 1] == more[x];
      }
    }
  }

  lemma {:induction false} TextNoNul(ps: seq<Piece>, tail: string)
    requires Spaced(ps) && Blank(tail)
    ensures NoNul(TextOf(ps, tail))
  {
    if ps != [] {
      SpacedTail(ps);
      TextNoNul(ps[1..], tail);
    }
  }
}
