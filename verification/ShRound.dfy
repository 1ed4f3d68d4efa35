/** Round trips: the text of a sentence, and of any command tree, parses back. */
module ShRound {
  import opened ShSpec
  import opened ShTree
  import opened ShGrammar
  import opened ShLex

  /** The plain text of any sentence, with any blanks: words and redirections in any order, | and ;
      nesting to the right without brackets, brackets and & where the sentence has them. It parses to
      what the sentence means, or panics if a command has more than nine words. */
  lemma PlainRoundTrip(x: Line, ps: seq<Piece>, tail: string)
    requires TokensIn(ps) == FlatLine(x) && Spaced(ps) && Blank(tail)
    ensures var t := TextOf(ps, tail);
            if FitsLine(x) then ParseCmd(t).Ok? && Read(t, ParseCmd(t).value) == MeanLine(x) else ParseCmd(t) == Panic
  {
    hide ParseCmd, FitsLine, MeanLine, FlatLine, Tokens;
    var t := TextOf(ps, tail);
    TextNoNul(ps, tail);
    assert t[0..] == t;
    LexText(t, 0, ps, tail);
    SentenceParses(t, x);
  }

  // Trees, every node in brackets.

  function ArgsOf(ws: seq<string>): (r: seq<Arg>)
    ensures |r| == |ws|
  {
    if ws == [] then [] else [Arg(ws[0], [])] + ArgsOf(ws[1..])
  }

  /** The sentence for a tree, without its outer brackets. */
  function Inner(c: Cmd<string>): Line {
    match c
    case Exec(argv) => Last(One(Plain([], ArgsOf(argv))), 0)
    case Redir(d, f, _, fd) => Last(One(Block(Inner(d), [To(if fd == 0 then In else Out, f)])), 0)
    case Pipe(l, r) => Last(Chain(Block(Inner(l), []), One(Block(Inner(r), []))), 0)
    case List(l, r) => Then(One(Block(Inner(l), [])), 0, Last(One(Block(Inner(r), [])), 0))
    case Back(d) => Last(One(Block(Inner(d), [])), 1)
  }

  function Bracketing(c: Cmd<string>): Line { Last(One(Block(Inner(c), [])), 0) }

  lemma {:induction false} ArgsMean(ws: seq<string>)
    ensures WordsOf(ArgsOf(ws)) == ws && ArgTos(ArgsOf(ws)) == []
  {
    if ws != [] {
      ArgsMean(ws[1..]);
      assert ArgsOf(ws)[1..] == ArgsOf(ws[1..]);
    }
  }

  lemma UnderOne(c: Cmd<string>, f: (string, nat, nat))
    ensures Under(c, [f]) == Redir(c, f.0, f.1, f.2)
  {
    assert [f][..0] == [];
  }

  lemma OneLine(s: Simple, n: nat)
    ensures MeanLine(Last(One(s), n)) == Behind(MeanSimple(s), n)
    ensures FitsLine(Last(One(s), n)) <==> FitsSimple(s)
    ensures FlatLine(Last(One(s), n)) == FlatSimple(s) + Amps(n)
    ensures n == 0 ==> FlatLine(Last(One(s), n)) == FlatSimple(s)
  {
    assert MeanPipes(One(s)) == MeanSimple(s) && FlatPipes(One(s)) == FlatSimple(s);
    assert FitsPipes(One(s)) <==> FitsSimple(s);
  }

  lemma BlockOf(l: Line)
    ensures MeanSimple(Block(l, [])) == MeanLine(l) && (FitsSimple(Block(l, [])) <==> FitsLine(l))
    ensures FlatSimple(Block(l, [])) == [Sym('(')] + FlatLine(l) + [Sym(')')]
  {
    assert OpenedAll([]) == [] && FlatTos([]) == [];
  }

  /** The sentence for a tree means the tree. */
  lemma {:induction false} InnerMeans(c: Cmd<string>)
    requires Good(c)
    ensures MeanLine(Inner(c)) == c && (FitsLine(Inner(c)) <==> Fits(c))
  {
    hide MeanLine, MeanSimple, FitsLine, FitsSimple, FlatLine, FlatSimple;
    match c {
      case Exec(argv) =>
        ArgsMean(argv);
        OneLine(Plain([], ArgsOf(argv)), 0);
        PlainOf(ArgsOf(argv));
      case Redir(d, f, _, fd) =>
        InnerMeans(d);
        var to := To(if fd == 0 then In else Out, f);
        RedirectedOf(Inner(d), to);
        OneLine(Block(Inner(d), [to]), 0);
      case Pipe(l, r) =>
        InnerMeans(l);
        InnerMeans(r);
        BlockOf(Inner(l));
        BlockOf(Inner(r));
        ChainOf(Block(Inner(l), []), Block(Inner(r), []));
      case List(l, r) =>
        InnerMeans(l);
        InnerMeans(r);
        BlockOf(Inner(l));
        BlockOf(Inner(r));
        ThenOf(Block(Inner(l), []), Block(Inner(r), []));
      case Back(d) =>
        InnerMeans(d);
        BlockOf(Inner(d));
        OneLine(Block(Inner(d), []), 1);
    }
  }

  lemma PlainOf(args: seq<Arg>)
    ensures MeanSimple(Plain([], args)) == Under(Exec(WordsOf(args)), ArgTos(args))
    ensures FitsSimple(Plain([], args)) <==> |args| < MAXARGS
    ensures FlatSimple(Plain([], args)) == FlatArgs(args)
  {
    hide Under, WordsOf, ArgTos, FlatArgs, MeanSimple, FlatSimple, MeanLine, FlatLine, FitsLine;
    PlainMeans(args);
    PlainFlat(args);
  }

  lemma PlainMeans(args: seq<Arg>)
    ensures MeanSimple(Plain([], args)) == Under(Exec(WordsOf(args)), ArgTos(args))
  {
    hide Under, WordsOf, ArgTos, MeanLine, Opened;
    assert OpenedAll([]) + ArgTos(args) == ArgTos(args);
  }

  lemma PlainFlat(args: seq<Arg>)
    ensures FlatSimple(Plain([], args)) == FlatArgs(args)
  {
    hide FlatArgs, FlatLine, OpSym;
    assert FlatTos([]) + FlatArgs(args) == FlatArgs(args);
  }

  lemma RedirectedOf(l: Line, to: To)
    ensures var f := Opened(to); MeanSimple(Block(l, [to])) == Redir(MeanLine(l), f.0, f.1, f.2)
    ensures FitsSimple(Block(l, [to])) <==> FitsLine(l)
    ensures FlatSimple(Block(l, [to])) == [Sym('(')] + FlatLine(l) + [Sym(')'), Sym(OpSym(to.op)), Word(to.file)]
  {
    assert [to][1..] == [];
    assert OpenedAll([to]) == [Opened(to)];
    UnderOne(MeanLine(l), Opened(to));
    assert FlatTos([to]) == [Sym(OpSym(to.op)), Word(to.file)];
  }

  lemma ChainOf(a: Simple, b: Simple)
    ensures var x := Last(Chain(a, One(b)), 0);
            && MeanLine(x) == Pipe(MeanSimple(a), MeanSimple(b))
            && (FitsLine(x) <==> FitsSimple(a) && FitsSimple(b))
            && FlatLine(x) == FlatSimple(a) + [Sym('|')] + FlatSimple(b)
  {
    assert MeanPipes(One(b)) == MeanSimple(b) && FlatPipes(One(b)) == FlatSimple(b);
    assert FitsPipes(One(b)) <==> FitsSimple(b);
    assert MeanPipes(Chain(a, One(b))) == Pipe(MeanSimple(a), MeanSimple(b));
    assert FitsPipes(Chain(a, One(b))) <==> FitsSimple(a) && FitsSimple(b);
    assert FlatPipes(Chain(a, One(b))) == FlatSimple(a) + [Sym('|')] + FlatSimple(b);
  }

  lemma ThenOf(a: Simple, b: Simple)
    ensures var x := Then(One(a), 0, Last(One(b), 0));
            && MeanLine(x) == List(MeanSimple(a), MeanSimple(b))
            && (FitsLine(x) <==> FitsSimple(a) && FitsSimple(b))
            && FlatLine(x) == FlatSimple(a) + [Sym(';')] + FlatSimple(b)
  {
    hide MeanSimple, FitsSimple, FlatSimple;
    OneLine(b, 0);
    assert MeanPipes(One(a)) == MeanSimple(a) && FlatPipes(One(a)) == FlatSimple(a);
    assert FitsPipes(One(a)) <==> FitsSimple(a);
  }

  lemma BracketingOf(c: Cmd<string>)
    ensures MeanLine(Bracketing(c)) == MeanLine(Inner(c)) && (FitsLine(Bracketing(c)) <==> FitsLine(Inner(c)))
    ensures FlatLine(Bracketing(c)) == [Sym('(')] + FlatLine(Inner(c)) + [Sym(')')]
  {
    hide MeanLine, FitsLine, FlatLine, MeanSimple, FitsSimple, FlatSimple;
    BlockOf(Inner(c));
    OneLine(Block(Inner(c), []), 0);
  }

  /** The parser reads back every tree from its bracketed text, with any blanks, unless a simple command
      in it has ten words or more; then, and only then, it panics. */
  lemma RoundTrip(c: Cmd<string>, ps: seq<Piece>, tail: string)
    requires Good(c) && TokensIn(ps) == FlatLine(Bracketing(c)) && Spaced(ps) && Blank(tail)
    ensures var t := TextOf(ps, tail);
            if Fits(c) then ParseCmd(t).Ok? && Read(t, ParseCmd(t).value) == c else ParseCmd(t) == Panic
  {
    hide ParseCmd, FlatLine, Inner, MeanLine, FitsLine;
    InnerMeans(c);
    BracketingOf(c);
    PlainRoundTrip(Bracketing(c), ps, tail);
  }

  // Texts exist.

  /** A blank before every token. */
  function Airy(ts: seq<Token>): seq<Piece> {
    if ts == [] then [] else [Piece(" ", ts[0])] + Airy(ts[1..])
  }

  lemma {:induction false} AirySpaced(ts: seq<Token>)
    requires forall k | 0 <= k < |ts| :: GoodToken(ts[k])
    ensures TokensIn(Airy(ts)) == ts && Spaced(Airy(ts)) && forall k | 0 <= k < |Airy(ts)| :: Airy(ts)[k].space == " "
  {
    if ts != [] {
      AirySpaced(ts[1..]);
      assert Airy(ts)[1..] == Airy(ts[1..]);
    }
  }

  predicate AllGood(ts: seq<Token>) { forall k | 0 <= k < |ts| :: GoodToken(ts[k]) }

  lemma {:induction false} ArgsGood(ws: seq<string>)
    requires forall k | 0 <= k < |ws| :: IsWord(ws[k])
    ensures AllGood(FlatArgs(ArgsOf(ws)))
  {
    if ws != [] {
      ArgsGood(ws[1..]);
      assert ArgsOf(ws)[1..] == ArgsOf(ws[1..]);
    }
  }

  lemma GoodConcat(a: seq<Token>, b: seq<Token>)
    requires AllGood(a) && AllGood(b)
    ensures AllGood(a + b)
  {
  }

  lemma GoodSymbols(op: Op)
    ensures AllGood([]) && AllGood([Sym('(')]) && AllGood([Sym(')')]) && AllGood([Sym('|')]) && AllGood([Sym(';')])
    ensures AllGood(Amps(1)) && AllGood([Sym(OpSym(op))])
  {
    assert Amps(1) == [Sym('&')];
  }

  lemma GoodBlock(l: Line)
    requires AllGood(FlatLine(l))
    ensures AllGood(FlatSimple(Block(l, [])))
  {
    hide AllGood, FlatLine, FlatSimple;
    BlockOf(l);
    GoodSymbols(In);
    GoodConcat([Sym('(')], FlatLine(l));
    GoodConcat([Sym('(')] + FlatLine(l), [Sym(')')]);
  }

  lemma GoodRedirected(l: Line, to: To)
    requires AllGood(FlatLine(l)) && IsWord(to.file)
    ensures AllGood(FlatSimple(Block(l, [to])))
  {
    hide FlatLine, FlatSimple;
    RedirectedOf(l, to);
    GoodSymbols(to.op);
    GoodConcat([Sym('(')], FlatLine(l));
    GoodConcat([Sym('(')] + FlatLine(l), [Sym(')'), Sym(OpSym(to.op)), Word(to.file)]);
  }

  lemma {:induction false} InnerGood(c: Cmd<string>)
    requires Good(c)
    ensures AllGood(FlatLine(Inner(c)))
  {
    hide FlatLine, FlatSimple, AllGood;
    GoodSymbols(In);
    match c {
      case Exec(argv) =>
        ArgsGood(argv);
        PlainOf(ArgsOf(argv));
        OneLine(Plain([], ArgsOf(argv)), 0);
      case Redir(d, f, _, fd) =>
        InnerGood(d);
        GoodRedirected(Inner(d), To(if fd == 0 then In else Out, f));
        OneLine(Block(Inner(d), [To(if fd == 0 then In else Out, f)]), 0);
      case Pipe(l, r) =>
        InnerGood(l);
        InnerGood(r);
        TwoGood(Inner(l), Inner(r), '|');
        ChainOf(Block(Inner(l), []), Block(Inner(r), []));
      case List(l, r) =>
        InnerGood(l);
        InnerGood(r);
        TwoGood(Inner(l), Inner(r), ';');
        ThenOf(Block(Inner(l), []), Block(Inner(r), []));
      case Back(d) =>
        InnerGood(d);
        GoodBlock(Inner(d));
        OneLine(Block(Inner(d), []), 1);
        GoodConcat(FlatSimple(Block(Inner(d), [])), Amps(1));
    }
  }

  lemma TwoGood(l: Line, r: Line, op: char)
    requires AllGood(FlatLine(l)) && AllGood(FlatLine(r)) && (op == '|' || op == ';')
    ensures AllGood(FlatSimple(Block(l, [])) + [Sym(op)] + FlatSimple(Block(r, [])))
  {
    hide FlatLine, FlatSimple, AllGood;
    GoodSymbols(In);
    GoodBlock(l);
    GoodBlock(r);
    GoodConcat(FlatSimple(Block(l, [])), [Sym(op)]);
    GoodConcat(FlatSimple(Block(l, [])) + [Sym(op)], FlatSimple(Block(r, [])));
  }

  /** Every tree the parser can build has such a text. */
  lemma EveryTreeHasText(c: Cmd<string>)
    requires Good(c)
    ensures var ps := Airy(FlatLine(Bracketing(c))); TokensIn(ps) == FlatLine(Bracketing(c)) && Spaced(ps)
  {
    hide FlatLine;
    InnerGood(c);
    BracketingOf(c);
    AirySpaced(FlatLine(Bracketing(c)));
  }
}
