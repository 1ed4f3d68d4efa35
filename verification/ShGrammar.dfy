/** The shell's language, written down: a parser run succeeds exactly on the sentences of a grammar and
    builds the tree the grammar gives them. */
module ShGrammar {
  import opened ShSpec
  import opened ShTree

  // Tokens.

  /** A word, or a symbol; >> is the symbol '+'. */
  datatype Token = Word(w: string) | Sym(c: char)

  function TokenOf(t: string, a: Lexed): Token {
    if a.kind == 'a' then Word(Text(t, a.tok)) else Sym(a.kind)
  }

  /** The tokens of the text from i on. */
  function Tokens(t: string, i: nat): seq<Token>
    requires NoNul(t) && i <= |t|
    decreases |t| - i
  {
    var a := GetToken(t, i);
    if a.kind == '\0' then [] else [TokenOf(t, a)] + Tokens(t, a.next)
  }

  lemma GetSkip(t: string, i: nat)
    requires i <= |t|
    ensures GetToken(t, Skip(t, i)) == GetToken(t, i)
  {
    SkipTwice(t, i);
  }

  lemma TokensSkip(t: string, i: nat)
    requires NoNul(t) && i <= |t|
    ensures Tokens(t, Skip(t, i)) == Tokens(t, i)
  {
    hide GetToken;
    GetSkip(t, i);
  }

  /** The first token, and the rest. */
  lemma TokensAt(t: string, i: nat)
    requires NoNul(t) && i <= |t|
    ensures var a := GetToken(t, Skip(t, i));
            && a == GetToken(t, i) && (a.kind == '\0' <==> Tokens(t, i) == [])
            && (a.kind != '\0' ==> i < a.next && Tokens(t, i) == [TokenOf(t, a)] + Tokens(t, a.next))
  {
    hide GetToken;
    GetSkip(t, i);
  }

  /** The next token is one of the symbols asked for; > stands for >> too. */
  predicate Starts(ts: seq<Token>, symbols: string) {
    ts != [] && ts[0].Sym? && (ts[0].c in symbols || (ts[0].c == '+' && '>' in symbols))
  }

  lemma PeekIs(t: string, i: nat, symbols: string)
    requires NoNul(t) && i <= |t| && forall c | c in symbols :: Symbol(c)
    ensures Peek(t, i, symbols) <==> Starts(Tokens(t, i), symbols)
  {
  }

  lemma NoTokens(t: string, i: nat)
    requires NoNul(t) && i <= |t|
    ensures Tokens(t, i) == [] <==> Skip(t, i) == |t|
  {
  }

  // The grammar.

  datatype Op = In | Out | Append

  /** A redirection: < file, > file or >> file. */
  datatype To = To(op: Op, file: string)

  /** A word and the redirections right after it. */
  datatype Arg = Arg(word: string, tos: seq<To>)

  /** A bracketed line with redirections, or redirections and words. */
  datatype Simple = Block(line: Line, tos: seq<To>) | Plain(tos: seq<To>, args: seq<Arg>)

  datatype Pipes = One(cmd: Simple) | Chain(cmd: Simple, rest: Pipes)

  /** A pipeline with any number of & after it, and perhaps ; and another line. */
  datatype Line = Last(pipes: Pipes, amps: nat) | Then(pipes: Pipes, amps: nat, rest: Line)

  function OpSym(op: Op): char { match op case In => '<' case Out => '>' case Append => '+' }

  function FlatTos(tos: seq<To>): seq<Token> {
    if tos == [] then [] else [Sym(OpSym(tos[0].op)), Word(tos[0].file)] + FlatTos(tos[1..])
  }

  function FlatArgs(args: seq<Arg>): seq<Token> {
    if args == [] then [] else [Word(args[0].word)] + (FlatTos(args[0].tos) + FlatArgs(args[1..]))
  }

  function Amps(n: nat): seq<Token> { if n == 0 then [] else [Sym('&')] + Amps(n - 1) }

  function FlatSimple(x: Simple): seq<Token>
    decreases x, 0
  {
    match x
    case Block(l, tos) => [Sym('(')] + (FlatLine(l) + ([Sym(')')] + FlatTos(tos)))
    case Plain(tos, args) => FlatTos(tos) + FlatArgs(args)
  }

  function FlatPipes(x: Pipes): seq<Token>
    decreases x, 1
  {
    match x
    case One(s) => FlatSimple(s)
    case Chain(s, r) => FlatSimple(s) + ([Sym('|')] + FlatPipes(r))
  }

  /** The sentence. */
  function FlatLine(x: Line): seq<Token>
    decreases x, 2
  {
    match x
    case Last(p, n) => FlatPipes(p) + Amps(n)
    case Then(p, n, r) => FlatPipes(p) + (Amps(n) + ([Sym(';')] + FlatLine(r)))
  }

  // Its meaning.

  /** How a file is opened: (name, mode, descriptor). */
  function Opened(to: To): (string, nat, nat) {
    if to.op == In then (to.file, O_RDONLY, 0) else (to.file, O_WRONLY + O_CREATE, 1)
  }

  function OpenedAll(tos: seq<To>): seq<(string, nat, nat)> {
    if tos == [] then [] else [Opened(tos[0])] + OpenedAll(tos[1..])
  }

  /** The command under its redirections, the last one outermost. */
  function Under(c: Cmd<string>, fs: seq<(string, nat, nat)>): Cmd<string> {
    if fs == [] then c
    else
      var f := fs[|fs| - 1];
      Redir(Under(c, fs[..|fs| - 1]), f.0, f.1, f.2)
  }

  function WordsOf(args: seq<Arg>): (r: seq<string>)
    ensures |r| == |args|
  {
    if args == [] then [] else [args[0].word] + WordsOf(args[1..])
  }

  function ArgTos(args: seq<Arg>): seq<(string, nat, nat)> {
    if args == [] then [] else OpenedAll(args[0].tos) + ArgTos(args[1..])
  }

  function MeanSimple(x: Simple): Cmd<string>
    decreases x, 0
  {
    match x
    case Block(l, tos) => Under(MeanLine(l), OpenedAll(tos))
    case Plain(tos, args) => Under(Exec(WordsOf(args)), OpenedAll(tos) + ArgTos(args))
  }

  function MeanPipes(x: Pipes): Cmd<string>
    decreases x, 1
  {
    match x
    case One(s) => MeanSimple(s)
    case Chain(s, r) => Pipe(MeanSimple(s), MeanPipes(r))
  }

  function Behind(c: Cmd<string>, n: nat): Cmd<string>
    decreases n
  {
    if n == 0 then c else Behind(Back(c), n - 1)
  }

  function MeanLine(x: Line): Cmd<string>
    decreases x, 2
  {
    match x
    case Last(p, n) => Behind(MeanPipes(p), n)
    case Then(p, n, r) => List(Behind(MeanPipes(p), n), MeanLine(r))
  }

  /** Every simple command has at most nine words. */
  predicate FitsSimple(x: Simple)
    decreases x, 0
  {
    match x
    case Block(l, _) => FitsLine(l)
    case Plain(_, args) => |args| <= 9
  }

  predicate FitsPipes(x: Pipes)
    decreases x, 1
  {
    FitsSimple(x.cmd) && (x.Chain? ==> FitsPipes(x.rest))
  }

  predicate FitsLine(x: Line)
    decreases x, 2
  {
    FitsPipes(x.pipes) && (x.Then? ==> FitsLine(x.rest))
  }

  // What the parser's redirections say.

  function NamedAll(t: string, rs: seq<RedirTo>): seq<(string, nat, nat)> {
    if rs == [] then [] else [(Text(t, rs[0].file), rs[0].mode, rs[0].fd)] + NamedAll(t, rs[1..])
  }

  lemma {:induction false} NamedConcat(t: string, a: seq<RedirTo>, b: seq<RedirTo>)
    ensures NamedAll(t, a + b) == NamedAll(t, a) + NamedAll(t, b)
  {
    if a == [] {
      assert a + b == b;
    } else {
      assert (a + b)[1..] == a[1..] + b;
      NamedConcat(t, a[1..], b);
    }
  }

  lemma {:induction false} WrapRead(t: string, c: Cmd<Tok>, rs: seq<RedirTo>)
    ensures Read(t, Wrap(c, rs)) == Under(Read(t, c), NamedAll(t, rs))
  {
    if rs != [] {
      var n := |rs| - 1;
      WrapRead(t, c, rs[..n]);
      assert rs == rs[..n] + [rs[n]];
      NamedConcat(t, rs[..n], [rs[n]]);
      var fs := NamedAll(t, rs);
      assert fs[..|fs| - 1] == NamedAll(t, rs[..n]);
    }
  }

  // Every sentence is read as what it means.

  predicate Stops(ts: seq<Token>) { ts == [] || Starts(ts, "|)&;") }

  lemma {:induction false} RedirsRead(t: string, i: nat, tos: seq<To>, rest: seq<Token>)
    returns (rs: seq<RedirTo>, j: nat)
    requires NoNul(t) && i <= |t| && Tokens(t, i) == FlatTos(tos) + rest && !Starts(rest, "<>")
    ensures Redirs(t, i) == Ok((rs, j)) && j <= |t| && Tokens(t, j) == rest && NamedAll(t, rs) == OpenedAll(tos)
    decreases |tos|
  {
    hide GetToken, Tokens;
    PeekIs(t, i, "<>");
    TokensSkip(t, i);
    if tos == [] {
      assert FlatTos(tos) + rest == rest;
      rs, j := [], Skip(t, i);
    } else {
      var ts := FlatTos(tos) + rest;
      var more := FlatTos(tos[1..]) + rest;
      assert ts[0] == Sym(OpSym(tos[0].op)) && ts[1] == Word(tos[0].file) && ts[2..] == more;
      TokensAt(t, i);
      var op := GetToken(t, Skip(t, i));
      assert Tokens(t, op.next) == ts[1..];
      TokensAt(t, op.next);
      var f := GetToken(t, op.next);
      assert Tokens(t, f.next) == ts[1..][1..] == more;
      KindIs(t, op);
      KindIs(t, f);
      var others;
      others, j := RedirsRead(t, f.next, tos[1..], rest);
      rs := [Opening(op.kind, f.tok)] + others;
      assert rs[1..] == others;
    }
  }

  lemma KindIs(t: string, a: Lexed)
    ensures TokenOf(t, a).Word? <==> a.kind == 'a'
    ensures TokenOf(t, a).Sym? ==> TokenOf(t, a).c == a.kind
    ensures TokenOf(t, a).Word? ==> TokenOf(t, a).w == Text(t, a.tok)
  {
  }

  predicate ArgsGive(t: string, r: Result<(seq<Tok>, seq<RedirTo>, nat)>, args: seq<Arg>, rest: seq<Token>)
    requires NoNul(t)
  {
    && r.Ok? && r.value.2 <= |t| && Tokens(t, r.value.2) == rest
    && Texts(t, r.value.0) == WordsOf(args) && NamedAll(t, r.value.1) == ArgTos(args)
  }

  lemma ArgsEnd(t: string, i: nat, argc: nat)
    requires NoNul(t) && i <= |t| && Stops(Tokens(t, i))
    ensures ArgsGive(t, Args(t, i, argc), [], Tokens(t, i))
  {
    hide GetToken;
    PeekIs(t, i, "|)&;");
    TokensSkip(t, i);
    TokensAt(t, i);
    NoTokens(t, i);
    if Tokens(t, i) == [] {
      AtEnd(t, i);
    }
  }

  lemma AtEnd(t: string, i: nat)
    requires NoNul(t) && i <= |t| && Skip(t, i) == |t|
    ensures GetToken(t, Skip(t, i)).next == |t| && Tokens(t, |t|) == []
  {
  }

  /** The redirections of a word end where the next word or the end of the command comes. */
  lemma NoMoreTos(args: seq<Arg>, rest: seq<Token>)
    requires Stops(rest)
    ensures !Starts(FlatArgs(args) + rest, "<>")
  {
    if args == [] {
      assert FlatArgs(args) + rest == rest;
    }
  }

  /** parseexec's loop on a word. */
  lemma ArgsUnfold(t: string, i: nat, argc: nat, a: Lexed, rs: seq<RedirTo>, j: nat)
    requires i <= |t| && !Peek(t, i, "|)&;") && a == GetToken(t, Skip(t, i)) && a.kind == 'a' && i < a.next
    requires Redirs(t, a.next) == Ok((rs, j))
    ensures if argc + 1 >= MAXARGS then Args(t, i, argc) == Panic
            else match Args(t, j, argc + 1) {
                   case Panic => Args(t, i, argc) == Panic
                   case Ok((toks, more, k)) => Args(t, i, argc) == Ok(([a.tok] + toks, rs + more, k))
                 }
  {
    hide GetToken, Redirs;
  }

  lemma {:induction false} ArgsRead(t: string, i: nat, args: seq<Arg>, argc: nat, rest: seq<Token>)
    requires NoNul(t) && i <= |t| && Tokens(t, i) == FlatArgs(args) + rest && Stops(rest) && argc < MAXARGS
    ensures if argc + |args| < MAXARGS then ArgsGive(t, Args(t, i, argc), args, rest) else Args(t, i, argc) == Panic
    decreases |args|
  {
    hide GetToken, Tokens, Redirs, Args, FlatTos, Skip, At, Peek;
    if args == [] {
      assert FlatArgs(args) + rest == rest;
      ArgsEnd(t, i, argc);
    } else {
      var w, tail := args[0], FlatArgs(args[1..]) + rest;
      var ts := FlatArgs(args) + rest;
      assert ts[0] == Word(w.word) && ts[1..] == FlatTos(w.tos) + tail;
      PeekIs(t, i, "|)&;");
      TokensAt(t, i);
      var a := GetToken(t, Skip(t, i));
      KindIs(t, a);
      assert Tokens(t, a.next) == ts[1..];
      NoMoreTos(args[1..], rest);
      var rs, j := RedirsRead(t, a.next, w.tos, tail);
      ArgsUnfold(t, i, argc, a, rs, j);
      if argc + 1 < MAXARGS {
        ArgsRead(t, j, args[1..], argc + 1, rest);
        if argc + |args| < MAXARGS {
          var (toks, more, k) := Args(t, j, argc + 1).value;
          NamedConcat(t, rs, more);
          assert ([a.tok] + toks)[1..] == toks;
        }
      }
    }
  }

  /** A parser step gives the tree meant and stops at the rest, or panics if the tree does not fit. */
  predicate Reads(t: string, r: Result<(Cmd<Tok>, nat)>, fits: bool, c: Cmd<string>, rest: seq<Token>)
    requires NoNul(t)
  {
    if fits then r.Ok? && r.value.1 <= |t| && Read(t, r.value.0) == c && Tokens(t, r.value.1) == rest
    else r == Panic
  }

  lemma PlainRead(t: string, i: nat, tos: seq<To>, args: seq<Arg>, rest: seq<Token>)
    requires NoNul(t) && i <= |t| && Tokens(t, i) == FlatSimple(Plain(tos, args)) + rest && Stops(rest)
    ensures Reads(t, ParseExec(t, i), |args| < MAXARGS, MeanSimple(Plain(tos, args)), rest)
  {
    hide GetToken, Tokens, Redirs, Args, ParseBlock, Wrap;
    var tail := FlatArgs(args) + rest;
    assert FlatTos(tos) + FlatArgs(args) + rest == FlatTos(tos) + tail;
    NotOpen(tos, args, rest);
    PeekIs(t, i, "(");
    NoMoreTos(args, rest);
    var rs, j := RedirsRead(t, i, tos, tail);
    ArgsRead(t, j, args, 0, rest);
    if |args| < MAXARGS {
      var (toks, more, k) := Args(t, j, 0).value;
      NamedConcat(t, rs, more);
      WrapRead(t, Exec(toks), rs + more);
    }
  }

  lemma NotOpen(tos: seq<To>, args: seq<Arg>, rest: seq<Token>)
    requires Stops(rest)
    ensures !Starts(FlatTos(tos) + (FlatArgs(args) + rest), "(")
  {
    if tos == [] {
      assert FlatTos(tos) + (FlatArgs(args) + rest) == FlatArgs(args) + rest;
      if args == [] {
        assert FlatArgs(args) + rest == rest;
      }
    }
  }

  /** A symbol that is peeked is taken off. */
  lemma Took(t: string, i: nat, c: char, tail: seq<Token>)
    requires NoNul(t) && i <= |t| && Symbol(c) && Tokens(t, i) == [Sym(c)] + tail
    ensures Peek(t, i, [c]) && Skip(t, i) < |t| && t[Skip(t, i)] == c
    ensures i < GetToken(t, Skip(t, i)).next && Tokens(t, GetToken(t, Skip(t, i)).next) == tail
  {
    hide GetToken, Tokens;
    PeekIs(t, i, [c]);
    TokensAt(t, i);
    assert ([Sym(c)] + tail)[1..] == tail;
  }

  /** A symbol that is not the one asked for. */
  lemma NotThere(t: string, i: nat, c: char)
    requires NoNul(t) && i <= |t| && Symbol(c) && c != '>' && !Starts(Tokens(t, i), [c])
    ensures !Peek(t, i, [c]) && Tokens(t, Skip(t, i)) == Tokens(t, i)
  {
    PeekIs(t, i, [c]);
    TokensSkip(t, i);
  }

  lemma BracketRead(t: string, i: nat, fits: bool, c: Cmd<string>, mid: seq<Token>, tail: seq<Token>)
    requires NoNul(t) && i <= |t| && Tokens(t, i) == [Sym('(')] + mid
    requires Reads(t, ParseLine(t, GetToken(t, Skip(t, i)).next), fits, c, [Sym(')')] + tail)
    ensures Peek(t, i, "(") && Skip(t, i) < |t| && t[Skip(t, i)] == '('
    ensures Reads(t, Bracketed(t, Skip(t, i)), fits, c, tail)
  {
    hide GetToken, Tokens, ParseLine;
    Took(t, i, '(', mid);
    if fits {
      Took(t, ParseLine(t, GetToken(t, Skip(t, i)).next).value.1, ')', tail);
    }
  }

  lemma AfterBracket(t: string, i: nat, fits: bool, c: Cmd<string>, tos: seq<To>, rest: seq<Token>)
    requires NoNul(t) && i <= |t| && Stops(rest) && Peek(t, i, "(") && Skip(t, i) < |t| && t[Skip(t, i)] == '('
    requires Reads(t, Bracketed(t, Skip(t, i)), fits, c, FlatTos(tos) + rest)
    ensures Reads(t, ParseExec(t, i), fits, Under(c, OpenedAll(tos)), rest)
  {
    hide GetToken, Tokens, Bracketed, Redirs, Wrap;
    if fits {
      var (b, j) := Bracketed(t, Skip(t, i)).value;
      var rs, k := RedirsRead(t, j, tos, rest);
      WrapRead(t, b, rs);
    }
  }

  lemma {:induction false} SimpleRead(t: string, i: nat, x: Simple, rest: seq<Token>)
    requires NoNul(t) && i <= |t| && Tokens(t, i) == FlatSimple(x) + rest && Stops(rest)
    ensures Reads(t, ParseExec(t, i), FitsSimple(x), MeanSimple(x), rest)
    decreases x, 0
  {
    hide GetToken, Tokens, ParseExec, ParseLine, Bracketed, Reads, Stops;
    match x {
      case Plain(tos, args) => PlainRead(t, i, tos, args, rest);
      case Block(l, tos) =>
        var tail := FlatTos(tos) + rest;
        var mid := FlatLine(l) + ([Sym(')')] + tail);
        assert FlatSimple(x) + rest == [Sym('(')] + mid;
        Took(t, i, '(', mid);
        LineRead(t, GetToken(t, Skip(t, i)).next, l, [Sym(')')] + tail);
        BracketRead(t, i, FitsLine(l), MeanLine(l), mid, tail);
        AfterBracket(t, i, FitsLine(l), MeanLine(l), tos, rest);
    }
  }

  lemma OnePipe(t: string, i: nat, fits: bool, c: Cmd<string>, rest: seq<Token>)
    requires NoNul(t) && i <= |t| && Reads(t, ParseExec(t, i), fits, c, rest) && !Starts(rest, "|")
    ensures Reads(t, ParsePipe(t, i), fits, c, rest)
  {
    hide GetToken, Tokens, ParseExec;
    if fits {
      NotThere(t, ParseExec(t, i).value.1, '|');
    }
  }

  lemma MorePipes(t: string, i: nat, fits: bool, c: Cmd<string>, j: nat, more: bool, d: Cmd<string>, tail: seq<Token>,
                  rest: seq<Token>)
    requires NoNul(t) && i <= |t| && Reads(t, ParseExec(t, i), fits, c, [Sym('|')] + tail)
    requires fits ==> j == GetToken(t, Skip(t, ParseExec(t, i).value.1)).next
    requires fits ==> j <= |t| && Reads(t, ParsePipe(t, j), more, d, rest)
    ensures Reads(t, ParsePipe(t, i), fits && more, Pipe(c, d), rest)
  {
    hide GetToken, Tokens, ParseExec;
    if fits {
      Took(t, ParseExec(t, i).value.1, '|', tail);
    }
  }

  lemma {:induction false} PipesRead(t: string, i: nat, x: Pipes, rest: seq<Token>)
    requires NoNul(t) && i <= |t| && Tokens(t, i) == FlatPipes(x) + rest && (rest == [] || Starts(rest, ")&;"))
    ensures Reads(t, ParsePipe(t, i), FitsPipes(x), MeanPipes(x), rest)
    decreases x, 1
  {
    hide GetToken, Tokens, ParseExec, ParsePipe, FlatSimple, FitsSimple, MeanSimple;
    match x {
      case One(s) =>
        SimpleRead(t, i, s, rest);
        OnePipe(t, i, FitsSimple(s), MeanSimple(s), rest);
      case Chain(s, r) =>
        var tail := FlatPipes(r) + rest;
        assert FlatPipes(x) + rest == FlatSimple(s) + ([Sym('|')] + tail);
        SimpleRead(t, i, s, [Sym('|')] + tail);
        var j := 0;
        if FitsSimple(s) {
          Took(t, ParseExec(t, i).value.1, '|', tail);
          j := GetToken(t, Skip(t, ParseExec(t, i).value.1)).next;
          PipesRead(t, j, r, rest);
        }
        MorePipes(t, i, FitsSimple(s), MeanSimple(s), j, FitsPipes(r), MeanPipes(r), tail, rest);
    }
  }

  lemma {:induction false} BacksRead(t: string, i: nat, c: Cmd<Tok>, n: nat, rest: seq<Token>)
    requires NoNul(t) && i <= |t| && Tokens(t, i) == Amps(n) + rest && !Starts(rest, "&")
    ensures var (d, k) := Backs(t, i, c); k <= |t| && Read(t, d) == Behind(Read(t, c), n) && Tokens(t, k) == rest
    decreases n
  {
    hide GetToken, Tokens;
    if n == 0 {
      assert Amps(n) + rest == rest;
      NotThere(t, i, '&');
    } else {
      assert Amps(n) + rest == [Sym('&')] + (Amps(n - 1) + rest);
      Took(t, i, '&', Amps(n - 1) + rest);
      BacksRead(t, GetToken(t, Skip(t, i)).next, Back(c), n - 1, rest);
    }
  }

  lemma LastLine(t: string, i: nat, fits: bool, c: Cmd<string>, n: nat, rest: seq<Token>)
    requires NoNul(t) && i <= |t| && Reads(t, ParsePipe(t, i), fits, c, Amps(n) + rest)
    requires rest == [] || Starts(rest, ")")
    ensures Reads(t, ParseLine(t, i), fits, Behind(c, n), rest)
  {
    hide GetToken, Tokens, ParsePipe, Backs;
    if fits {
      var (b, j) := ParsePipe(t, i).value;
      BacksRead(t, j, b, n, rest);
      NotThere(t, Backs(t, j, b).1, ';');
    }
  }

  lemma MoreLines(t: string, i: nat, fits: bool, c: Cmd<string>, n: nat, l: nat, more: bool, d: Cmd<string>,
                  tail: seq<Token>, rest: seq<Token>)
    requires NoNul(t) && i <= |t| && Reads(t, ParsePipe(t, i), fits, c, Amps(n) + ([Sym(';')] + tail))
    requires fits ==> l <= |t| && l == NextLine(t, i) && Reads(t, ParseLine(t, l), more, d, rest)
    ensures Reads(t, ParseLine(t, i), fits && more, List(Behind(c, n), d), rest)
  {
    hide GetToken, Tokens, ParsePipe, Backs;
    if fits {
      var (b, j) := ParsePipe(t, i).value;
      BacksRead(t, j, b, n, [Sym(';')] + tail);
      Took(t, Backs(t, j, b).1, ';', tail);
    }
  }

  /** Where parseline goes on after a semicolon. */
  function NextLine(t: string, i: nat): nat
    requires i <= |t| && ParsePipe(t, i).Ok?
  {
    var (b, j) := ParsePipe(t, i).value;
    GetToken(t, Skip(t, Backs(t, j, b).1)).next
  }

  lemma NextLineAt(t: string, i: nat, c: Cmd<string>, n: nat, tail: seq<Token>)
    requires NoNul(t) && i <= |t| && Reads(t, ParsePipe(t, i), true, c, Amps(n) + ([Sym(';')] + tail))
    ensures NextLine(t, i) <= |t| && Tokens(t, NextLine(t, i)) == tail
  {
    hide GetToken, Tokens, ParsePipe, Backs;
    var (b, j) := ParsePipe(t, i).value;
    BacksRead(t, j, b, n, [Sym(';')] + tail);
    Took(t, Backs(t, j, b).1, ';', tail);
  }

  lemma {:induction false} LineRead(t: string, i: nat, x: Line, rest: seq<Token>)
    requires NoNul(t) && i <= |t| && Tokens(t, i) == FlatLine(x) + rest && (rest == [] || Starts(rest, ")"))
    ensures Reads(t, ParseLine(t, i), FitsLine(x), MeanLine(x), rest)
    decreases x, 2
  {
    hide GetToken, Tokens, ParseLine, ParsePipe, FlatPipes, FitsPipes, MeanPipes, NextLine, Reads;
    match x {
      case Last(p, n) =>
        assert FlatLine(x) + rest == FlatPipes(p) + (Amps(n) + rest);
        AmpsStart(n, rest);
        PipesRead(t, i, p, Amps(n) + rest);
        LastLine(t, i, FitsPipes(p), MeanPipes(p), n, rest);
      case Then(p, n, r) =>
        var tail := FlatLine(r) + rest;
        var after := Amps(n) + ([Sym(';')] + tail);
        assert FlatLine(x) + rest == FlatPipes(p) + after;
        AmpsStart(n, [Sym(';')] + tail);
        PipesRead(t, i, p, after);
        var l := 0;
        if FitsPipes(p) {
          NextLineAt(t, i, MeanPipes(p), n, tail);
          assert ParsePipe(t, i).Ok? by { ReadsOk(t, ParsePipe(t, i), MeanPipes(p), after); }
          l := NextLine(t, i);
          LineRead(t, l, r, rest);
        }
        MoreLines(t, i, FitsPipes(p), MeanPipes(p), n, l, FitsLine(r), MeanLine(r), tail, rest);
    }
  }

  lemma ReadsOk(t: string, r: Result<(Cmd<Tok>, nat)>, c: Cmd<string>, rest: seq<Token>)
    requires NoNul(t) && Reads(t, r, true, c, rest)
    ensures r.Ok?
  {
  }

  lemma AmpsStart(n: nat, rest: seq<Token>)
    requires rest == [] || Starts(rest, ");")
    ensures Amps(n) + rest == [] || Starts(Amps(n) + rest, ")&;")
  {
    if n == 0 {
      assert Amps(n) + rest == rest;
    }
  }

  /** Any text that is a sentence of the grammar is parsed to what the sentence means, if every command
      in it has at most nine words; otherwise the parser panics. */
  lemma SentenceParses(t: string, x: Line)
    requires NoNul(t) && Tokens(t, 0) == FlatLine(x)
    ensures if FitsLine(x) then ParseCmd(t).Ok? && Read(t, ParseCmd(t).value) == MeanLine(x) else ParseCmd(t) == Panic
  {
    hide ParseLine, Tokens, FlatLine, MeanLine, FitsLine;
    assert FlatLine(x) + [] == FlatLine(x);
    LineRead(t, 0, x, []);
    if FitsLine(x) {
      NoTokens(t, ParseLine(t, 0).value.1);
    }
  }

  // What is parsed is a sentence.

  lemma Regroup(a: seq<Token>, b: seq<Token>, c: seq<Token>, d: seq<Token>)
    ensures a + (b + (c + d)) == a + (b + c) + d
    ensures a + (b + d) == a + b + d
  {
  }

  lemma {:induction false} RedirsSound(t: string, i: nat) returns (tos: seq<To>)
    requires NoNul(t) && i <= |t| && Redirs(t, i).Ok?
    ensures var (rs, j) := Redirs(t, i).value;
            Tokens(t, i) == FlatTos(tos) + Tokens(t, j) && NamedAll(t, rs) == OpenedAll(tos)
    decreases |t| - i
  {
    hide GetToken, Tokens;
    PeekIs(t, i, "<>");
    TokensSkip(t, i);
    TokensAt(t, i);
    if !Peek(t, i, "<>") {
      tos := [];
      assert FlatTos(tos) + Tokens(t, i) == Tokens(t, i);
    } else {
      var op := GetToken(t, Skip(t, i));
      var f := GetToken(t, op.next);
      KindIs(t, op);
      KindIs(t, f);
      TokensAt(t, op.next);
      PeekToken(t, i);
      var (others, j) := Redirs(t, f.next).value;
      var rest := RedirsSound(t, f.next);
      var to := To(if op.kind == '<' then In else if op.kind == '>' then Out else Append, Text(t, f.tok));
      tos := [to] + rest;
      assert tos[1..] == rest;
      assert ([Opening(op.kind, f.tok)] + others)[1..] == others;
      var one, two := [Sym(op.kind)], [Word(to.file)];
      assert one + (two + FlatTos(rest)) == [Sym(op.kind), Word(to.file)] + FlatTos(rest);
      Regroup(one, two, FlatTos(rest), Tokens(t, j));
    }
  }

  lemma {:induction false} ArgsSound(t: string, i: nat, argc: nat) returns (args: seq<Arg>)
    requires NoNul(t) && i <= |t| && Args(t, i, argc).Ok? && argc < MAXARGS
    ensures ArgsGive(t, Args(t, i, argc), args, Tokens(t, Args(t, i, argc).value.2)) && argc + |args| < MAXARGS
    ensures Tokens(t, i) == FlatArgs(args) + Tokens(t, Args(t, i, argc).value.2)
    decreases |t| - i
  {
    hide GetToken, Tokens, Redirs;
    PeekIs(t, i, "|)&;");
    TokensSkip(t, i);
    TokensAt(t, i);
    NoTokens(t, i);
    var a := GetToken(t, Skip(t, i));
    if Peek(t, i, "|)&;") || a.kind == '\0' {
      args := [];
      if a.kind == '\0' {
        AtEnd(t, i);
      }
      assert FlatArgs(args) + Tokens(t, i) == Tokens(t, i);
    } else {
      KindIs(t, a);
      var tos := RedirsSound(t, a.next);
      var (rs, j) := Redirs(t, a.next).value;
      ArgsUnfold(t, i, argc, a, rs, j);
      hide Args;
      var more := ArgsSound(t, j, argc + 1);
      args := [Arg(Text(t, a.tok), tos)] + more;
      assert args[1..] == more;
      var (toks, others, k) := Args(t, j, argc + 1).value;
      NamedConcat(t, rs, others);
      assert ([a.tok] + toks)[1..] == toks;
      Regroup([Word(args[0].word)], FlatTos(tos), FlatArgs(more), Tokens(t, k));
    }
  }

  /** The parser stopped at j, having read the sentence ts with meaning d as tree c. */
  ghost predicate Said(t: string, i: nat, r: Result<(Cmd<Tok>, nat)>, ts: seq<Token>, d: Cmd<string>)
    requires NoNul(t) && i <= |t|
  {
    r.Ok? && r.value.1 <= |t| && Tokens(t, i) == ts + Tokens(t, r.value.1) && Read(t, r.value.0) == d
  }

  lemma PlainSound(t: string, i: nat) returns (x: Simple)
    requires NoNul(t) && i <= |t| && ParseExec(t, i).Ok? && !Peek(t, i, "(")
    ensures x.Plain? && FitsSimple(x) && Said(t, i, ParseExec(t, i), FlatSimple(x), MeanSimple(x))
  {
    hide GetToken, Tokens, Redirs, Args, Wrap;
    var tos := RedirsSound(t, i);
    var (rs, j) := Redirs(t, i).value;
    var args := ArgsSound(t, j, 0);
    var (toks, more, k) := Args(t, j, 0).value;
    NamedConcat(t, rs, more);
    WrapRead(t, Exec(toks), rs + more);
    x := Plain(tos, args);
    Regroup(FlatTos(tos), FlatArgs(args), [], Tokens(t, k));
  }

  /** A symbol that is peeked is the next token. */
  lemma Taken(t: string, i: nat, c: char)
    requires NoNul(t) && i <= |t| && Symbol(c) && c != '>' && Peek(t, i, [c])
    ensures var j := GetToken(t, Skip(t, i)).next; i < j && Tokens(t, i) == [Sym(c)] + Tokens(t, j)
  {
    hide GetToken, Tokens;
    PeekIs(t, i, [c]);
    TokensAt(t, i);
    KindIs(t, GetToken(t, Skip(t, i)));
  }

  lemma BracketSound(t: string, i: nat, x: Line)
    requires NoNul(t) && i <= |t| && Peek(t, i, "(") && Skip(t, i) < |t| && t[Skip(t, i)] == '('
    requires Bracketed(t, Skip(t, i)).Ok?
    requires var j := GetToken(t, Skip(t, i)).next; Said(t, j, ParseLine(t, j), FlatLine(x), MeanLine(x))
    ensures Said(t, i, Bracketed(t, Skip(t, i)), [Sym('(')] + (FlatLine(x) + [Sym(')')]), MeanLine(x))
  {
    hide GetToken, Tokens, ParseLine, FlatLine, MeanLine;
    SkipTwice(t, i);
    Taken(t, i, '(');
    var k := ParseLine(t, GetToken(t, Skip(t, i)).next).value.1;
    Taken(t, k, ')');
    var l := GetToken(t, Skip(t, k)).next;
    assert [Sym('(')] + (FlatLine(x) + ([Sym(')')] + Tokens(t, l)))
           == [Sym('(')] + (FlatLine(x) + [Sym(')')]) + Tokens(t, l);
  }

  lemma BlockSound(t: string, i: nat, x: Line) returns (tos: seq<To>)
    requires NoNul(t) && i <= |t| && Peek(t, i, "(") && ParseExec(t, i).Ok? && Skip(t, i) < |t| && t[Skip(t, i)] == '('
    requires Said(t, i, Bracketed(t, Skip(t, i)), [Sym('(')] + (FlatLine(x) + [Sym(')')]), MeanLine(x))
    ensures Said(t, i, ParseExec(t, i), FlatSimple(Block(x, tos)), MeanSimple(Block(x, tos)))
  {
    hide GetToken, Tokens, Bracketed, Redirs, Wrap, FlatLine, MeanLine;
    var (b, j) := Bracketed(t, Skip(t, i)).value;
    tos := RedirsSound(t, j);
    var (rs, k) := Redirs(t, j).value;
    WrapRead(t, b, rs);
    assert [Sym('(')] + (FlatLine(x) + [Sym(')')]) + (FlatTos(tos) + Tokens(t, k))
           == [Sym('(')] + (FlatLine(x) + ([Sym(')')] + FlatTos(tos))) + Tokens(t, k);
  }

  lemma OpenHere(t: string, i: nat)
    requires i <= |t| && Peek(t, i, "(")
    ensures Skip(t, i) < |t| && t[Skip(t, i)] == '(' && ParseExec(t, i) == ParseBlock(t, Skip(t, i))
  {
  }

  lemma {:induction false} SimpleSound(t: string, i: nat) returns (x: Simple)
    requires NoNul(t) && i <= |t| && ParseExec(t, i).Ok?
    ensures FitsSimple(x) && Said(t, i, ParseExec(t, i), FlatSimple(x), MeanSimple(x))
    decreases |t| - i, 1
  {
    hide GetToken, Tokens, ParseExec, ParseLine, Said;
    if Peek(t, i, "(") {
      OpenHere(t, i);
      Taken(t, i, '(');
      var l := LineSound(t, GetToken(t, Skip(t, i)).next);
      BracketSound(t, i, l);
      var tos := BlockSound(t, i, l);
      x := Block(l, tos);
    } else {
      x := PlainSound(t, i);
    }
  }

  lemma {:induction false} PipesSound(t: string, i: nat) returns (x: Pipes)
    requires NoNul(t) && i <= |t| && ParsePipe(t, i).Ok?
    ensures FitsPipes(x) && Said(t, i, ParsePipe(t, i), FlatPipes(x), MeanPipes(x))
    decreases |t| - i, 2
  {
    hide GetToken, Tokens, ParseExec, FlatSimple, FitsSimple, MeanSimple;
    var s := SimpleSound(t, i);
    var (c, j) := ParseExec(t, i).value;
    if Peek(t, j, "|") {
      Taken(t, j, '|');
      var k := GetToken(t, Skip(t, j)).next;
      var r := PipesSound(t, k);
      x := Chain(s, r);
      var rest := Tokens(t, ParsePipe(t, k).value.1);
      assert FlatSimple(s) + ([Sym('|')] + (FlatPipes(r) + rest)) == FlatSimple(s) + ([Sym('|')] + FlatPipes(r)) + rest;
    } else {
      TokensSkip(t, j);
      x := One(s);
    }
  }

  lemma {:induction false} BacksSound(t: string, i: nat, c: Cmd<Tok>) returns (n: nat)
    requires NoNul(t) && i <= |t|
    ensures var (d, k) := Backs(t, i, c);
            Tokens(t, i) == Amps(n) + Tokens(t, k) && Read(t, d) == Behind(Read(t, c), n)
    decreases |t| - i
  {
    hide GetToken, Tokens;
    if Peek(t, i, "&") {
      Taken(t, i, '&');
      var j := GetToken(t, Skip(t, i)).next;
      var m := BacksSound(t, j, Back(c));
      n := m + 1;
      var rest := Tokens(t, Backs(t, i, c).1);
      assert [Sym('&')] + (Amps(m) + rest) == Amps(n) + rest;
    } else {
      TokensSkip(t, i);
      n := 0;
      assert Amps(0) + Tokens(t, i) == Tokens(t, i);
    }
  }

  lemma {:induction false} LineSound(t: string, i: nat) returns (x: Line)
    requires NoNul(t) && i <= |t| && ParseLine(t, i).Ok?
    ensures FitsLine(x) && Said(t, i, ParseLine(t, i), FlatLine(x), MeanLine(x))
    decreases |t| - i, 3
  {
    hide GetToken, Tokens, ParsePipe, Backs, FlatPipes, FitsPipes, MeanPipes;
    var p := PipesSound(t, i);
    var (c, j) := ParsePipe(t, i).value;
    var n := BacksSound(t, j, c);
    var (d, k) := Backs(t, j, c);
    if Peek(t, k, ";") {
      Taken(t, k, ';');
      var l := GetToken(t, Skip(t, k)).next;
      var r := LineSound(t, l);
      x := Then(p, n, r);
      var rest := Tokens(t, ParseLine(t, l).value.1);
      assert FlatPipes(p) + (Amps(n) + ([Sym(';')] + (FlatLine(r) + rest)))
             == FlatPipes(p) + (Amps(n) + ([Sym(';')] + FlatLine(r))) + rest;
    } else {
      TokensSkip(t, k);
      x := Last(p, n);
      assert FlatPipes(p) + (Amps(n) + Tokens(t, k)) == FlatPipes(p) + Amps(n) + Tokens(t, k);
    }
  }

  /** The parser accepts exactly the sentences of the grammar whose commands have at most nine words. */
  lemma ParsesExactly(t: string)
    requires NoNul(t)
    ensures ParseCmd(t).Ok? <==> exists x: Line :: FlatLine(x) == Tokens(t, 0) && FitsLine(x)
    ensures forall x: Line | FlatLine(x) == Tokens(t, 0) && FitsLine(x) ::
              ParseCmd(t).Ok? && Read(t, ParseCmd(t).value) == MeanLine(x)
  {
    hide ParseLine, Tokens, FlatLine, MeanLine, FitsLine;
    if ParseCmd(t).Ok? {
      var x := LineSound(t, 0);
      NoTokens(t, ParseLine(t, 0).value.1);
      assert FlatLine(x) + [] == FlatLine(x);
    }
    forall x: Line | FlatLine(x) == Tokens(t, 0) && FitsLine(x)
      ensures ParseCmd(t).Ok? && Read(t, ParseCmd(t).value) == MeanLine(x)
    {
      SentenceParses(t, x);
    }
  }
}
