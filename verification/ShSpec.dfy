/** The grammar of user/sh.c as functions of the text and a position in it. */
module ShSpec {

  const SYMBOLS := "<|>&;()"
  const MAXARGS := 10
  const O_RDONLY := 0
  const O_WRONLY := 1
  const O_CREATE := 0x200

  datatype Result<T> = Ok(value: T) | Panic

  /** A token: the text from q up to eq. */
  datatype Tok = Tok(q: nat, eq: nat)

  /** A command whose words are Ws: tokens when parsed, strings when read. */
  datatype Cmd<W> =
    | Exec(argv: seq<W>)
    | Redir(cmd: Cmd<W>, file: W, mode: nat, fd: nat)
    | Pipe(left: Cmd<W>, right: Cmd<W>)
    | List(left: Cmd<W>, right: Cmd<W>)
    | Back(cmd: Cmd<W>)

  // Characters. The vertical tab is spelt out since Dafny has no escape for it.

  predicate Ws(c: char) { c == ' ' || c == '\t' || c == '\r' || c == '\n' || c == '\U{B}' }

  predicate Symbol(c: char) { c in "<|>&;()" }

  predicate WordChar(c: char) { c != '\0' && !Ws(c) && !Symbol(c) }

  /** The character at i; the text ends with a NUL. */
  function At(t: string, i: nat): char { if i < |t| then t[i] else '\0' }

  /** strlen found the end of the text, so it holds no NUL. */
  predicate NoNul(t: string) { forall k | 0 <= k < |t| :: t[k] != '\0' }

  function Skip(t: string, i: nat): (r: nat)
    requires i <= |t|
    ensures i <= r <= |t| && (r < |t| ==> !Ws(t[r])) && forall k | i <= k < r :: Ws(t[k])
    decreases |t| - i
  {
    if i < |t| && Ws(t[i]) then Skip(t, i + 1) else i
  }

  function WordEnd(t: string, i: nat): (r: nat)
    requires i <= |t|
    ensures i <= r <= |t| && (forall k | i <= k < r :: !Ws(t[k]) && !Symbol(t[k]))
    ensures r < |t| ==> Ws(t[r]) || Symbol(t[r])
    decreases |t| - i
  {
    if i < |t| && !Ws(t[i]) && !Symbol(t[i]) then WordEnd(t, i + 1) else i
  }

  // Tokens.

  /** gettoken: its result, the token, and the cursor afterwards. */
  datatype Lexed = Lexed(kind: char, tok: Tok, next: nat)

  function GetToken(t: string, i: nat): (r: Lexed)
    requires i <= |t|
    ensures i <= r.tok.q <= r.tok.eq <= r.next <= |t|
    ensures r.kind != '\0' && NoNul(t) ==> i < r.next
  {
    var q := Skip(t, i);
    var c := At(t, q);
    if c == '\0' then Lexed('\0', Tok(q, q), Skip(t, q))
    else if c == '>' then
      if At(t, q + 1) == '>' then Lexed('+', Tok(q, q + 2), Skip(t, q + 2))
      else Lexed('>', Tok(q, q + 1), Skip(t, q + 1))
    else if Symbol(c) then Lexed(c, Tok(q, q + 1), Skip(t, q + 1))
    else
      var e := WordEnd(t, q);
      Lexed('a', Tok(q, e), Skip(t, e))
  }

  /** peek's answer, once the cursor has moved to Skip(t, i). */
  predicate Peek(t: string, i: nat, toks: string)
    requires i <= |t|
  {
    At(t, Skip(t, i)) != '\0' && At(t, Skip(t, i)) in toks
  }

  /** A peeked symbol is the next token. */
  lemma PeekToken(t: string, i: nat)
    requires i <= |t| && Peek(t, i, SYMBOLS)
    ensures GetToken(t, Skip(t, i)).next > i
    ensures GetToken(t, Skip(t, i)) == GetToken(t, i)
  {
    SkipTwice(t, i);
  }

  lemma SkipTwice(t: string, i: nat)
    requires i <= |t|
    ensures Skip(t, Skip(t, i)) == Skip(t, i)
  {
  }

  // Commands.

  datatype RedirTo = RedirTo(file: Tok, mode: nat, fd: nat)

  function Opening(kind: char, file: Tok): RedirTo {
    if kind == '<' then RedirTo(file, O_RDONLY, 0) else RedirTo(file, O_WRONLY + O_CREATE, 1)
  }

  /** The redirections from i on, in order, and the cursor after them. */
  function Redirs(t: string, i: nat): (r: Result<(seq<RedirTo>, nat)>)
    requires i <= |t|
    ensures r.Ok? ==> i <= r.value.1 <= |t|
    decreases |t| - i
  {
    if !Peek(t, i, "<>") then Ok(([], Skip(t, i)))
    else
      var op := GetToken(t, Skip(t, i));
      var f := GetToken(t, op.next);
      if f.kind != 'a' then Panic
      else
        PeekToken(t, i);
        match Redirs(t, f.next)
        case Panic => Panic
        case Ok((rest, j)) => Ok(([Opening(op.kind, f.tok)] + rest, j))
  }

  /** parseredirs wraps the command once for each redirection, the last outermost. */
  function Wrap(c: Cmd<Tok>, rs: seq<RedirTo>): Cmd<Tok> {
    if rs == [] then c
    else
      var r := rs[|rs| - 1];
      Redir(Wrap(c, rs[..|rs| - 1]), r.file, r.mode, r.fd)
  }

  /** parseexec's loop once it has argc words: the words and redirections still to come. */
  function Args(t: string, i: nat, argc: nat): (r: Result<(seq<Tok>, seq<RedirTo>, nat)>)
    requires i <= |t|
    ensures r.Ok? ==> i <= r.value.2 <= |t|
    decreases |t| - i
  {
    if Peek(t, i, "|)&;") then Ok(([], [], Skip(t, i)))
    else
      var a := GetToken(t, Skip(t, i));
      if a.kind == '\0' then Ok(([], [], a.next))
      else if a.kind != 'a' || argc + 1 >= MAXARGS then Panic
      else
        match Redirs(t, a.next)
        case Panic => Panic
        case Ok((rs, j)) =>
          assert a.next > i;
          match Args(t, j, argc + 1)
          case Panic => Panic
          case Ok((toks, more, k)) => Ok(([a.tok] + toks, rs + more, k))
  }

  function ParseExec(t: string, i: nat): (r: Result<(Cmd<Tok>, nat)>)
    requires i <= |t|
    ensures r.Ok? ==> i <= r.value.1 <= |t|
    decreases |t| - i, 1
  {
    if Peek(t, i, "(") then ParseBlock(t, Skip(t, i))
    else
      match Redirs(t, i)
      case Panic => Panic
      case Ok((rs, j)) =>
        match Args(t, j, 0)
        case Panic => Panic
        case Ok((toks, more, k)) => Ok((Wrap(Exec(toks), rs + more), k))
  }

  /** parseblock up to the closing bracket. */
  function Bracketed(t: string, i: nat): (r: Result<(Cmd<Tok>, nat)>)
    requires i < |t| && t[i] == '('
    ensures r.Ok? ==> i <= r.value.1 <= |t|
    decreases |t| - i, -1
  {
    match ParseLine(t, GetToken(t, i).next)
    case Panic => Panic
    case Ok((c, j)) => if !Peek(t, j, ")") then Panic else Ok((c, GetToken(t, Skip(t, j)).next))
  }

  function ParseBlock(t: string, i: nat): (r: Result<(Cmd<Tok>, nat)>)
    requires i <= |t|
    ensures r.Ok? ==> i <= r.value.1 <= |t|
    decreases |t| - i, 0
  {
    if i == |t| || t[i] != '(' then Panic
    else
      match Bracketed(t, i)
      case Panic => Panic
      case Ok((c, j)) =>
        match Redirs(t, j)
        case Panic => Panic
        case Ok((rs, k)) => Ok((Wrap(c, rs), k))
  }

  function ParsePipe(t: string, i: nat): (r: Result<(Cmd<Tok>, nat)>)
    requires i <= |t|
    ensures r.Ok? ==> i <= r.value.1 <= |t|
    decreases |t| - i, 2
  {
    match ParseExec(t, i)
    case Panic => Panic
    case Ok((c, j)) =>
      if !Peek(t, j, "|") then Ok((c, Skip(t, j)))
      else
        PeekToken(t, j);
        match ParsePipe(t, GetToken(t, Skip(t, j)).next)
        case Panic => Panic
        case Ok((d, k)) => Ok((Pipe(c, d), k))
  }

  /** parseline's loop over &. */
  function Backs(t: string, i: nat, c: Cmd<Tok>): (r: (Cmd<Tok>, nat))
    requires i <= |t|
    ensures i <= r.1 <= |t|
    decreases |t| - i
  {
    if !Peek(t, i, "&") then (c, Skip(t, i))
    else
      PeekToken(t, i);
      Backs(t, GetToken(t, Skip(t, i)).next, Back(c))
  }

  function ParseLine(t: string, i: nat): (r: Result<(Cmd<Tok>, nat)>)
    requires i <= |t|
    ensures r.Ok? ==> i <= r.value.1 <= |t|
    decreases |t| - i, 3
  {
    match ParsePipe(t, i)
    case Panic => Panic
    case Ok((c, j)) =>
      var (d, k) := Backs(t, j, c);
      if !Peek(t, k, ";") then Ok((d, Skip(t, k)))
      else
        PeekToken(t, k);
        match ParseLine(t, GetToken(t, Skip(t, k)).next)
        case Panic => Panic
        case Ok((e, l)) => Ok((List(d, e), l))
  }

  /** parsecmd before nulterminate. */
  function ParseCmd(t: string): Result<Cmd<Tok>> {
    match ParseLine(t, 0)
    case Panic => Panic
    case Ok((c, j)) => if Skip(t, j) != |t| then Panic else Ok(c)
  }
}
