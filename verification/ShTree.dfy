/** Trees of words behind trees of tokens, and text at a position. */
module ShTree {
  import opened ShSpec

  predicate IsWord(w: string) { |w| > 0 && forall k | 0 <= k < |w| :: w[k] !in "\0 \t\r\n\U{B}<|>&;()" }

  /** Trees the parser can build: proper words, and one of the two ways to open a file. */
  predicate Good(c: Cmd<string>) {
    match c
    case Exec(argv) => forall k | 0 <= k < |argv| :: IsWord(argv[k])
    case Redir(d, f, mode, fd) => Good(d) && IsWord(f)
                                  && ((mode == O_RDONLY && fd == 0) || (mode == O_WRONLY + O_CREATE && fd == 1))
    case Pipe(l, r) => Good(l) && Good(r)
    case List(l, r) => Good(l) && Good(r)
    case Back(d) => Good(d)
  }

  /** Every simple command has at most nine words. */
  predicate Fits(c: Cmd<string>) {
    match c
    case Exec(argv) => |argv| <= 9
    case Redir(d, _, _, _) => Fits(d)
    case Pipe(l, r) => Fits(l) && Fits(r)
    case List(l, r) => Fits(l) && Fits(r)
    case Back(d) => Fits(d)
  }

  /** The words a token stands for. */
  function Text(t: string, tok: Tok): string {
    if tok.q <= tok.eq <= |t| then t[tok.q..tok.eq] else ""
  }

  function Texts(t: string, toks: seq<Tok>): (r: seq<string>)
    ensures |r| == |toks|
  {
    if toks == [] then [] else [Text(t, toks[0])] + Texts(t, toks[1..])
  }

  /** The tree of words behind a tree of tokens. */
  function Read(t: string, c: Cmd<Tok>): Cmd<string> {
    match c
    case Exec(toks) => Exec(Texts(t, toks))
    case Redir(d, f, mode, fd) => Redir(Read(t, d), Text(t, f), mode, fd)
    case Pipe(l, r) => Pipe(Read(t, l), Read(t, r))
    case List(l, r) => List(Read(t, l), Read(t, r))
    case Back(d) => Back(Read(t, d))
  }

  // Text at a position.

  predicate Here(t: string, i: nat, s: string) { i + |s| <= |t| && t[i..i + |s|] == s }

  lemma HereAt(t: string, i: nat, s: string, k: nat)
    requires Here(t, i, s) && k < |s|
    ensures t[i + k] == s[k]
  {
    assert t[i..i + |s|][k] == s[k];
  }

  // Words in the text.

  lemma {:induction false} WordEndHere(t: string, i: nat, w: string, k: nat)
    requires Here(t, i, w) && IsWord(w) && k <= |w|
    requires i + |w| == |t| || Ws(t[i + |w|]) || Symbol(t[i + |w|])
    ensures WordEnd(t, i + k) == i + |w|
    decreases |w| - k
  {
    if k < |w| {
      HereAt(t, i, w, k);
      WordEndHere(t, i, w, k + 1);
    }
  }

  lemma WordHere(t: string, i: nat, w: string)
    requires Here(t, i, w) && IsWord(w) && (i + |w| == |t| || Ws(t[i + |w|]) || Symbol(t[i + |w|]))
    ensures Skip(t, i) == i && At(t, i) == w[0] && WordChar(w[0])
    ensures GetToken(t, i) == Lexed('a', Tok(i, i + |w|), Skip(t, i + |w|)) && Text(t, Tok(i, i + |w|)) == w
  {
    HereAt(t, i, w, 0);
    WordEndHere(t, i, w, 0);
  }
}
