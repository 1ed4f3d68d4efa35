/** Tokens never overlap one another's ends, so cutting them apart with NULs leaves each readable. */
module ShTokens {
  import opened ShSpec
  import opened Sh

  /** A maximal run of word characters. */
  predicate TokOk(t: string, tok: Tok) {
    && tok.q < tok.eq <= |t|
    && (forall k | tok.q <= k < tok.eq :: WordChar(t[k]))
    && (tok.eq < |t| ==> !WordChar(t[tok.eq]))
  }

  predicate AllOk(t: string, toks: seq<Tok>) { forall k | 0 <= k < |toks| :: TokOk(t, toks[k]) }

  /** The words and file names of a command. */
  function Toks(c: Cmd<Tok>): seq<Tok> {
    match c
    case Exec(argv) => argv
    case Redir(d, f, _, _) => Toks(d) + [f]
    case Pipe(l, r) => Toks(l) + Toks(r)
    case List(l, r) => Toks(l) + Toks(r)
    case Back(d) => Toks(d)
  }

  // Every token the parser hands out is a maximal word.

  lemma WordToken(t: string, i: nat)
    requires i <= |t| && NoNul(t) && GetToken(t, i).kind == 'a'
    ensures TokOk(t, GetToken(t, i).tok)
  {
  }

  predicate AllFilesOk(t: string, rs: seq<RedirTo>) { forall k | 0 <= k < |rs| :: TokOk(t, rs[k].file) }

  lemma {:induction false} RedirsOk(t: string, i: nat)
    requires i <= |t| && NoNul(t) && Redirs(t, i).Ok?
    ensures AllFilesOk(t, Redirs(t, i).value.0)
    decreases |t| - i
  {
    hide TokOk, GetToken;
    if Peek(t, i, "<>") {
      PeekToken(t, i);
      var f := GetToken(t, GetToken(t, Skip(t, i)).next);
      WordToken(t, GetToken(t, Skip(t, i)).next);
      RedirsOk(t, f.next);
    }
  }

  lemma {:induction false} ArgsOk(t: string, i: nat, argc: nat)
    requires i <= |t| && NoNul(t) && Args(t, i, argc).Ok?
    ensures AllOk(t, Args(t, i, argc).value.0) && AllFilesOk(t, Args(t, i, argc).value.1)
    decreases |t| - i
  {
    hide TokOk, GetToken, Redirs;
    if !Peek(t, i, "|)&;") {
      var a := GetToken(t, Skip(t, i));
      if a.kind != '\0' {
        TokenAdvances(t, i);
        WordToken(t, Skip(t, i));
        RedirsOk(t, a.next);
        var (rs, j) := Redirs(t, a.next).value;
        ArgsOk(t, j, argc + 1);
      }
    }
  }

  lemma {:induction false} WrapOk(t: string, c: Cmd<Tok>, rs: seq<RedirTo>)
    requires AllOk(t, Toks(c)) && AllFilesOk(t, rs)
    ensures AllOk(t, Toks(Wrap(c, rs)))
  {
    hide TokOk;
    if rs != [] {
      WrapOk(t, c, rs[..|rs| - 1]);
    }
  }

  lemma {:induction false} ExecOk(t: string, i: nat)
    requires i <= |t| && NoNul(t) && ParseExec(t, i).Ok?
    ensures AllOk(t, Toks(ParseExec(t, i).value.0))
    decreases |t| - i, 1
  {
    hide TokOk, GetToken, Redirs, Args, ParseBlock;
    if Peek(t, i, "(") {
      BlockOk(t, Skip(t, i));
    } else {
      RedirsOk(t, i);
      var (rs, j) := Redirs(t, i).value;
      ArgsOk(t, j, 0);
      var (toks, more, k) := Args(t, j, 0).value;
      WrapOk(t, Exec(toks), rs + more);
    }
  }

  lemma {:induction false} BlockOk(t: string, i: nat)
    requires i <= |t| && NoNul(t) && ParseBlock(t, i).Ok?
    ensures AllOk(t, Toks(ParseBlock(t, i).value.0))
    decreases |t| - i, 0
  {
    hide TokOk, Redirs, ParseLine;
    LineOk(t, GetToken(t, i).next);
    var (c, j) := Bracketed(t, i).value;
    RedirsOk(t, j);
    WrapOk(t, c, Redirs(t, j).value.0);
  }

  lemma {:induction false} PipeOk(t: string, i: nat)
    requires i <= |t| && NoNul(t) && ParsePipe(t, i).Ok?
    ensures AllOk(t, Toks(ParsePipe(t, i).value.0))
    decreases |t| - i, 2
  {
    hide TokOk, GetToken, ParseExec;
    ExecOk(t, i);
    var (c, j) := ParseExec(t, i).value;
    if Peek(t, j, "|") {
      PeekToken(t, j);
      PipeOk(t, GetToken(t, Skip(t, j)).next);
    }
  }

  lemma {:induction false} BacksOk(t: string, i: nat, c: Cmd<Tok>)
    requires i <= |t| && AllOk(t, Toks(c))
    ensures AllOk(t, Toks(Backs(t, i, c).0))
    decreases |t| - i
  {
    hide TokOk, GetToken;
    if Peek(t, i, "&") {
      PeekToken(t, i);
      BacksOk(t, GetToken(t, Skip(t, i)).next, Back(c));
    }
  }

  /** So every token of a parsed command is a maximal word of the text. */
  lemma {:induction false} LineOk(t: string, i: nat)
    requires i <= |t| && NoNul(t) && ParseLine(t, i).Ok?
    ensures AllOk(t, Toks(ParseLine(t, i).value.0))
    decreases |t| - i, 3
  {
    hide TokOk, GetToken, ParsePipe, Backs;
    PipeOk(t, i);
    var (c, j) := ParsePipe(t, i).value;
    BacksOk(t, j, c);
    var k := Backs(t, j, c).1;
    if Peek(t, k, ";") {
      PeekToken(t, k);
      LineOk(t, GetToken(t, Skip(t, k)).next);
    }
  }

  // Cutting.

  ghost predicate EndsAt(toks: seq<Tok>, k: int) { exists m :: 0 <= m < |toks| && toks[m].eq == k }

  /** The buffer after nulterminate: the text with a NUL at the end of every token. */
  ghost predicate Cut(t: string, toks: seq<Tok>, buf: seq<char>) {
    && |buf| == |t| + 1 && buf[|t|] == '\0'
    && forall k | 0 <= k < |t| :: buf[k] == if EndsAt(toks, k) then '\0' else t[k]
  }

  /** The string a C program reads at q. */
  function CString(buf: seq<char>, q: nat): string
    decreases |buf| - q
  {
    if q >= |buf| || buf[q] == '\0' then "" else [buf[q]] + CString(buf, q + 1)
  }

  lemma {:induction false} CStringIs(buf: seq<char>, q: nat, e: nat)
    requires q <= e < |buf| && buf[e] == '\0' && forall k | q <= k < e :: buf[k] != '\0'
    ensures CString(buf, q) == buf[q..e]
    decreases e - q
  {
    if q < e {
      CStringIs(buf, q + 1, e);
    }
  }

  /** Every token reads as exactly its own text: no token ends inside another. */
  lemma TokensReadable(t: string, toks: seq<Tok>, buf: seq<char>, m: nat)
    requires AllOk(t, toks) && Cut(t, toks, buf) && m < |toks|
    ensures toks[m].q <= toks[m].eq <= |t| && CString(buf, toks[m].q) == t[toks[m].q..toks[m].eq]
  {
    var tok := toks[m];
    assert TokOk(t, tok);
    forall k | tok.q <= k < tok.eq ensures buf[k] == t[k] && buf[k] != '\0' {
      forall n | 0 <= n < |toks| ensures toks[n].eq != k {
        assert TokOk(t, toks[n]);
      }
    }
    if tok.eq < |t| {
      assert EndsAt(toks, tok.eq);
    }
    CStringIs(buf, tok.q, tok.eq);
    assert buf[tok.q..tok.eq] == t[tok.q..tok.eq];
  }

  ghost predicate InBuffer(toks: seq<Tok>, n: nat) { forall m | 0 <= m < |toks| :: toks[m].eq < n }

  /** nulterminate */
  method Nulterminate(buf: array<char>, c: Cmd<Tok>)
    requires InBuffer(Toks(c), buf.Length)
    modifies buf
    ensures forall k | 0 <= k < buf.Length :: buf[k] == if EndsAt(Toks(c), k) then '\0' else old(buf[k])
    decreases c
  {
    match c {
      case Exec(argv) =>
        for i := 0 to |argv|
          invariant forall k | 0 <= k < buf.Length :: buf[k] == if EndsAt(argv[..i], k) then '\0' else old(buf[k])
        {
          EndsSnoc(argv[..i], argv[i]);
          assert argv[..i + 1] == argv[..i] + [argv[i]];
          buf[argv[i].eq] := '\0';
        }
        assert argv[..|argv|] == argv;
      case Redir(d, f, _, _) =>
        InParts(Toks(d), [f], buf.Length);
        assert [f][0] == f;
        Nulterminate(buf, d);
        EndsSnoc(Toks(d), f);
        buf[f.eq] := '\0';
      case Pipe(l, r) =>
        InParts(Toks(l), Toks(r), buf.Length);
        EndsAppend(Toks(l), Toks(r));
        Nulterminate(buf, l);
        Nulterminate(buf, r);
      case List(l, r) =>
        InParts(Toks(l), Toks(r), buf.Length);
        EndsAppend(Toks(l), Toks(r));
        Nulterminate(buf, l);
        Nulterminate(buf, r);
      case Back(d) => Nulterminate(buf, d);
    }
  }

  lemma EndsAppend(a: seq<Tok>, b: seq<Tok>)
    ensures forall k :: EndsAt(a + b, k) <==> EndsAt(a, k) || EndsAt(b, k)
  {
    forall k ensures EndsAt(a + b, k) <==> EndsAt(a, k) || EndsAt(b, k) {
      if EndsAt(a, k) {
        var m :| 0 <= m < |a| && a[m].eq == k;
        assert (a + b)[m].eq == k;
      }
      if EndsAt(b, k) {
        var m :| 0 <= m < |b| && b[m].eq == k;
        assert (a + b)[|a| + m].eq == k;
      }
    }
  }

  lemma EndsSnoc(a: seq<Tok>, tok: Tok)
    ensures forall k :: EndsAt(a + [tok], k) <==> EndsAt(a, k) || k == tok.eq
  {
    EndsAppend(a, [tok]);
    assert [tok][0] == tok;
  }

  lemma InParts(a: seq<Tok>, b: seq<Tok>, n: nat)
    requires InBuffer(a + b, n)
    ensures InBuffer(a, n) && InBuffer(b, n)
  {
    forall m | 0 <= m < |a| ensures a[m].eq < n {
      assert (a + b)[m] == a[m];
    }
    forall m | 0 <= m < |b| ensures b[m].eq < n {
      assert (a + b)[|a| + m] == b[m];
    }
  }

  /** parsecmd on a buffer that holds a string: the tree, with every word of it readable in place. */
  method Parsecmd(buf: array<char>) returns (r: Result<Cmd<Tok>>)
    requires buf.Length > 0 && buf[buf.Length - 1] == '\0' && NoNul(buf[..buf.Length - 1])
    modifies buf
    ensures r == ParseCmd(old(buf[..buf.Length - 1]))
    ensures r.Panic? ==> buf[..] == old(buf[..])
    ensures r.Ok? ==> forall m | 0 <= m < |Toks(r.value)| ::
              var tok := Toks(r.value)[m];
              && tok.q < tok.eq <= buf.Length - 1
              && CString(buf[..], tok.q) == old(buf[..buf.Length - 1])[tok.q..tok.eq]
  {
    hide ParseLine, Toks;
    var t := buf[..buf.Length - 1];
    var p := new Parser(t);
    r := p.Parseline();
    if r.Panic? {
      return;
    }
    var _ := p.PeekFor("");
    if p.ps != |t| {
      return Panic;
    }
    LineOk(t, 0);
    ghost var toks := Toks(r.value);
    forall m | 0 <= m < |toks| ensures toks[m].eq < buf.Length {
      assert TokOk(t, toks[m]);
    }
    Nulterminate(buf, r.value);
    ghost var cut := buf[..];
    assert Cut(t, toks, cut);
    forall m | 0 <= m < |toks|
      ensures toks[m].q < toks[m].eq <= |t| && CString(cut, toks[m].q) == t[toks[m].q..toks[m].eq]
    {
      assert TokOk(t, toks[m]);
      TokensReadable(t, toks, cut, m);
    }
  }
}
