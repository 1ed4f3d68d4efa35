/** The parser of user/sh.c as written: recursive descent over a shared cursor, and nulterminate,
    which cuts the tokens apart in the input buffer. */
module Sh {
  import opened ShSpec

  class Parser {
    const t: string
    var ps: nat

    predicate Valid()
      reads this
    {
      ps <= |t|
    }

    constructor (s: string)
      ensures Valid() && t == s && ps == 0
    {
      t := s;
      ps := 0;
    }

    method SkipSpace()
      requires Valid()
      modifies this
      ensures Valid() && ps == Skip(t, old(ps))
    {
      while ps < |t| && Ws(t[ps])
        invariant Valid() && Skip(t, ps) == Skip(t, old(ps))
        decreases |t| - ps
      {
        ps := ps + 1;
      }
    }

    method Gettoken() returns (kind: char, q: nat, eq: nat)
      requires Valid()
      modifies this
      ensures Valid() && Lexed(kind, Tok(q, eq), ps) == GetToken(t, old(ps))
    {
      SkipSpace();
      q := ps;
      kind := At(t, ps);
      if kind == '\0' {
      } else if kind == '>' {
        ps := ps + 1;
        if At(t, ps) == '>' {
          kind := '+';
          ps := ps + 1;
        }
      } else if Symbol(kind) {
        ps := ps + 1;
      } else {
        kind := 'a';
        while ps < |t| && !Ws(t[ps]) && !Symbol(t[ps])
          invariant Valid() && WordEnd(t, ps) == WordEnd(t, q)
          decreases |t| - ps
        {
          ps := ps + 1;
        }
      }
      eq := ps;
      SkipSpace();
    }

    method PeekFor(toks: string) returns (b: bool)
      requires Valid()
      modifies this
      ensures Valid() && ps == Skip(t, old(ps)) && b == Peek(t, old(ps), toks)
    {
      SkipSpace();
      b := At(t, ps) != '\0' && At(t, ps) in toks;
    }

    /** parseredirs: the redirections in order. */
    method Parseredirs() returns (r: Result<seq<RedirTo>>)
      requires Valid()
      modifies this
      ensures Valid() && ps >= old(ps)
      ensures match Redirs(t, old(ps)) case Panic => r == Panic case Ok((rs, j)) => r == Ok(rs) && ps == j
    {
      hide GetToken;
      var rs: seq<RedirTo> := [];
      ghost var whole := Redirs(t, ps);
      AfterNone(whole);
      while true
        invariant Valid() && ps >= old(ps)
        invariant After(rs, Redirs(t, ps)) == whole
        decreases |t| - ps
      {
        ghost var i := ps;
        var more := PeekFor("<>");
        if !more {
          assert rs + [] == rs;
          return Ok(rs);
        }
        PeekToken(t, i);
        var tok, _, _ := Gettoken();
        var kind, q, eq := Gettoken();
        if kind != 'a' {
          return Panic;
        }
        AfterMore(rs, [Opening(tok, Tok(q, eq))], Redirs(t, ps));
        rs := rs + [Opening(tok, Tok(q, eq))];
      }
    }

    method Parseexec() returns (r: Result<Cmd<Tok>>)
      requires Valid()
      modifies this
      ensures Valid() && ps >= old(ps) && Agrees(r, ps, ParseExec(t, old(ps)))
      decreases |t| - ps, 2
    {
      hide Redirs, GetToken, ParseBlock, Args;
      var open := PeekFor("(");
      if open {
        SkipTwice(t, old(ps));
        r := Parseblock();
        return;
      }
      RedirsSkip(t, old(ps));
      var first := Parseredirs();
      if first.Panic? {
        return Panic;
      }
      var rest := Parseargs();
      if rest.Panic? {
        return Panic;
      }
      return Ok(Wrap(Exec(rest.value.0), first.value + rest.value.1));
    }

    /** parseexec's loop: the words and the redirections among them. */
    method Parseargs() returns (r: Result<(seq<Tok>, seq<RedirTo>)>)
      requires Valid()
      modifies this
      ensures Valid() && ps >= old(ps)
      ensures match Args(t, old(ps), 0)
              case Panic => r == Panic
              case Ok((toks, rs, j)) => r == Ok((toks, rs)) && ps == j
    {
      hide Redirs, GetToken;
      var toks: seq<Tok>, rs: seq<RedirTo> := [], [];
      ghost var whole := Args(t, ps, 0);
      AfterNoArgs(whole);
      while true
        invariant Valid() && ps >= old(ps) && |toks| < MAXARGS
        invariant AfterArgs(toks, rs, Args(t, ps, |toks|)) == whole
        decreases |t| - ps
      {
        ghost var i := ps;
        var stop := PeekFor("|)&;");
        if stop {
          assert toks + [] == toks && rs + [] == rs;
          return Ok((toks, rs));
        }
        TokenAdvances(t, i);
        var kind, q, eq := Gettoken();
        if kind == '\0' {
          assert toks + [] == toks && rs + [] == rs;
          return Ok((toks, rs));
        }
        if kind != 'a' || |toks| + 1 >= MAXARGS {
          return Panic;
        }
        var more := Parseredirs();
        if more.Panic? {
          return Panic;
        }
        AfterMoreArgs(toks, rs, [Tok(q, eq)], more.value, Args(t, ps, |toks| + 1));
        toks, rs := toks + [Tok(q, eq)], rs + more.value;
      }
    }

    method Parseblock() returns (r: Result<Cmd<Tok>>)
      requires Valid() && Skip(t, ps) == ps
      modifies this
      ensures Valid() && ps >= old(ps) && Agrees(r, ps, ParseBlock(t, old(ps)))
      decreases |t| - ps, 1
    {
      hide Redirs, ParseLine, Wrap;
      var open := PeekFor("(");
      if !open {
        return Panic;
      }
      PeekToken(t, ps);
      var _, _, _ := Gettoken();
      var line := Parseline();
      if line.Panic? {
        return Panic;
      }
      var close := PeekFor(")");
      if !close {
        return Panic;
      }
      var _, _, _ := Gettoken();
      var rs := Parseredirs();
      if rs.Panic? {
        return Panic;
      }
      return Ok(Wrap(line.value, rs.value));
    }

    method Parsepipe() returns (r: Result<Cmd<Tok>>)
      requires Valid()
      modifies this
      ensures Valid() && ps >= old(ps) && Agrees(r, ps, ParsePipe(t, old(ps)))
      decreases |t| - ps, 3
    {
      hide ParseExec, GetToken;
      r := Parseexec();
      if r.Panic? {
        return;
      }
      ghost var j := ps;
      var bar := PeekFor("|");
      if bar {
        PeekToken(t, j);
        var _, _, _ := Gettoken();
        var right := Parsepipe();
        if right.Panic? {
          return Panic;
        }
        return Ok(Pipe(r.value, right.value));
      }
    }

    method Parseline() returns (r: Result<Cmd<Tok>>)
      requires Valid()
      modifies this
      ensures Valid() && ps >= old(ps) && Agrees(r, ps, ParseLine(t, old(ps)))
      decreases |t| - ps, 4
    {
      hide ParsePipe, GetToken;
      r := Parsepipe();
      if r.Panic? {
        return;
      }
      var c := Parsebacks(r.value);
      ghost var k := ps;
      SkipTwice(t, k);
      var semi := PeekFor(";");
      if semi {
        PeekToken(t, k);
        var _, _, _ := Gettoken();
        var rest := Parseline();
        if rest.Panic? {
          return Panic;
        }
        return Ok(List(c, rest.value));
      }
      return Ok(c);
    }

    /** parseline's loop over &. */
    method Parsebacks(cmd: Cmd<Tok>) returns (c: Cmd<Tok>)
      requires Valid()
      modifies this
      ensures Valid() && ps >= old(ps) && (c, ps) == Backs(t, old(ps), cmd)
    {
      hide GetToken;
      c := cmd;
      while true
        invariant Valid() && ps >= old(ps) && Backs(t, ps, c) == Backs(t, old(ps), cmd)
        decreases |t| - ps
      {
        ghost var i := ps;
        var amp := PeekFor("&");
        if !amp {
          return;
        }
        PeekToken(t, i);
        var _, _, _ := Gettoken();
        c := Back(c);
      }
    }
  }

  /** What has been read so far, followed by the result for the rest. */
  function After(rs: seq<RedirTo>, r: Result<(seq<RedirTo>, nat)>): Result<(seq<RedirTo>, nat)> {
    match r case Panic => Panic case Ok((more, j)) => Ok((rs + more, j))
  }

  lemma AfterNone(r: Result<(seq<RedirTo>, nat)>)
    ensures After([], r) == r
  {
    assert r.Ok? ==> [] + r.value.0 == r.value.0;
  }

  lemma AfterMore(a: seq<RedirTo>, b: seq<RedirTo>, r: Result<(seq<RedirTo>, nat)>)
    ensures After(a, After(b, r)) == After(a + b, r)
  {
    assert r.Ok? ==> a + (b + r.value.0) == a + b + r.value.0;
  }

  function AfterArgs(toks: seq<Tok>, rs: seq<RedirTo>,
                     r: Result<(seq<Tok>, seq<RedirTo>, nat)>): Result<(seq<Tok>, seq<RedirTo>, nat)> {
    match r case Panic => Panic case Ok((more, rest, j)) => Ok((toks + more, rs + rest, j))
  }

  lemma AfterNoArgs(r: Result<(seq<Tok>, seq<RedirTo>, nat)>)
    ensures AfterArgs([], [], r) == r
  {
    assert r.Ok? ==> [] + r.value.0 == r.value.0 && [] + r.value.1 == r.value.1;
  }

  lemma AfterMoreArgs(a: seq<Tok>, x: seq<RedirTo>, b: seq<Tok>, y: seq<RedirTo>,
                      r: Result<(seq<Tok>, seq<RedirTo>, nat)>)
    ensures AfterArgs(a, x, AfterArgs(b, y, r)) == AfterArgs(a + b, x + y, r)
  {
    assert r.Ok? ==> a + (b + r.value.0) == a + b + r.value.0 && x + (y + r.value.1) == x + y + r.value.1;
  }

  predicate Agrees(r: Result<Cmd<Tok>>, ps: nat, spec: Result<(Cmd<Tok>, nat)>) {
    match spec
    case Panic => r == Panic
    case Ok((c, j)) => r == Ok(c) && ps == j
  }

  lemma RedirsSkip(t: string, i: nat)
    requires i <= |t|
    ensures Redirs(t, Skip(t, i)) == Redirs(t, i)
  {
    SkipTwice(t, i);
  }

  lemma TokenAdvances(t: string, i: nat)
    requires i <= |t|
    ensures GetToken(t, Skip(t, i)).kind != '\0' ==> GetToken(t, Skip(t, i)).next > i
  {
  }
}
