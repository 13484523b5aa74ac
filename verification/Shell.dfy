/** The parser of sh.c as it is written: positions move along the text, loops skip blanks and collect
    words, and the text itself is cut into strings in place at the end. A simple command is put
    together after its words are read, where sh.c fills its node through a second pointer. */
module Shell {
  import opened Options
  import G = ShellGrammar
  import opened ShellText
  import opened ShellWords

  type Place = G.Place
  type Cmd = G.Cmd<G.Place>
  type Found = Option<G.Parsed<G.Cmd<G.Place>>>

  method SkipBlanks(s: string, i: nat) returns (j: nat)
    requires i <= |s|
    ensures j == G.Skip(s, i)
  {
    j := i;
    while j < |s| && G.IsSpace(s[j])
      invariant i <= j <= |s| && G.Skip(s, j) == G.Skip(s, i)
    {
      j := j + 1;
    }
  }

  method GetToken(s: string, i: nat) returns (t: G.Token)
    requires i <= |s|
    ensures t == G.TokenAt(s, i)
  {
    var q := SkipBlanks(s, i);
    var e := q;
    var kind := G.End;
    if e < |s| {
      if s[e] == '>' {
        kind, e := G.Symbol('>'), e + 1;
        if e < |s| && s[e] == '>' {
          kind, e := G.Append, e + 1;
        }
      } else if G.IsSymbol(s[e]) {
        kind, e := G.Symbol(s[e]), e + 1;
      } else {
        kind := G.Word;
        while e < |s| && !G.IsSpace(s[e]) && !G.IsSymbol(s[e])
          invariant q <= e <= |s| && G.WordEnd(s, e) == G.WordEnd(s, q)
        {
          e := e + 1;
        }
      }
    }
    var next := SkipBlanks(s, e);
    t := G.Token(kind, q, e, next);
  }

  method Peek(s: string, i: nat, toks: string) returns (found: bool, j: nat)
    requires i <= |s|
    ensures j == G.Skip(s, i) && found == G.Peek(s, i, toks)
  {
    j := SkipBlanks(s, i);
    found := j < |s| && s[j] in toks;
  }

  method ParseRedirs(s: string, i: nat, before: seq<G.Redirection>) returns (r: Option<G.Parsed<seq<G.Redirection>>>)
    requires i <= |s|
    ensures r == G.Redirs(s, i, before)
  {
    var rs := before;
    var more, j := Peek(s, i, "<>");
    SkipTwice(s, i);
    while more
      invariant j <= |s| && G.Skip(s, j) == j && more == G.Peek(s, j, "<>")
      invariant G.Redirs(s, j, rs) == G.Redirs(s, i, before)
      decreases |s| - j
    {
      var sign := GetToken(s, j);
      var file := GetToken(s, sign.next);
      if file.kind != G.Word {
        return None;
      }
      rs := rs + [G.Redirection(G.Place(file.q, file.eq), G.ModeOf(sign.kind))];
      SkipTwice(s, file.next);
      more, j := Peek(s, file.next, "<>");
    }
    r := Some(G.Parsed(rs, j));
  }

  /** Skipping blanks again changes nothing. */
  lemma SkipTwice(s: string, i: nat)
    requires i <= |s|
    ensures G.Skip(s, G.Skip(s, i)) == G.Skip(s, i)
    ensures forall toks :: G.Peek(s, G.Skip(s, i), toks) == G.Peek(s, i, toks)
    ensures forall rs :: G.Redirs(s, G.Skip(s, i), rs) == G.Redirs(s, i, rs)
    ensures forall c :: G.Backs(s, G.Skip(s, i), c) == G.Backs(s, i, c)
    ensures forall argv, rs :: G.Args(s, G.Skip(s, i), argv, rs) == G.Args(s, i, argv, rs)
  {
  }

  method ParseLine(s: string, i: nat) returns (r: Found)
    requires i <= |s|
    ensures r == G.ParseLine(s, i)
    decreases |s| - i, 4
  {
    var p := ParsePipe(s, i);
    if p.None? {
      return None;
    }
    var cmd := p.value.value;
    var more, j := Peek(s, p.value.next, "&");
    SkipTwice(s, p.value.next);
    while more
      invariant i <= j <= |s| && G.Skip(s, j) == j && more == G.Peek(s, j, "&")
      invariant G.Backs(s, j, cmd) == G.Backs(s, p.value.next, p.value.value)
      decreases |s| - j
    {
      var t := GetToken(s, j);
      cmd := G.Back(cmd);
      SkipTwice(s, t.next);
      more, j := Peek(s, t.next, "&");
    }
    var semi, k := Peek(s, j, ";");
    if semi {
      var t := GetToken(s, k);
      var l := ParseLine(s, t.next);
      if l.None? {
        return None;
      }
      return Some(G.Parsed(G.List(cmd, l.value.value), l.value.next));
    }
    r := Some(G.Parsed(cmd, k));
  }

  method ParsePipe(s: string, i: nat) returns (r: Found)
    requires i <= |s|
    ensures r == G.ParsePipe(s, i)
    decreases |s| - i, 3
  {
    var p := ParseExec(s, i);
    if p.None? {
      return None;
    }
    var bar, j := Peek(s, p.value.next, "|");
    if bar {
      var t := GetToken(s, j);
      var l := ParsePipe(s, t.next);
      if l.None? {
        return None;
      }
      return Some(G.Parsed(G.Pipe(p.value.value, l.value.value), l.value.next));
    }
    r := Some(G.Parsed(p.value.value, j));
  }

  method ParseExec(s: string, i: nat) returns (r: Found)
    requires i <= |s|
    ensures r == G.ParseExec(s, i)
    decreases |s| - i, 2
  {
    var paren, j := Peek(s, i, "(");
    if paren {
      r := ParseBlock(s, j);
      return;
    }
    var rs := ParseRedirs(s, j, []);
    if rs.None? {
      return None;
    }
    r := ParseArgs(s, rs.value.next, rs.value.value);
  }

  /** The loop of parseexec. */
  method ParseArgs(s: string, i: nat, before: seq<G.Redirection>) returns (r: Found)
    requires i <= |s|
    ensures r == G.Args(s, i, [], before)
  {
    var argv: seq<Place>, redirs := [], before;
    var done, j := Peek(s, i, "|)&;");
    SkipTwice(s, i);
    while !done
      invariant j <= |s| && G.Skip(s, j) == j && done == G.Peek(s, j, "|)&;")
      invariant G.Args(s, j, argv, redirs) == G.Args(s, i, [], before)
      decreases |s| - j
    {
      var t := GetToken(s, j);
      if t.kind == G.End {
        return Some(G.Parsed(G.Wrap(G.Exec(argv), redirs), t.next));
      }
      if t.kind != G.Word || |argv| + 1 >= G.MAXARGS {
        return None;
      }
      var more := ParseRedirs(s, t.next, redirs);
      if more.None? {
        return None;
      }
      argv, redirs := argv + [G.Place(t.q, t.eq)], more.value.value;
      SkipTwice(s, more.value.next);
      done, j := Peek(s, more.value.next, "|)&;");
    }
    r := Some(G.Parsed(G.Wrap(G.Exec(argv), redirs), j));
  }

  method ParseBlock(s: string, i: nat) returns (r: Found)
    requires i < |s| && s[i] == '('
    ensures r == G.ParseBlock(s, i)
    decreases |s| - i, 1
  {
    var t := GetToken(s, i);
    var p := ParseLine(s, t.next);
    if p.None? {
      return None;
    }
    var paren, j := Peek(s, p.value.next, ")");
    if !paren {
      return None;
    }
    t := GetToken(s, j);
    var rs := ParseRedirs(s, t.next, []);
    if rs.None? {
      return None;
    }
    r := Some(G.Parsed(G.Wrap(p.value.value, rs.value.value), rs.value.next));
  }

  // ---------- in memory ----------

  /** The length of the string at the start of a buffer. */
  method Strlen(buf: array<char>) returns (n: nat)
    requires NUL in buf[..]
    ensures n < buf.Length && buf[n] == NUL && NUL !in buf[..n]
  {
    n := 0;
    while buf[n] != NUL
      invariant n < buf.Length && NUL !in buf[..n] && NUL in buf[n..]
      decreases buf.Length - n
    {
      n := n + 1;
    }
  }

  /** nulterminate writes a NUL behind every word of the command, and nowhere else. */
  method NulTerminate(buf: array<char>, cmd: Cmd)
    requires forall e :: e in Ends(cmd) ==> e < buf.Length
    modifies buf
    ensures forall k :: 0 <= k < buf.Length ==> buf[k] == if k in Ends(cmd) then NUL else old(buf[k])
    decreases cmd
  {
    match cmd
    case Exec(ps) =>
      for i := 0 to |ps|
        invariant forall k :: 0 <= k < buf.Length ==>
                    buf[k] == if k in Ends(G.Exec(ps[..i])) then NUL else old(buf[k])
      {
        assert ps[i].end in Ends(cmd);
        EndsMore(ps, i);
        buf[ps[i].end] := NUL;
      }
      assert ps[..|ps|] == ps;
    case Redir(d, f, m) =>
      assert Ends(cmd) == Ends(d) + {f.end};
      NulTerminate(buf, d);
      buf[f.end] := NUL;
    case Pipe(l, r) =>
      assert Ends(cmd) == Ends(l) + Ends(r);
      NulTerminate(buf, l);
      NulTerminate(buf, r);
    case List(l, r) =>
      assert Ends(cmd) == Ends(l) + Ends(r);
      NulTerminate(buf, l);
      NulTerminate(buf, r);
    case Back(d) =>
      assert Ends(cmd) == Ends(d);
      NulTerminate(buf, d);
  }

  lemma EndsMore(ps: seq<Place>, i: nat)
    requires i < |ps|
    ensures Ends(G.Exec(ps[..i + 1])) == Ends(G.Exec(ps[..i])) + {ps[i].end}
  {
    var a, b := ps[..i], ps[..i + 1];
    forall e | e in Ends(G.Exec(a)) + {ps[i].end}
      ensures e in Ends(G.Exec(b))
    {
      if e == ps[i].end {
        assert b[i].end == e;
      } else {
        var k :| 0 <= k < |a| && a[k].end == e;
        assert b[k].end == e;
      }
    }
  }

  /** parsecmd: the command that the grammar finds in the text, and every word of it a string of its
      own in memory; on a syntax error the text is left alone. */
  method ParseCmd(buf: array<char>) returns (r: Option<Cmd>)
    requires NUL in buf[..]
    modifies buf
    ensures r == G.ParseCmd(StringAt(old(buf[..]), 0))
    ensures r.None? ==> buf[..] == old(buf[..])
    ensures r.Some? ==> StringsOf(buf[..], r.value) == TextOf(StringAt(old(buf[..]), 0), r.value)
  {
    var n := Strlen(buf);
    var s := buf[..n];
    StringIs(buf[..], n, 0);
    var p := ParseLine(s, 0);
    if p.None? {
      return None;
    }
    var _, j := Peek(s, p.value.next, "");
    if j != |s| {
      return None;
    }
    var c := p.value.value;
    LineWords(s, 0);
    EndsIn(s, c);
    NulTerminate(buf, c);
    Remembered(s, buf[..], n, c);
    r := Some(c);
  }

  lemma {:induction false} StringIs(b: string, n: nat, i: nat)
    requires i <= n < |b| && b[n] == NUL && NUL !in b[..n]
    ensures StringAt(b, i) == b[i..n]
    decreases n - i
  {
    if i < n {
      assert b[..n][i] != NUL;
      StringIs(b, n, i + 1);
      assert b[i..n] == [b[i]] + b[i + 1..n];
    }
  }

  lemma {:induction false} EndsIn(s: string, c: Cmd)
    requires CmdOk(s, c)
    ensures forall e :: e in Ends(c) ==> e <= |s|
    decreases c
  {
    match c
    case Exec(ps) => assert forall i :: 0 <= i < |ps| ==> IsWord(s, ps[i]);
    case Redir(d, f, m) => EndsIn(s, d);
    case Pipe(l, r) => EndsIn(s, l); EndsIn(s, r);
    case List(l, r) => EndsIn(s, l); EndsIn(s, r);
    case Back(d) => EndsIn(s, d);
  }

  /** What lies in the buffer behind the text does not matter. */
  lemma {:induction false} Remembered(s: string, b: string, n: nat, c: Cmd)
    requires |s| == n < |b| && NUL !in s && CmdOk(s, c)
    requires forall k :: 0 <= k <= n ==> b[k] == if k == n || k in Ends(c) then NUL else s[k]
    ensures StringsOf(b, c) == TextOf(s, c)
  {
    EndsOk(s, c);
    StringsBack(s, b, Ends(c), c);
  }
}
