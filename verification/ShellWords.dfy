/** The words of a parsed command, and their strings in memory once the shell has put a NUL behind
    each of them. */
module ShellWords {
  import opened Options
  import opened ShellGrammar
  import opened ShellText

  /** A run of plain characters that goes as far as it can. */
  predicate IsWord(s: string, p: Place) {
    && p.start < p.end <= |s|
    && (forall k :: p.start <= k < p.end ==> IsPlain(s[k]))
    && (p.end < |s| ==> !IsPlain(s[p.end]))
  }

  predicate AllWords(s: string, ps: seq<Place>) {
    forall i :: 0 <= i < |ps| ==> IsWord(s, ps[i])
  }

  predicate AllFiles(s: string, rs: seq<Redirection>) {
    forall i :: 0 <= i < |rs| ==> IsWord(s, rs[i].file)
  }

  /** Every word of the command is one of the text, and no simple command has too many. */
  predicate CmdOk(s: string, c: Cmd<Place>) {
    match c
    case Exec(ps) => |ps| < MAXARGS && AllWords(s, ps)
    case Redir(d, f, m) => CmdOk(s, d) && IsWord(s, f)
    case Pipe(l, r) => CmdOk(s, l) && CmdOk(s, r)
    case List(l, r) => CmdOk(s, l) && CmdOk(s, r)
    case Back(d) => CmdOk(s, d)
  }

  ghost predicate Good(s: string, r: Option<Parsed<Cmd<Place>>>) {
    r.Some? ==> CmdOk(s, r.value.value)
  }

  // ---------- what the parser finds are words ----------

  lemma {:induction false} RedirsWords(s: string, i: nat, rs: seq<Redirection>)
    requires i <= |s| && AllFiles(s, rs)
    ensures Redirs(s, i, rs).Some? ==> AllFiles(s, Redirs(s, i, rs).value.value)
    decreases |s| - i
  {
    if Peek(s, i, "<>") {
      var t := TokenAt(s, Skip(s, i));
      var f := TokenAt(s, t.next);
      if f.kind == Word {
        RedirsWords(s, f.next, rs + [Redirection(Place(f.q, f.eq), ModeOf(t.kind))]);
      }
    }
  }

  lemma {:induction false} WrapOk(s: string, c: Cmd<Place>, rs: seq<Redirection>)
    requires CmdOk(s, c) && AllFiles(s, rs)
    ensures CmdOk(s, Wrap(c, rs))
    decreases |rs|
  {
    if rs != [] {
      WrapOk(s, c, rs[..|rs| - 1]);
    }
  }

  lemma {:induction false} ArgsWords(s: string, i: nat, argv: seq<Place>, rs: seq<Redirection>)
    requires i <= |s| && AllFiles(s, rs) && AllWords(s, argv) && |argv| < MAXARGS
    ensures Good(s, Args(s, i, argv, rs))
    decreases |s| - i
  {
    WrapOk(s, Exec(argv), rs);
    if !Peek(s, i, "|)&;") {
      var t := TokenAt(s, Skip(s, i));
      if t.kind == Word && |argv| + 1 < MAXARGS {
        RedirsWords(s, t.next, rs);
        var p := Redirs(s, t.next, rs);
        if p.Some? {
          ArgsWords(s, p.value.next, argv + [Place(t.q, t.eq)], p.value.value);
        }
      }
    }
  }

  lemma {:induction false} BacksOk(s: string, i: nat, c: Cmd<Place>)
    requires i <= |s| && CmdOk(s, c)
    ensures CmdOk(s, Backs(s, i, c).value)
    decreases |s| - i
  {
    if Peek(s, i, "&") {
      BacksOk(s, TokenAt(s, Skip(s, i)).next, Back(c));
    }
  }

  lemma {:induction false} LineWords(s: string, i: nat)
    requires i <= |s|
    ensures Good(s, ParseLine(s, i))
    decreases |s| - i, 4
  {
    PipeWords(s, i);
    var p := ParsePipe(s, i);
    if p.Some? {
      BacksOk(s, p.value.next, p.value.value);
      var b := Backs(s, p.value.next, p.value.value);
      if Peek(s, b.next, ";") {
        LineWords(s, TokenAt(s, Skip(s, b.next)).next);
      }
    }
  }

  lemma {:induction false} PipeWords(s: string, i: nat)
    requires i <= |s|
    ensures Good(s, ParsePipe(s, i))
    decreases |s| - i, 3
  {
    ExecWords(s, i);
    var p := ParseExec(s, i);
    if p.Some? && Peek(s, p.value.next, "|") {
      PipeWords(s, TokenAt(s, Skip(s, p.value.next)).next);
    }
  }

  lemma {:induction false} ExecWords(s: string, i: nat)
    requires i <= |s|
    ensures Good(s, ParseExec(s, i))
    decreases |s| - i, 2
  {
    if Peek(s, i, "(") {
      BlockWords(s, Skip(s, i));
    } else {
      RedirsWords(s, Skip(s, i), []);
      var p := Redirs(s, Skip(s, i), []);
      if p.Some? {
        ArgsWords(s, p.value.next, [], p.value.value);
      }
    }
  }

  lemma {:induction false} BlockWords(s: string, i: nat)
    requires i < |s| && s[i] == '('
    ensures Good(s, ParseBlock(s, i))
    decreases |s| - i, 1
  {
    LineWords(s, TokenAt(s, i).next);
    var p := ParseLine(s, TokenAt(s, i).next);
    if p.Some? && Peek(s, p.value.next, ")") {
      var j := TokenAt(s, Skip(s, p.value.next)).next;
      RedirsWords(s, j, []);
      if Redirs(s, j, []).Some? {
        WrapOk(s, p.value.value, Redirs(s, j, []).value.value);
      }
    }
  }

  lemma {:induction false} OkPrintable(s: string, c: Cmd<Place>)
    requires CmdOk(s, c)
    ensures Printable(TextOf(s, c))
    decreases c
  {
    match c
    case Exec(ps) =>
      forall w | w in Slices(s, ps)
        ensures WordOk(w)
      {
        var i :| 0 <= i < |ps| && w == Slices(s, ps)[i];
        assert IsWord(s, ps[i]);
      }
    case Redir(d, f, m) => OkPrintable(s, d);
    case Pipe(l, r) => OkPrintable(s, l); OkPrintable(s, r);
    case List(l, r) => OkPrintable(s, l); OkPrintable(s, r);
    case Back(d) => OkPrintable(s, d);
  }

  /** A command can be read from some text exactly if it can be printed. */
  lemma ReadableIffPrintable(t: Cmd<string>)
    ensures (exists s :: ParseCmd(s).Some? && TextOf(s, ParseCmd(s).value) == t) <==> Printable(t)
  {
    forall s: string | ParseCmd(s).Some? && TextOf(s, ParseCmd(s).value) == t
      ensures Printable(t)
    {
      LineWords(s, 0);
      OkPrintable(s, ParseCmd(s).value);
    }
    if Printable(t) {
      RoundTrip(t);
    }
  }

  // ---------- strings in memory ----------

  const NUL: char := '\0'

  /** The string at i in memory, up to the NUL behind it. */
  function StringAt(b: string, i: nat): (w: string)
    decreases |b| - i
  {
    if i >= |b| || b[i] == NUL then "" else [b[i]] + StringAt(b, i + 1)
  }

  /** The strings of a command in memory: only where its words start is known. */
  function StringsOf(b: string, c: Cmd<Place>): (t: Cmd<string>) {
    match c
    case Exec(ps) => Exec(seq(|ps|, i requires 0 <= i < |ps| => StringAt(b, ps[i].start)))
    case Redir(d, f, m) => Redir(StringsOf(b, d), StringAt(b, f.start), m)
    case Pipe(l, r) => Pipe(StringsOf(b, l), StringsOf(b, r))
    case List(l, r) => List(StringsOf(b, l), StringsOf(b, r))
    case Back(d) => Back(StringsOf(b, d))
  }

  /** Where the words of a command end. */
  ghost function Ends(c: Cmd<Place>): (es: set<nat>) {
    match c
    case Exec(ps) => set i | 0 <= i < |ps| :: ps[i].end
    case Redir(d, f, m) => Ends(d) + {f.end}
    case Pipe(l, r) => Ends(l) + Ends(r)
    case List(l, r) => Ends(l) + Ends(r)
    case Back(d) => Ends(d)
  }

  /** b starts with the text and a NUL, with NULs put at all of es. */
  ghost predicate Terminated(s: string, b: string, es: set<nat>) {
    && |b| > |s| && NUL !in s
    && forall k :: 0 <= k <= |s| ==> b[k] == if k == |s| || k in es then NUL else s[k]
  }

  /** Only ends of words are overwritten. */
  ghost predicate EndsOnly(s: string, es: set<nat>) {
    forall e :: e in es && e < |s| ==> !IsPlain(s[e])
  }

  lemma {:induction false} EndsOk(s: string, c: Cmd<Place>)
    requires CmdOk(s, c)
    ensures EndsOnly(s, Ends(c))
    decreases c
  {
    match c
    case Exec(ps) => assert forall i :: 0 <= i < |ps| ==> IsWord(s, ps[i]);
    case Redir(d, f, m) => EndsOk(s, d);
    case Pipe(l, r) => EndsOk(s, l); EndsOk(s, r);
    case List(l, r) => EndsOk(s, l); EndsOk(s, r);
    case Back(d) => EndsOk(s, d);
  }

  /** A word that has its NUL is read back whole, whatever other words have been terminated. */
  lemma {:induction false} WordBack(s: string, b: string, es: set<nat>, p: Place, i: nat)
    requires Terminated(s, b, es) && EndsOnly(s, es) && IsWord(s, p) && p.end in es && p.start <= i <= p.end
    ensures StringAt(b, i) == s[i..p.end]
    decreases p.end - i
  {
    if i < p.end {
      WordBack(s, b, es, p, i + 1);
      assert IsPlain(s[i]) && s[i] in s && s[i..p.end] == [s[i]] + s[i + 1..p.end];
    }
  }

  /** All words of a command are read back from memory. */
  lemma {:induction false} StringsBack(s: string, b: string, es: set<nat>, c: Cmd<Place>)
    requires Terminated(s, b, es) && EndsOnly(s, es) && CmdOk(s, c) && Ends(c) <= es
    ensures StringsOf(b, c) == TextOf(s, c)
    decreases c
  {
    match c
    case Exec(ps) =>
      forall i | 0 <= i < |ps|
        ensures StringAt(b, ps[i].start) == Slice(s, ps[i])
      {
        assert IsWord(s, ps[i]) && ps[i].end in Ends(c);
        WordBack(s, b, es, ps[i], ps[i].start);
      }
    case Redir(d, f, m) => StringsBack(s, b, es, d); WordBack(s, b, es, f, f.start);
    case Pipe(l, r) => StringsBack(s, b, es, l); StringsBack(s, b, es, r);
    case List(l, r) => StringsBack(s, b, es, l); StringsBack(s, b, es, r);
    case Back(d) => StringsBack(s, b, es, d);
  }
}
