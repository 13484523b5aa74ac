/** Printing commands, and reading them back. */
module ShellText {
  import opened Options
  import opened ShellGrammar

  // ---------- printing ----------

  predicate WordOk(w: string) {
    |w| > 0 && forall c :: c in w ==> IsPlain(c)
  }

  function Words(ws: seq<string>): (r: string) {
    if ws == [] then "" else if |ws| == 1 then ws[0] else ws[0] + " " + Words(ws[1..])
  }

  function Sign(m: Mode): (r: string) {
    match m case Read => "<" case Write => ">" case Extend => ">>"
  }

  function InParens(t: Cmd<string>): (r: string)
    decreases t, 1
  {
    "(" + Show(t) + ")"
  }

  /** The fully parenthesised form of a command. */
  function Show(t: Cmd<string>): (r: string)
    decreases t, 0
  {
    match t
    case Exec(ws) => Words(ws)
    case Redir(c, f, m) => InParens(c) + (Sign(m) + f)
    case Pipe(l, r) => InParens(l) + ("|" + InParens(r))
    case List(l, r) => InParens(l) + (";" + InParens(r))
    case Back(c) => InParens(c) + "&"
  }

  /** Commands the shell can take: at most nine words in each simple one, all of them plain. */
  predicate Printable(t: Cmd<string>) {
    match t
    case Exec(ws) => |ws| < MAXARGS && forall w :: w in ws ==> WordOk(w)
    case Redir(c, f, m) => Printable(c) && WordOk(f)
    case Pipe(l, r) => Printable(l) && Printable(r)
    case List(l, r) => Printable(l) && Printable(r)
    case Back(c) => Printable(c)
  }

  /** The words themselves in place of where they are. */
  function Slice(s: string, p: Place): (w: string) {
    if p.start <= p.end <= |s| then s[p.start..p.end] else ""
  }

  function Slices(s: string, ps: seq<Place>): (ws: seq<string>) {
    seq(|ps|, i requires 0 <= i < |ps| => Slice(s, ps[i]))
  }

  function TextOf(s: string, c: Cmd<Place>): (t: Cmd<string>) {
    match c
    case Exec(ps) => Exec(Slices(s, ps))
    case Redir(d, f, m) => Redir(TextOf(s, d), Slice(s, f), m)
    case Pipe(l, r) => Pipe(TextOf(s, l), TextOf(s, r))
    case List(l, r) => List(TextOf(s, l), TextOf(s, r))
    case Back(d) => Back(TextOf(s, d))
  }

  // ---------- where a piece of text stands ----------

  ghost predicate At(s: string, i: nat, x: string) {
    i + |x| <= |s| && s[i..i + |x|] == x
  }

  lemma AtParts(s: string, i: nat, a: string, b: string)
    requires At(s, i, a + b)
    ensures At(s, i, a) && At(s, i + |a|, b)
  {
    var x := s[i..i + |a + b|];
    assert x[..|a|] == a && x[|a|..] == b;
  }

  lemma AtChar(s: string, i: nat, x: string, k: nat)
    requires At(s, i, x) && k < |x|
    ensures s[i + k] == x[k]
  {
    assert s[i..i + |x|][k] == x[k];
  }

  /** The end of the text, or of a block. */
  predicate Stops(s: string, j: nat) {
    j == |s| || (j < |s| && s[j] == ')')
  }

  // ---------- words ----------

  lemma WordToken(s: string, i: nat, w: string)
    requires At(s, i, w) && WordOk(w) && (i + |w| == |s| || !IsPlain(s[i + |w|]))
    ensures i < |s| && IsPlain(s[i]) && TokenAt(s, i) == Token(Word, i, i + |w|, Skip(s, i + |w|))
  {
    forall k | i <= k < i + |w|
      ensures IsPlain(s[k])
    {
      AtChar(s, i, w, k - i);
    }
    WordEnds(s, i, i + |w|);
  }

  lemma {:induction false} WordEnds(s: string, i: nat, j: nat)
    requires i <= j <= |s| && (forall k :: i <= k < j ==> IsPlain(s[k])) && (j == |s| || !IsPlain(s[j]))
    ensures WordEnd(s, i) == j
    decreases j - i
  {
    if i < j {
      WordEnds(s, i + 1, j);
    }
  }

  /** The places of words printed from i on. */
  function Places(i: nat, ws: seq<string>): (ps: seq<Place>)
    ensures |ps| == |ws|
    decreases |ws|
  {
    if ws == [] then [] else [Place(i, i + |ws[0]|)] + Places(i + |ws[0]| + 1, ws[1..])
  }

  lemma {:induction false} PlacesSlices(s: string, i: nat, ws: seq<string>)
    requires At(s, i, Words(ws))
    ensures Slices(s, Places(i, ws)) == ws
    decreases |ws|
  {
    if |ws| == 1 {
      assert Places(i + |ws[0]| + 1, ws[1..]) == [];
    } else if |ws| > 1 {
      AtParts(s, i, ws[0], " " + Words(ws[1..]));
      assert ws[0] + " " + Words(ws[1..]) == ws[0] + (" " + Words(ws[1..]));
      AtParts(s, i + |ws[0]|, " ", Words(ws[1..]));
      PlacesSlices(s, i + |ws[0]| + 1, ws[1..]);
    }
  }

  /** Between the first word and the others there is a blank. */
  lemma BlankAfter(s: string, i: nat, ws: seq<string>)
    requires |ws| > 1 && At(s, i, Words(ws)) && (forall w :: w in ws ==> WordOk(w))
    ensures At(s, i, ws[0]) && i + |ws[0]| + 1 < |s| && s[i + |ws[0]|] == ' ' && IsPlain(s[i + |ws[0]| + 1])
    ensures At(s, i + |ws[0]| + 1, Words(ws[1..])) && i + |ws[0]| + 1 + |Words(ws[1..])| == i + |Words(ws)|
  {
    var w, rest := ws[0], Words(ws[1..]);
    assert w + " " + rest == w + (" " + rest);
    AtParts(s, i, w, " " + rest);
    AtParts(s, i + |w|, " ", rest);
    AtChar(s, i + |w|, " ", 0);
    WordStarts(ws[1..]);
    AtChar(s, i + |w| + 1, rest, 0);
  }

  /** Where the words go on after the first. */
  lemma FirstWord(s: string, i: nat, ws: seq<string>)
    requires |ws| > 0 && At(s, i, Words(ws)) && (forall w :: w in ws ==> WordOk(w)) && Stops(s, i + |Words(ws)|)
    ensures i + |ws[0]| <= |s| && TokenAt(s, i) == Token(Word, i, i + |ws[0]|, Skip(s, i + |ws[0]|))
    ensures i < |s| && IsPlain(s[i])
    ensures |ws| > 1 ==>
              Skip(s, i + |ws[0]|) == i + |ws[0]| + 1 && At(s, i + |ws[0]| + 1, Words(ws[1..])) &&
              i + |ws[0]| + 1 + |Words(ws[1..])| == i + |Words(ws)|
    ensures |ws| == 1 ==> Skip(s, i + |ws[0]|) == i + |ws[0]|
    ensures var j := Skip(s, i + |ws[0]|); j < |s| ==> s[j] != '<' && s[j] != '>'
  {
    assert ws[0] in ws;
    if |ws| > 1 {
      BlankAfter(s, i, ws);
    }
    WordToken(s, i, ws[0]);
  }

  lemma WordStarts(ws: seq<string>)
    requires |ws| > 0 && forall w :: w in ws ==> WordOk(w)
    ensures |Words(ws)| > 0 && IsPlain(Words(ws)[0])
  {
    assert ws[0] in ws && ws[0][0] in ws[0];
  }

  /** Which of the strings that the parser peeks for a character is in. */
  lemma PeekChar(c: char)
    ensures c in "|)&;" <==> c == '|' || c == ')' || c == '&' || c == ';'
    ensures (c in "<>" <==> c == '<' || c == '>') && (c in "(" <==> c == '(') && (c in ")" <==> c == ')')
    ensures (c in "|" <==> c == '|') && (c in "&" <==> c == '&') && (c in ";" <==> c == ';')
  {
    assert "|)&;" == ['|', ')', '&', ';'] && "<>" == ['<', '>'];
  }

  /** One word of a simple command, without redirections behind it. */
  lemma ArgsStep(s: string, i: nat, e: nat, j: nat, argv: seq<Place>)
    requires i < |s| && IsPlain(s[i]) && TokenAt(s, i) == Token(Word, i, e, j) && |argv| + 1 < MAXARGS
    requires j <= |s| && (j < |s| ==> !IsSpace(s[j]) && s[j] != '<' && s[j] != '>')
    ensures Args(s, i, argv, []) == Args(s, j, argv + [Place(i, e)], [])
  {
    PeekChar(s[i]);
    if j < |s| {
      PeekChar(s[j]);
    }
    assert Skip(s, i) == i && !Peek(s, i, "|)&;");
    assert Skip(s, j) == j && Redirs(s, j, []) == Some(Parsed([], j));
  }

  lemma ArgsEnd(s: string, i: nat, argv: seq<Place>)
    requires i <= |s| && Stops(s, i)
    ensures Args(s, i, argv, []) == Some(Parsed(Exec(argv), i))
  {
    if i < |s| {
      PeekChar(s[i]);
    }
  }

  lemma PlacesStep(argv: seq<Place>, i: nat, ws: seq<string>, e: nat, j: nat)
    requires |ws| > 0 && e == i + |ws[0]| && (|ws| > 1 ==> j == e + 1)
    ensures (argv + [Place(i, e)]) + Places(j, ws[1..]) == argv + Places(i, ws)
  {
    if |ws| == 1 {
      assert Places(e + 1, ws[1..]) == Places(j, ws[1..]) == [];
    }
  }

  lemma {:induction false} ArgsRead(s: string, i: nat, ws: seq<string>, argv: seq<Place>, end: nat, all: seq<Place>)
    requires At(s, i, Words(ws)) && (forall w :: w in ws ==> WordOk(w)) && |argv| + |ws| < MAXARGS
    requires end == i + |Words(ws)| && Stops(s, end) && all == argv + Places(i, ws)
    ensures ArgsGive(s, i, argv, all, end) == true
    decreases |ws|
  {
    if ws == [] {
      ArgsEnd(s, i, argv);
      assert all == argv;
    } else {
      var argv' := argv + [Place(i, i + |ws[0]|)];
      var j := RestRead(s, i, ws, argv, end);
      PlacesStep(argv, i, ws, i + |ws[0]|, j);
      ArgsRead(s, j, ws[1..], argv', end, all);
      ArgsMore(s, i, argv, j, argv', all, end);
    }
  }

  ghost predicate ArgsGive(s: string, i: nat, argv: seq<Place>, all: seq<Place>, end: nat) {
    i <= |s| && Args(s, i, argv, []) == Some(Parsed(Exec(all), end))
  }

  lemma ArgsMore(s: string, i: nat, argv: seq<Place>, j: nat, argv': seq<Place>, all: seq<Place>, end: nat)
    requires i <= |s| && ArgsGive(s, j, argv', all, end) == true && Args(s, i, argv, []) == Args(s, j, argv', [])
    ensures ArgsGive(s, i, argv, all, end) == true
  {
  }

  /** After the first word the rest is left to read. */
  lemma RestRead(s: string, i: nat, ws: seq<string>, argv: seq<Place>, end: nat) returns (j: nat)
    requires ws != [] && At(s, i, Words(ws)) && (forall w :: w in ws ==> WordOk(w)) && |argv| + |ws| < MAXARGS
    requires end == i + |Words(ws)| && Stops(s, end)
    ensures |ws| > 1 ==> j == i + |ws[0]| + 1
    ensures At(s, j, Words(ws[1..])) && end == j + |Words(ws[1..])|
    ensures Args(s, i, argv, []) == Args(s, j, argv + [Place(i, i + |ws[0]|)], [])
  {
    FirstWord(s, i, ws);
    j := Skip(s, i + |ws[0]|);
    ArgsStep(s, i, i + |ws[0]|, j, argv);
    if |ws| == 1 {
      assert Words(ws[1..]) == "" && s[j..j] == "";
    }
  }

  // ---------- lines ----------

  /** What has been read is command t, up to position j. */
  ghost predicate Reads(s: string, r: Option<Parsed<Cmd<Place>>>, t: Cmd<string>, j: nat) {
    r.Some? && r.value.next == j && TextOf(s, r.value.value) == t
  }

  ghost predicate LineIs(s: string, i: nat, t: Cmd<string>, j: nat) {
    i <= |s| && Reads(s, ParseLine(s, i), t, j)
  }

  ghost predicate PipeIs(s: string, i: nat, t: Cmd<string>, j: nat) {
    i <= |s| && Reads(s, ParsePipe(s, i), t, j)
  }

  ghost predicate ExecIs(s: string, i: nat, t: Cmd<string>, j: nat) {
    i <= |s| && Reads(s, ParseExec(s, i), t, j)
  }

  ghost predicate RedirsAre(s: string, i: nat, rs: seq<Redirection>, j: nat) {
    i <= |s| && Redirs(s, i, []) == Some(Parsed(rs, j))
  }

  /** What parsepipe has read up to the end is what parseline reads. */
  lemma PlainLine(s: string, i: nat, t: Cmd<string>, j: nat)
    requires j <= |s| && Stops(s, j) && PipeIs(s, i, t, j) == true
    ensures LineIs(s, i, t, j) == true
  {
    if j < |s| {
      PeekChar(s[j]);
    }
  }

  lemma PlainPipe(s: string, i: nat, t: Cmd<string>, j: nat)
    requires j <= |s| && Stops(s, j) && ExecIs(s, i, t, j) == true
    ensures PipeIs(s, i, t, j) == true
  {
    if j < |s| {
      PeekChar(s[j]);
    }
  }

  lemma ExecStarts(s: string, i: nat)
    requires i <= |s| && (Stops(s, i) || IsPlain(s[i]))
    ensures ParseExec(s, i) == Args(s, i, [], [])
  {
    if i < |s| {
      PeekChar(s[i]);
    }
    assert Skip(s, i) == i && Redirs(s, i, []) == Some(Parsed([], i));
  }

  lemma ExecReads(s: string, i: nat, ws: seq<string>, end: nat)
    requires At(s, i, Words(ws)) && Printable(Exec(ws)) && end == i + |Words(ws)| && Stops(s, end)
    ensures LineIs(s, i, Exec(ws), end) == true
  {
    if ws != [] {
      FirstWord(s, i, ws);
    }
    ExecStarts(s, i);
    ArgsRead(s, i, ws, [], end, Places(i, ws));
    PlacesSlices(s, i, ws);
    assert ArgsGive(s, i, [], Places(i, ws), end);
    PlainPipe(s, i, Exec(ws), end);
    PlainLine(s, i, Exec(ws), end);
  }

  // ---------- blocks ----------

  /** A command in parentheses, from i to j, around command t. */
  ghost predicate Block(s: string, i: nat, t: Cmd<string>, j: nat) {
    && i + 1 <= j < |s| && s[i] == '(' && s[j] == ')'
    && !IsSpace(s[i + 1]) && LineIs(s, i + 1, t, j) == true
  }

  /** Its redirections are put around it. */
  lemma BlockReads(s: string, i: nat, t: Cmd<string>, j: nat, rs: seq<Redirection>, end: nat)
    requires Block(s, i, t, j) && RedirsAre(s, j + 1, rs, end) == true && (j + 1 < |s| ==> !IsSpace(s[j + 1]))
    ensures ParseExec(s, i) == Some(Parsed(Wrap(ParseLine(s, i + 1).value.value, rs), end))
  {
    PeekChar(s[i]);
    PeekChar(s[j]);
    assert Skip(s, i) == i && TokenAt(s, i).next == i + 1;
    assert Skip(s, j) == j && TokenAt(s, j).next == j + 1;
    assert ParseExec(s, i) == ParseBlock(s, i);
  }

  /** Without redirections behind it. */
  lemma PlainBlock(s: string, i: nat, t: Cmd<string>, j: nat)
    requires Block(s, i, t, j) == true
    requires j + 1 < |s| ==> !IsSpace(s[j + 1]) && s[j + 1] != '<' && s[j + 1] != '>'
    ensures ExecIs(s, i, t, j + 1) == true
  {
    if j + 1 < |s| {
      PeekChar(s[j + 1]);
    }
    assert Redirs(s, j + 1, []) == Some(Parsed([], j + 1));
    BlockReads(s, i, t, j, [], j + 1);
  }

  /** The sign of a redirection, before a file name. */
  lemma SignToken(s: string, a: nat, m: Mode, f: string)
    requires At(s, a, Sign(m) + f) && WordOk(f)
    ensures At(s, a + |Sign(m)|, f) && a < |s| && !IsSpace(s[a]) && Peek(s, a, "<>")
    ensures TokenAt(s, a).next == a + |Sign(m)| && ModeOf(TokenAt(s, a).kind) == m
  {
    AtParts(s, a, Sign(m), f);
    AtChar(s, a, Sign(m), 0);
    AtChar(s, a, Sign(m), |Sign(m)| - 1);
    AtChar(s, a + |Sign(m)|, f, 0);
    assert IsPlain(f[0]);
    PeekChar(s[a]);
  }

  /** A file name, and no redirection behind it. */
  lemma FileName(s: string, k: nat, f: string, r: Redirection, end: nat)
    requires At(s, k, f) && WordOk(f) && end == k + |f| && Stops(s, end)
    ensures k <= |s| && TokenAt(s, k) == Token(Word, k, end, end) && Slice(s, Place(k, end)) == f
    ensures Redirs(s, end, [r]) == Some(Parsed([r], end))
  {
    WordToken(s, k, f);
    if end < |s| {
      PeekChar(s[end]);
    }
  }

  lemma OneRedir(s: string, a: nat, m: Mode, f: string, end: nat) returns (r: Redirection)
    requires At(s, a, Sign(m) + f) && WordOk(f) && end == a + |Sign(m) + f| && Stops(s, end)
    ensures RedirsAre(s, a, [r], end) == true && r.mode == m && Slice(s, r.file) == f
    ensures a < |s| && !IsSpace(s[a])
  {
    SignToken(s, a, m, f);
    var k := a + |Sign(m)|;
    r := Redirection(Place(k, end), m);
    FileName(s, k, f, r, end);
    assert Skip(s, a) == a && [] + [r] == [r];
  }

  /** With one. */
  lemma RedirectedBlock(s: string, i: nat, t: Cmd<string>, j: nat, f: string, m: Mode, end: nat)
    requires Block(s, i, t, j) == true && WordOk(f)
    requires At(s, j + 1, Sign(m) + f) && end == j + 1 + |Sign(m) + f| && Stops(s, end)
    ensures ExecIs(s, i, Redir(t, f, m), end) == true
  {
    var r := OneRedir(s, j + 1, m, f, end);
    BlockReads(s, i, t, j, [r], end);
    assert [r][..0] == [];
  }

  /** A block in the background. */
  lemma BackLine(s: string, i: nat, c: Cmd<string>, j: nat, end: nat)
    requires Block(s, i, c, j) == true && end == j + 2 && end <= |s| && s[j + 1] == '&' && Stops(s, end)
    ensures LineIs(s, i, Back(c), end) == true
  {
    PeekChar(s[j + 1]);
    PlainBlock(s, i, c, j);
    if end < |s| {
      PeekChar(s[end]);
    }
    assert Skip(s, j + 1) == j + 1 && TokenAt(s, j + 1).next == end;
    var p := ParseExec(s, i).value.value;
    assert ParsePipe(s, i) == Some(Parsed(p, j + 1));
    assert Backs(s, end, Back(p)) == Parsed(Back(p), end);
    assert Backs(s, j + 1, p) == Parsed(Back(p), end);
  }

  /** A block, and a pipe behind it. */
  lemma PipeLine(s: string, i: nat, l: Cmd<string>, j: nat, r: Cmd<string>, end: nat)
    requires Block(s, i, l, j) == true && j + 2 <= end <= |s| && s[j + 1] == '|' && Stops(s, end)
    requires j + 2 < |s| && !IsSpace(s[j + 2]) && PipeIs(s, j + 2, r, end) == true
    ensures LineIs(s, i, Pipe(l, r), end) == true
  {
    PeekChar(s[j + 1]);
    PlainBlock(s, i, l, j);
    assert Skip(s, j + 1) == j + 1 && TokenAt(s, j + 1).next == j + 2;
    assert PipeIs(s, i, Pipe(l, r), end);
    PlainLine(s, i, Pipe(l, r), end);
  }

  lemma ListLine(s: string, i: nat, l: Cmd<string>, j: nat, r: Cmd<string>, end: nat)
    requires Block(s, i, l, j) == true && j + 2 <= end <= |s| && s[j + 1] == ';' && Stops(s, end)
    requires j + 2 < |s| && !IsSpace(s[j + 2]) && LineIs(s, j + 2, r, end) == true
    ensures LineIs(s, i, List(l, r), end) == true
  {
    PeekChar(s[j + 1]);
    PlainBlock(s, i, l, j);
    var p := ParseExec(s, i).value.value;
    assert ParsePipe(s, i) == Some(Parsed(p, j + 1)) && Backs(s, j + 1, p) == Parsed(p, j + 1);
    assert Skip(s, j + 1) == j + 1 && TokenAt(s, j + 1).next == j + 2;
  }

  // ---------- the round trip ----------

  /** The first character of a printed command is not blank. */
  lemma ShowStarts(t: Cmd<string>)
    requires Printable(t)
    ensures Show(t) != "" ==> !IsSpace(Show(t)[0])
  {
    if t.Exec? && t.argv != [] {
      WordStarts(t.argv);
    }
  }

  /** A printed command in parentheses is a block, if what is inside is read. */
  lemma ParensAt(s: string, i: nat, t: Cmd<string>, j: nat)
    requires At(s, i, InParens(t)) && Printable(t) && j == i + 1 + |Show(t)|
    ensures At(s, i + 1, Show(t)) && Stops(s, j) && j == i + |InParens(t)| - 1
    ensures LineIs(s, i + 1, t, j) == true ==> Block(s, i, t, j) == true
  {
    assert InParens(t) == "(" + (Show(t) + ")");
    AtParts(s, i, "(", Show(t) + ")");
    AtChar(s, i, "(", 0);
    AtParts(s, i + 1, Show(t), ")");
    AtChar(s, j, ")", 0);
    ShowStarts(t);
    if Show(t) != "" {
      AtChar(s, i + 1, Show(t), 0);
    } else {
      assert i + 1 == j;
    }
  }

  /** Two printed commands in parentheses with a sign between them. */
  lemma TwoParens(s: string, i: nat, l: Cmd<string>, c: string, r: Cmd<string>, j: nat, end: nat)
    requires At(s, i, InParens(l) + (c + InParens(r))) == true && Printable(l) && Printable(r) && |c| == 1
    requires j == i + 1 + |Show(l)| && end == i + |InParens(l) + (c + InParens(r))|
    ensures At(s, i, InParens(l)) == true && At(s, j + 2, InParens(r)) == true && j + 2 < |s| && s[j + 1] == c[0] &&
              s[j + 2] == '('
    ensures end - 1 == j + 3 + |Show(r)|
  {
    AtParts(s, i, InParens(l), c + InParens(r));
    AtParts(s, j + 1, c, InParens(r));
    AtChar(s, j + 1, c, 0);
    AtChar(s, j + 2, InParens(r), 0);
  }

  /** A block at the end is read as the command in it. */
  lemma LastBlock(s: string, i: nat, t: Cmd<string>, end: nat)
    requires end >= 1 && Block(s, i, t, end - 1) == true && Stops(s, end)
    ensures PipeIs(s, i, t, end) == true
  {
    PlainBlock(s, i, t, end - 1);
    PlainPipe(s, i, t, end);
  }

  lemma RedirReads(s: string, i: nat, c: Cmd<string>, f: string, m: Mode, j: nat, end: nat)
    requires Block(s, i, c, j) == true && WordOk(f) && Stops(s, end)
    requires At(s, j + 1, Sign(m) + f) && end == j + 1 + |Sign(m) + f|
    ensures LineIs(s, i, Redir(c, f, m), end) == true
  {
    RedirectedBlock(s, i, c, j, f, m, end);
    PlainPipe(s, i, Redir(c, f, m), end);
    PlainLine(s, i, Redir(c, f, m), end);
  }

  lemma BackReads(s: string, i: nat, c: Cmd<string>, j: nat, end: nat)
    requires Block(s, i, c, j) == true && At(s, j + 1, "&") && end == j + 2 && Stops(s, end)
    ensures LineIs(s, i, Back(c), end) == true
  {
    AtChar(s, j + 1, "&", 0);
    BackLine(s, i, c, j, end);
  }

  lemma PipeReads(s: string, i: nat, l: Cmd<string>, j: nat, r: Cmd<string>, end: nat)
    requires Block(s, i, l, j) == true && j + 2 < end <= |s| && s[j + 1] == '|' && Stops(s, end)
    requires !IsSpace(s[j + 2]) && Block(s, j + 2, r, end - 1) == true
    ensures LineIs(s, i, Pipe(l, r), end) == true
  {
    LastBlock(s, j + 2, r, end);
    PipeLine(s, i, l, j, r, end);
  }

  lemma ListReads(s: string, i: nat, l: Cmd<string>, j: nat, r: Cmd<string>, end: nat)
    requires Block(s, i, l, j) == true && j + 2 < end <= |s| && s[j + 1] == ';' && Stops(s, end)
    requires !IsSpace(s[j + 2]) && Block(s, j + 2, r, end - 1) == true
    ensures LineIs(s, i, List(l, r), end) == true
  {
    LastBlock(s, j + 2, r, end);
    PlainLine(s, j + 2, r, end);
    ListLine(s, i, l, j, r, end);
  }

  /** A printed command that stands at i is read there as that command. */
  lemma {:induction false} LineReads(s: string, i: nat, t: Cmd<string>, end: nat)
    requires At(s, i, Show(t)) && Printable(t) && end == i + |Show(t)| && Stops(s, end)
    ensures LineIs(s, i, t, end) == true
    decreases t, 1
  {
    match t
    case Exec(ws) => ExecReads(s, i, ws, end);
    case Redir(c, f, m) => var j := InnerReads(s, i, c, Sign(m) + f, end); RedirReads(s, i, c, f, m, j, end);
    case Back(c) => var j := InnerReads(s, i, c, "&", end); BackReads(s, i, c, j, end);
    case Pipe(l, r) =>
      var j := i + 1 + |Show(l)|;
      TwoParens(s, i, l, "|", r, j, end);
      BothRead(t, s, i, j, end);
      PipeReads(s, i, l, j, r, end);
    case List(l, r) =>
      var j := i + 1 + |Show(l)|;
      TwoParens(s, i, l, ";", r, j, end);
      BothRead(t, s, i, j, end);
      ListReads(s, i, l, j, r, end);
  }

  lemma {:induction false} ParensRead(s: string, i: nat, c: Cmd<string>, j: nat)
    requires At(s, i, InParens(c)) == true && Printable(c) && j == i + 1 + |Show(c)|
    ensures Block(s, i, c, j) == true
    decreases c, 2
  {
    ParensAt(s, i, c, j);
    LineReads(s, i + 1, c, j);
  }

  lemma {:induction false} InnerReads(s: string, i: nat, c: Cmd<string>, rest: string, end: nat) returns (j: nat)
    requires At(s, i, InParens(c) + rest) && Printable(c) && end == i + |InParens(c) + rest|
    ensures Block(s, i, c, j) == true && At(s, j + 1, rest) && end == j + 1 + |rest|
    ensures j == i + 1 + |Show(c)|
    decreases c, 3
  {
    j := i + 1 + |Show(c)|;
    AtParts(s, i, InParens(c), rest);
    ParensRead(s, i, c, j);
  }

  lemma {:induction false} BothRead(t: Cmd<string>, s: string, i: nat, j: nat, end: nat)
    requires (t.Pipe? || t.List?) && Printable(t) && end >= 1
    requires At(s, i, InParens(t.left)) == true && j == i + 1 + |Show(t.left)|
    requires At(s, j + 2, InParens(t.right)) == true && end - 1 == j + 2 + 1 + |Show(t.right)|
    ensures Block(s, i, t.left, j) == true && Block(s, j + 2, t.right, end - 1) == true
    decreases t, 0
  {
    ParensRead(s, i, t.left, j);
    ParensRead(s, j + 2, t.right, end - 1);
  }

  /** Every command that the shell can take is read back from its printed form. */
  lemma RoundTrip(t: Cmd<string>)
    requires Printable(t)
    ensures ParseCmd(Show(t)).Some? && TextOf(Show(t), ParseCmd(Show(t)).value) == t
  {
    var s := Show(t);
    assert s[0..|s|] == s;
    LineReads(s, 0, t, |s|);
    assert LineIs(s, 0, t, |s|);
  }
}
