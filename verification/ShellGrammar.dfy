/** The command language of sh.c: its tokens and its grammar, as functions of the text and a
    position in it. None stands for the syntax errors on which the shell gives up. */
module ShellGrammar {
  import opened Options

  const MAXARGS: nat := 10

  predicate IsSpace(c: char) {
    c == ' ' || c == '\t' || c == '\r' || c == '\n' || c == '\U{0B}'
  }

  predicate IsSymbol(c: char) {
    c == '<' || c == '|' || c == '>' || c == '&' || c == ';' || c == '(' || c == ')'
  }

  predicate IsPlain(c: char) {
    !IsSpace(c) && !IsSymbol(c)
  }

  // ---------- tokens ----------

  function Skip(s: string, i: nat): (j: nat)
    requires i <= |s|
    ensures i <= j <= |s| && (j < |s| ==> !IsSpace(s[j])) && (i < |s| && !IsSpace(s[i]) ==> j == i)
    decreases |s| - i
  {
    if i < |s| && IsSpace(s[i]) then Skip(s, i + 1) else i
  }

  function WordEnd(s: string, i: nat): (j: nat)
    requires i <= |s|
    ensures i <= j <= |s| && (j < |s| ==> !IsPlain(s[j])) && (forall k :: i <= k < j ==> IsPlain(s[k]))
    decreases |s| - i
  {
    if i < |s| && IsPlain(s[i]) then WordEnd(s, i + 1) else i
  }

  /** What gettoken finds: the end of the text, a word, `>>`, or a symbol; where it begins and ends,
      and where the text goes on after it and the blanks behind it. */
  datatype Kind = End | Word | Append | Symbol(c: char)
  datatype Token = Token(kind: Kind, q: nat, eq: nat, next: nat)

  function TokenAt(s: string, i: nat): (t: Token)
    requires i <= |s|
    ensures i <= t.q <= t.eq <= t.next <= |s|
    ensures t.kind != End ==> t.q < t.eq
  {
    var q := Skip(s, i);
    if q == |s| then Token(End, q, q, q)
    else if s[q] == '>' && q + 1 < |s| && s[q + 1] == '>' then Token(Append, q, q + 2, Skip(s, q + 2))
    else if IsSymbol(s[q]) then Token(Symbol(s[q]), q, q + 1, Skip(s, q + 1))
    else Token(Word, q, WordEnd(s, q), Skip(s, WordEnd(s, q)))
  }

  /** peek: is the next character that is not blank one of toks? */
  predicate Peek(s: string, i: nat, toks: string)
    requires i <= |s|
  {
    Skip(s, i) < |s| && s[Skip(s, i)] in toks
  }

  // ---------- commands ----------

  /** A redirection of standard input, of standard output, or of output at the end of a file. */
  datatype Mode = Read | Write | Extend

  /** A command with words of some kind: places in the text, or strings. */
  datatype Cmd<W> =
    | Exec(argv: seq<W>)
    | Redir(cmd: Cmd<W>, file: W, mode: Mode)
    | Pipe(left: Cmd<W>, right: Cmd<W>)
    | List(left: Cmd<W>, right: Cmd<W>)
    | Back(cmd: Cmd<W>)

  /** A word of the text: q and eq of gettoken. */
  datatype Place = Place(start: nat, end: nat)

  datatype Redirection = Redirection(file: Place, mode: Mode)

  /** What parsing some part of the text gives, and the position behind it. */
  datatype Parsed<T> = Parsed(value: T, next: nat)

  /** cmd with redirections around it, the last one outermost. */
  function Wrap(cmd: Cmd<Place>, rs: seq<Redirection>): (r: Cmd<Place>)
    decreases |rs|
  {
    if rs == [] then cmd
    else Redir(Wrap(cmd, rs[..|rs| - 1]), rs[|rs| - 1].file, rs[|rs| - 1].mode)
  }

  function ModeOf(k: Kind): (m: Mode) {
    if k == Symbol('<') then Read else if k == Append then Extend else Write
  }

  /** The redirections from i on, after those in rs. */
  function Redirs(s: string, i: nat, rs: seq<Redirection>): (r: Option<Parsed<seq<Redirection>>>)
    requires i <= |s|
    ensures r.Some? ==> i <= r.value.next <= |s|
    decreases |s| - i
  {
    if !Peek(s, i, "<>") then Some(Parsed(rs, Skip(s, i)))
    else
      var t := TokenAt(s, Skip(s, i));
      var f := TokenAt(s, t.next);
      if f.kind != Word then None
      else Redirs(s, f.next, rs + [Redirection(Place(f.q, f.eq), ModeOf(t.kind))])
  }

  function ParseLine(s: string, i: nat): (r: Option<Parsed<Cmd<Place>>>)
    requires i <= |s|
    ensures r.Some? ==> i <= r.value.next <= |s|
    decreases |s| - i, 4
  {
    match ParsePipe(s, i)
    case None => None
    case Some(p) =>
      var b := Backs(s, p.next, p.value);
      if !Peek(s, b.next, ";") then Some(Parsed(b.value, Skip(s, b.next)))
      else
        match ParseLine(s, TokenAt(s, Skip(s, b.next)).next)
        case None => None
        case Some(l) => Some(Parsed(List(b.value, l.value), l.next))
  }

  /** cmd, once in the background for every `&` from i on. */
  function Backs(s: string, i: nat, cmd: Cmd<Place>): (r: Parsed<Cmd<Place>>)
    requires i <= |s|
    ensures i <= r.next <= |s|
    decreases |s| - i
  {
    if Peek(s, i, "&") then Backs(s, TokenAt(s, Skip(s, i)).next, Back(cmd)) else Parsed(cmd, Skip(s, i))
  }

  function ParsePipe(s: string, i: nat): (r: Option<Parsed<Cmd<Place>>>)
    requires i <= |s|
    ensures r.Some? ==> i <= r.value.next <= |s|
    decreases |s| - i, 3
  {
    match ParseExec(s, i)
    case None => None
    case Some(p) =>
      if !Peek(s, p.next, "|") then Some(Parsed(p.value, Skip(s, p.next)))
      else
        match ParsePipe(s, TokenAt(s, Skip(s, p.next)).next)
        case None => None
        case Some(l) => Some(Parsed(Pipe(p.value, l.value), l.next))
  }

  function ParseExec(s: string, i: nat): (r: Option<Parsed<Cmd<Place>>>)
    requires i <= |s|
    ensures r.Some? ==> i <= r.value.next <= |s|
    decreases |s| - i, 2
  {
    if Peek(s, i, "(") then ParseBlock(s, Skip(s, i))
    else
      match Redirs(s, Skip(s, i), [])
      case None => None
      case Some(p) => Args(s, p.next, [], p.value)
  }

  /** The words and redirections of a simple command from i on, after those found already. */
  function Args(s: string, i: nat, argv: seq<Place>, rs: seq<Redirection>): (r: Option<Parsed<Cmd<Place>>>)
    requires i <= |s|
    ensures r.Some? ==> i <= r.value.next <= |s|
    decreases |s| - i
  {
    if Peek(s, i, "|)&;") then Some(Parsed(Wrap(Exec(argv), rs), Skip(s, i)))
    else
      var t := TokenAt(s, Skip(s, i));
      if t.kind == End then Some(Parsed(Wrap(Exec(argv), rs), t.next))
      else if t.kind != Word || |argv| + 1 >= MAXARGS then None
      else
        match Redirs(s, t.next, rs)
        case None => None
        case Some(p) => Args(s, p.next, argv + [Place(t.q, t.eq)], p.value)
  }

  function ParseBlock(s: string, i: nat): (r: Option<Parsed<Cmd<Place>>>)
    requires i < |s| && s[i] == '('
    ensures r.Some? ==> i <= r.value.next <= |s|
    decreases |s| - i, 1
  {
    match ParseLine(s, TokenAt(s, i).next)
    case None => None
    case Some(p) =>
      if !Peek(s, p.next, ")") then None
      else
        match Redirs(s, TokenAt(s, Skip(s, p.next)).next, [])
        case None => None
        case Some(q) => Some(Parsed(Wrap(p.value, q.value), q.next))
  }

  /** parsecmd up to nulterminate. */
  function ParseCmd(s: string): (r: Option<Cmd<Place>>) {
    match ParseLine(s, 0)
    case None => None
    case Some(p) => if Skip(s, p.next) != |s| then None else Some(p.value)
  }
}
