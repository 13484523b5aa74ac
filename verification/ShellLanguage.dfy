/** The command language as a grammar over tokens, and that the parser accepts exactly it: a text is read as
    a command if and only if its tokens have a derivation that means that command. */
module ShellLanguage {
  import opened Options
  import opened ShellGrammar
  import opened ShellText
  import opened ShellRedirs

  // ---------- tokens of a text ----------

  /** A word, a symbol, or `>>`. */
  datatype Tok = Name(w: string) | Mark(c: char) | More

  function TokOf(s: string, t: Token): (r: Tok) {
    if t.kind.Symbol? then Mark(t.kind.c) else if t.kind == Append then More else Name(Slice(s, Place(t.q, t.eq)))
  }

  function Lex(s: string, i: nat): (ts: seq<Tok>)
    requires i <= |s|
    decreases |s| - i
  {
    var t := TokenAt(s, i);
    if t.kind == End then [] else [TokOf(s, t)] + Lex(s, t.next)
  }

  function Spelled(t: Tok): (r: string) {
    match t case Name(w) => w case Mark(c) => [c] case More => ">>"
  }

  function SpelledAll(ts: seq<Tok>): (r: string) {
    if ts == [] then "" else Spelled(ts[0]) + SpelledAll(ts[1..])
  }

  function Unblanked(s: string): (r: string) {
    if s == "" then "" else (if IsSpace(s[0]) then "" else [s[0]]) + Unblanked(s[1..])
  }

  predicate Starts(ts: seq<Tok>, c: char) {
    ts != [] && ts[0] == Mark(c)
  }

  predicate Signed(ts: seq<Tok>) {
    Starts(ts, '<') || Starts(ts, '>') || (ts != [] && ts[0] == More)
  }

  predicate Closed(ts: seq<Tok>) {
    ts == [] || Starts(ts, '|') || Starts(ts, ')') || Starts(ts, '&') || Starts(ts, ';')
  }

  predicate Looked(k: nat) {
    true
  }

  /** The tokens from i on are ts. Only proofs that have looked get to see what tokens are. */
  ghost predicate Reads(s: string, i: nat, ts: seq<Tok>) {
    i <= |s| && forall k: nat {:trigger Looked(k)} :: Looked(k) ==> Lex(s, i) == ts
  }

  lemma LexSkip(s: string, i: nat)
    requires i <= |s|
    ensures TokenAt(s, Skip(s, i)) == TokenAt(s, i) && Lex(s, Skip(s, i)) == Lex(s, i)
  {
    SkipTwice(s, i);
  }

  lemma LexHead(s: string, i: nat)
    requires i <= |s|
    ensures Lex(s, i) == [] <==> TokenAt(s, i).kind == End
    ensures Lex(s, i) != [] ==> Lex(s, i)[0] == TokOf(s, TokenAt(s, i)) && Lex(s, i)[1..] == Lex(s, TokenAt(s, i).next)
    ensures Lex(s, i) == [] <==> Skip(s, i) == |s|
  {
  }

  lemma PeekStarts(s: string, i: nat, c: char)
    requires i <= |s| && c in "|)&;("
    ensures Peek(s, i, [c]) <==> Starts(Lex(s, i), c)
  {
    LexHead(s, i);
  }

  lemma PeekSigned(s: string, i: nat)
    requires i <= |s|
    ensures Peek(s, i, "<>") <==> Signed(Lex(s, i))
  {
    LexHead(s, i);
  }

  lemma PeekClosed(s: string, i: nat)
    requires i <= |s|
    ensures Peek(s, i, "|)&;") <==> Lex(s, i) != [] && Closed(Lex(s, i))
  {
    LexHead(s, i);
  }

  // ---------- derivations ----------

  datatype Item = Arg(w: string) | Into(file: File)
  datatype Piece = Simple(items: seq<Item>) | Group(line: Line, files: seq<File>)
  datatype Chain = One(e: Piece) | Piped(e: Piece, chain: Chain)
  datatype Line = Last(c: Chain, ands: nat) | Then(c: Chain, ands: nat, line: Line)

  function SignTok(m: Mode): (t: Tok) {
    match m case Read => Mark('<') case Write => Mark('>') case Extend => More
  }

  function FileToks(fs: seq<File>): (ts: seq<Tok>) {
    if fs == [] then [] else [SignTok(fs[0].mode), Name(fs[0].name)] + FileToks(fs[1..])
  }

  function ItemToks(xs: seq<Item>): (ts: seq<Tok>) {
    if xs == [] then [] else OneItem(xs[0]) + ItemToks(xs[1..])
  }

  function OneItem(x: Item): (ts: seq<Tok>) {
    match x case Arg(w) => [Name(w)] case Into(f) => [SignTok(f.mode), Name(f.name)]
  }

  function Ands(n: nat): (ts: seq<Tok>) {
    if n == 0 then [] else [Mark('&')] + Ands(n - 1)
  }

  function PieceToks(e: Piece): (ts: seq<Tok>)
    decreases e
  {
    match e
    case Simple(xs) => ItemToks(xs)
    case Group(l, fs) => [Mark('(')] + (LineToks(l) + ([Mark(')')] + FileToks(fs)))
  }

  function ChainToks(c: Chain): (ts: seq<Tok>)
    decreases c
  {
    match c
    case One(e) => PieceToks(e)
    case Piped(e, r) => PieceToks(e) + ([Mark('|')] + ChainToks(r))
  }

  function LineToks(l: Line): (ts: seq<Tok>)
    decreases l
  {
    match l
    case Last(c, n) => ChainToks(c) + Ands(n)
    case Then(c, n, r) => ChainToks(c) + (Ands(n) + ([Mark(';')] + LineToks(r)))
  }

  // ---------- what they mean ----------

  function ArgsOf(xs: seq<Item>): (ws: seq<string>) {
    if xs == [] then [] else (if xs[0].Arg? then [xs[0].w] else []) + ArgsOf(xs[1..])
  }

  function FilesIn(xs: seq<Item>): (fs: seq<File>) {
    if xs == [] then [] else (if xs[0].Arg? then [] else [xs[0].file]) + FilesIn(xs[1..])
  }

  function Backed(c: Cmd<string>, n: nat): (r: Cmd<string>) {
    if n == 0 then c else Back(Backed(c, n - 1))
  }

  function PieceMeans(e: Piece): (r: Cmd<string>)
    decreases e
  {
    match e
    case Simple(xs) => Around(Exec(ArgsOf(xs)), FilesIn(xs))
    case Group(l, fs) => Around(LineMeans(l), fs)
  }

  function ChainMeans(c: Chain): (r: Cmd<string>)
    decreases c
  {
    match c
    case One(e) => PieceMeans(e)
    case Piped(e, r) => Pipe(PieceMeans(e), ChainMeans(r))
  }

  function LineMeans(l: Line): (r: Cmd<string>)
    decreases l
  {
    match l
    case Last(c, n) => Backed(ChainMeans(c), n)
    case Then(c, n, r) => List(Backed(ChainMeans(c), n), LineMeans(r))
  }

  /** No simple command has too many words. */
  predicate PieceFits(e: Piece)
    decreases e
  {
    match e
    case Simple(xs) => |ArgsOf(xs)| < MAXARGS
    case Group(l, fs) => LineFits(l)
  }

  predicate ChainFits(c: Chain)
    decreases c
  {
    match c
    case One(e) => PieceFits(e)
    case Piped(e, r) => PieceFits(e) && ChainFits(r)
  }

  predicate LineFits(l: Line)
    decreases l
  {
    match l
    case Last(c, n) => ChainFits(c)
    case Then(c, n, r) => ChainFits(c) && LineFits(r)
  }

  ghost predicate Derives(t: Cmd<string>, ts: seq<Tok>) {
    exists l: Line :: LineToks(l) == ts && LineFits(l) && LineMeans(l) == t
  }

  // ---------- redirections ----------

  function Listed(s: string, rs: seq<Redirection>): (fs: seq<File>) {
    seq(|rs|, k requires 0 <= k < |rs| => File(Slice(s, rs[k].file), rs[k].mode))
  }

  lemma WrapMeans(s: string, c: Cmd<Place>, rs: seq<Redirection>)
    ensures TextOf(s, Wrap(c, rs)) == Around(TextOf(s, c), Listed(s, rs))
  {
    assert Named(s, rs, Listed(s, rs));
    WrapText(s, c, rs, Listed(s, rs));
  }

  lemma ListedMore(s: string, rs: seq<Redirection>, r: Redirection)
    ensures Listed(s, rs + [r]) == Listed(s, rs) + [File(Slice(s, r.file), r.mode)]
  {
  }

  lemma NoRedir(s: string, i: nat, rs: seq<Redirection>, ts: seq<Tok>)
    requires Reads(s, i, ts) == true && !Signed(ts)
    ensures Redirs(s, i, rs) == Some(Parsed(rs, Skip(s, i))) && Reads(s, Skip(s, i), ts) == true
  {
    assert Looked(0);
    PeekSigned(s, i);
    LexSkip(s, i);
  }

  /** The first two tokens. */
  lemma TwoRead(s: string, i: nat, ts: seq<Tok>)
    requires Reads(s, i, ts) == true && ts != []
    ensures var t := TokenAt(s, i);
            var f := TokenAt(s, t.next);
            && t.kind != End && i < t.next && ts[0] == TokOf(s, t) && Reads(s, t.next, ts[1..]) == true
            && (|ts| >= 2 <==> f.kind != End)
            && (|ts| >= 2 ==> t.next < f.next && ts[1] == TokOf(s, f) && Reads(s, f.next, ts[2..]) == true)
  {
    assert Looked(0);
    LexHead(s, i);
    LexHead(s, TokenAt(s, i).next);
    assert |ts| >= 2 ==> ts[1..][1..] == ts[2..];
  }

  lemma RedirOpens(s: string, i: nat, rs: seq<Redirection>, t: Token, f: Token)
    requires i <= |s| && Peek(s, i, "<>") && t == TokenAt(s, i) && f == TokenAt(s, t.next)
    ensures Redirs(s, i, rs) ==
            if f.kind != Word then None else Redirs(s, f.next, rs + [Redirection(Place(f.q, f.eq), ModeOf(t.kind))])
  {
    LexSkip(s, i);
  }

  /** One redirection: its sign and its file. */
  lemma OneRedirRead(s: string, i: nat, rs: seq<Redirection>, ts: seq<Tok>) returns (r: Redirection, j: nat)
    requires Reads(s, i, ts) == true && Signed(ts) && (Redirs(s, i, rs).Some? || (|ts| >= 2 && ts[1].Name?))
    ensures |ts| >= 2 && ts[0] == SignTok(r.mode) && ts[1] == Name(Slice(s, r.file))
    ensures i < j <= |s| && Reads(s, j, ts[2..]) == true && Redirs(s, i, rs) == Redirs(s, j, rs + [r])
  {
    assert Looked(0);
    PeekSigned(s, i);
    TwoRead(s, i, ts);
    var t := TokenAt(s, i);
    var f := TokenAt(s, t.next);
    KindOf(s, i);
    KindOf(s, t.next);
    RedirOpens(s, i, rs, t, f);
    r, j := Redirection(Place(f.q, f.eq), ModeOf(t.kind)), f.next;
  }

  lemma KindOf(s: string, i: nat)
    requires i <= |s|
    ensures var t := TokenAt(s, i);
            && (t.kind == Word ==> TokOf(s, t) == Name(Slice(s, Place(t.q, t.eq))))
            && (t.kind != End ==> (t.kind == Word <==> TokOf(s, t).Name?))
            && (t.kind != End && Signed([TokOf(s, t)]) ==> TokOf(s, t) == SignTok(ModeOf(t.kind)))
  {
  }

  lemma TwoFirst(a: Tok, b: Tok, x: seq<Tok>, y: seq<Tok>)
    ensures var z := ([a, b] + x) + y; |z| >= 2 && z[0] == a && z[1] == b && z[2..] == x + y
  {
  }

  lemma SameTwo(x: seq<Tok>, y: seq<Tok>)
    requires |x| >= 2 && |y| >= 2 && x[0] == y[0] && x[1] == y[1] && x[2..] == y[2..]
    ensures x == y
  {
    assert x == [x[0], x[1]] + x[2..] && y == [y[0], y[1]] + y[2..];
  }

  lemma {:induction false} FileCons(f: File, more: seq<File>)
    ensures FileToks([f] + more) == [SignTok(f.mode), Name(f.name)] + FileToks(more)
  {
    assert ([f] + more)[1..] == more;
  }

  lemma FileFirst(f: File, more: seq<File>, rest: seq<Tok>, ts: seq<Tok>)
    requires |ts| >= 2 && ts[0] == SignTok(f.mode) && ts[1] == Name(f.name) && ts[2..] == FileToks(more) + rest
    ensures ts == FileToks([f] + more) + rest
  {
    FileCons(f, more);
    TwoFirst(SignTok(f.mode), Name(f.name), FileToks(more), rest);
    SameTwo(ts, FileToks([f] + more) + rest);
  }

  lemma {:induction false} FileLast(fs: seq<File>, rest: seq<Tok>)
    requires fs != []
    ensures var ts := FileToks(fs) + rest;
            |ts| >= 2 && ts[0] == SignTok(fs[0].mode) && ts[1] == Name(fs[0].name) &&
                  ts[2..] == FileToks(fs[1..]) + rest
  {
    TwoFirst(SignTok(fs[0].mode), Name(fs[0].name), FileToks(fs[1..]), rest);
  }

  /** A result p of parsing redirections has fs behind those in rs, and rest comes next. */
  ghost predicate Gives(s: string, p: Option<Parsed<seq<Redirection>>>, rs: seq<Redirection>, fs: seq<File>,
                        rest: seq<Tok>) {
    p.Some? && Reads(s, p.value.next, rest) == true && Listed(s, p.value.value) == Listed(s, rs) + fs
  }

  lemma NoneRead(s: string, i: nat, rs: seq<Redirection>, rest: seq<Tok>)
    requires Reads(s, i, rest) == true && !Signed(rest)
    ensures Gives(s, Redirs(s, i, rs), rs, [], rest) == true
  {
    NoRedir(s, i, rs, rest);
  }

  lemma GivesMore(s: string, p: Option<Parsed<seq<Redirection>>>, rs: seq<Redirection>, r: Redirection,
                  more: seq<File>, rest: seq<Tok>)
    requires Gives(s, p, rs + [r], more, rest) == true
    ensures Gives(s, p, rs, [File(Slice(s, r.file), r.mode)] + more, rest) == true
  {
    ListedMore(s, rs, r);
    var f := File(Slice(s, r.file), r.mode);
    assert Listed(s, rs) + [f] + more == Listed(s, rs) + ([f] + more);
  }

  lemma {:induction false} RedirsSound(s: string, i: nat, rs: seq<Redirection>, ts: seq<Tok>)
    returns (fs: seq<File>, rest: seq<Tok>)
    requires Reads(s, i, ts) == true && Redirs(s, i, rs).Some?
    ensures ts == FileToks(fs) + rest && !Signed(rest) && Gives(s, Redirs(s, i, rs), rs, fs, rest) == true
    decreases |ts|
  {
    if !Signed(ts) {
      NoneRead(s, i, rs, ts);
      fs, rest := [], ts;
    } else {
      var r, j := OneRedirRead(s, i, rs, ts);
      var more;
      more, rest := RedirsSound(s, j, rs + [r], ts[2..]);
      var f := File(Slice(s, r.file), r.mode);
      fs := [f] + more;
      FileFirst(f, more, rest, ts);
      GivesMore(s, Redirs(s, j, rs + [r]), rs, r, more, rest);
    }
  }

  lemma {:induction false} RedirsComplete(s: string, i: nat, rs: seq<Redirection>, fs: seq<File>, rest: seq<Tok>)
    requires Reads(s, i, FileToks(fs) + rest) == true && !Signed(rest)
    ensures Gives(s, Redirs(s, i, rs), rs, fs, rest) == true
    decreases |fs|
  {
    var ts := FileToks(fs) + rest;
    if fs == [] {
      assert ts == rest;
      NoneRead(s, i, rs, rest);
    } else {
      FileLast(fs, rest);
      var r, j := OneRedirRead(s, i, rs, ts);
      RedirsComplete(s, j, rs + [r], fs[1..], rest);
      GivesMore(s, Redirs(s, j, rs + [r]), rs, r, fs[1..], rest);
      assert SignTok(r.mode) == SignTok(fs[0].mode) && r.mode == fs[0].mode;
      assert File(Slice(s, r.file), r.mode) == fs[0];
      assert [fs[0]] + fs[1..] == fs;
    }
  }

  // ---------- simple commands ----------

  /** A result p of parsing a command is c, and rest comes next. */
  ghost predicate Parses(s: string, p: Option<Parsed<Cmd<Place>>>, c: Cmd<string>, rest: seq<Tok>) {
    p.Some? && Reads(s, p.value.next, rest) == true && TextOf(s, p.value.value) == c
  }

  function Intos(fs: seq<File>): (xs: seq<Item>) {
    if fs == [] then [] else [Into(fs[0])] + Intos(fs[1..])
  }

  lemma Regroup<T>(a: seq<T>, b: seq<T>, c: seq<T>)
    ensures (a + b) + c == a + (b + c)
  {
  }

  lemma {:induction false} IntosToks(fs: seq<File>, ys: seq<Item>)
    ensures ItemToks(Intos(fs) + ys) == FileToks(fs) + ItemToks(ys)
    decreases |fs|
  {
    if fs == [] {
      assert Intos(fs) + ys == ys;
    } else {
      var x, xs := Into(fs[0]), Intos(fs[1..]) + ys;
      Regroup([x], Intos(fs[1..]), ys);
      assert ([x] + xs)[1..] == xs;
      IntosToks(fs[1..], ys);
      Regroup(OneItem(x), FileToks(fs[1..]), ItemToks(ys));
    }
  }

  lemma {:induction false} IntosParts(fs: seq<File>, ys: seq<Item>)
    ensures ArgsOf(Intos(fs) + ys) == ArgsOf(ys) && FilesIn(Intos(fs) + ys) == fs + FilesIn(ys)
    decreases |fs|
  {
    if fs == [] {
      assert Intos(fs) + ys == ys;
    } else {
      var x, xs := Into(fs[0]), Intos(fs[1..]) + ys;
      Regroup([x], Intos(fs[1..]), ys);
      assert ([x] + xs)[1..] == xs;
      IntosParts(fs[1..], ys);
      Regroup([fs[0]], fs[1..], FilesIn(ys));
      assert fs == [fs[0]] + fs[1..];
    }
  }

  /** A word, the redirections behind it, and the rest of a simple command. */
  lemma {:induction false} ItemsFirst(w: string, fs: seq<File>, ys: seq<Item>)
    ensures var xs := [Arg(w)] + (Intos(fs) + ys);
            && ItemToks(xs) == [Name(w)] + (FileToks(fs) + ItemToks(ys))
            && ArgsOf(xs) == [w] + ArgsOf(ys) && FilesIn(xs) == fs + FilesIn(ys)
  {
    var xs := [Arg(w)] + (Intos(fs) + ys);
    assert xs[0] == Arg(w) && xs[1..] == Intos(fs) + ys;
    IntosToks(fs, ys);
    IntosParts(fs, ys);
  }

  /** The redirections that a list of items begins with. */
  lemma {:induction false} LeadOf(xs: seq<Item>) returns (fs: seq<File>, ys: seq<Item>)
    ensures xs == Intos(fs) + ys && (ys == [] || ys[0].Arg?) && |ys| <= |xs|
    decreases |xs|
  {
    if xs == [] || xs[0].Arg? {
      fs, ys := [], xs;
    } else {
      var more;
      more, ys := LeadOf(xs[1..]);
      fs := [xs[0].file] + more;
      assert fs[1..] == more && xs == [xs[0]] + xs[1..];
    }
  }

  lemma ArgsClosed(s: string, i: nat, argv: seq<Place>, rs: seq<Redirection>, ts: seq<Tok>)
    requires Reads(s, i, ts) == true && Closed(ts)
    ensures Parses(s, Args(s, i, argv, rs), Around(Exec(Slices(s, argv)), Listed(s, rs)), ts) == true
  {
    assert Looked(0);
    PeekClosed(s, i);
    LexSkip(s, i);
    LexHead(s, i);
    WrapMeans(s, Exec(argv), rs);
  }

  /** What Args does once it has a word: the redirections behind it, and on. */
  function AfterWord(s: string, j: nat, argv: seq<Place>, rs: seq<Redirection>): (r: Option<Parsed<Cmd<Place>>>)
    requires j <= |s|
  {
    match Redirs(s, j, rs)
    case None => None
    case Some(q) => Args(s, q.next, argv, q.value)
  }

  lemma ArgsWord(s: string, i: nat, argv: seq<Place>, rs: seq<Redirection>, ts: seq<Tok>) returns (p: Place, j: nat)
    requires Reads(s, i, ts) == true && !Closed(ts)
    requires Args(s, i, argv, rs).Some? || (ts[0].Name? && |argv| + 1 < MAXARGS)
    ensures ts[0] == Name(Slice(s, p)) && |argv| + 1 < MAXARGS && i < j <= |s| && Reads(s, j, ts[1..]) == true
    ensures Args(s, i, argv, rs) == AfterWord(s, j, argv + [p], rs)
  {
    assert Looked(0);
    PeekClosed(s, i);
    LexSkip(s, i);
    LexHead(s, i);
    var t := TokenAt(s, i);
    p, j := Place(t.q, t.eq), t.next;
  }

  /** What a simple command means, with the words and redirections found already. */
  function Found(s: string, argv: seq<Place>, rs: seq<Redirection>, xs: seq<Item>): (c: Cmd<string>) {
    Around(Exec(Slices(s, argv) + ArgsOf(xs)), Listed(s, rs) + FilesIn(xs))
  }

  lemma FoundNone(s: string, argv: seq<Place>, rs: seq<Redirection>)
    ensures Found(s, argv, rs, []) == Around(Exec(Slices(s, argv)), Listed(s, rs))
  {
    assert Slices(s, argv) + [] == Slices(s, argv) && Listed(s, rs) + [] == Listed(s, rs);
  }

  lemma FoundMore(s: string, argv: seq<Place>, p: Place, rs: seq<Redirection>, more: seq<Redirection>, fs: seq<File>,
                  ys: seq<Item>)
    requires Listed(s, more) == Listed(s, rs) + fs
    ensures Found(s, argv + [p], more, ys) == Found(s, argv, rs, [Arg(Slice(s, p))] + (Intos(fs) + ys))
  {
    var w := Slice(s, p);
    ItemsFirst(w, fs, ys);
    assert Slices(s, argv + [p]) + ArgsOf(ys) == Slices(s, argv) + ([w] + ArgsOf(ys));
    assert Listed(s, rs) + fs + FilesIn(ys) == Listed(s, rs) + (fs + FilesIn(ys));
  }

  lemma {:induction false} ArgsSound(s: string, i: nat, argv: seq<Place>, rs: seq<Redirection>, ts: seq<Tok>)
    returns (xs: seq<Item>, rest: seq<Tok>)
    requires Reads(s, i, ts) == true && Args(s, i, argv, rs).Some? && |argv| < MAXARGS
    ensures ts == ItemToks(xs) + rest && |argv| + |ArgsOf(xs)| < MAXARGS
    ensures Parses(s, Args(s, i, argv, rs), Found(s, argv, rs, xs), rest) == true
    decreases |ts|
  {
    if Closed(ts) {
      ArgsClosed(s, i, argv, rs, ts);
      FoundNone(s, argv, rs);
      xs, rest := [], ts;
    } else {
      var p, j := ArgsWord(s, i, argv, rs, ts);
      var fs, mid := RedirsSound(s, j, rs, ts[1..]);
      var q := Redirs(s, j, rs).value;
      var ys;
      ys, rest := ArgsSound(s, q.next, argv + [p], q.value, mid);
      xs := [Arg(Slice(s, p))] + (Intos(fs) + ys);
      FoundMore(s, argv, p, rs, q.value, fs, ys);
      ItemsFirst(Slice(s, p), fs, ys);
      WordThen(ts, Slice(s, p), FileToks(fs), ItemToks(ys), rest);
    }
  }

  lemma WordThen(ts: seq<Tok>, w: string, a: seq<Tok>, b: seq<Tok>, rest: seq<Tok>)
    requires ts != []
    ensures ts == ([Name(w)] + (a + b)) + rest <==> ts[0] == Name(w) && ts[1..] == a + (b + rest)
  {
    var z := ([Name(w)] + (a + b)) + rest;
    assert z[0] == Name(w) && z[1..] == a + (b + rest);
    assert ts == [ts[0]] + ts[1..] && z == [z[0]] + z[1..];
  }

  lemma NotSigned(ys: seq<Item>, rest: seq<Tok>)
    requires (ys == [] || ys[0].Arg?) && Closed(rest)
    ensures !Signed(ItemToks(ys) + rest) && !Starts(ItemToks(ys) + rest, '(')
  {
    if ys == [] {
      assert ItemToks(ys) + rest == rest;
    } else {
      assert (ItemToks(ys) + rest)[0] == Name(ys[0].w);
    }
  }

  lemma {:induction false} ArgsComplete(s: string, i: nat, argv: seq<Place>, rs: seq<Redirection>, xs: seq<Item>,
                                        rest: seq<Tok>)
    requires Reads(s, i, ItemToks(xs) + rest) == true && Closed(rest) && (xs == [] || xs[0].Arg?)
    requires |argv| + |ArgsOf(xs)| < MAXARGS
    ensures Parses(s, Args(s, i, argv, rs), Found(s, argv, rs, xs), rest) == true
    decreases |xs|
  {
    var ts := ItemToks(xs) + rest;
    if xs == [] {
      assert ts == rest;
      ArgsClosed(s, i, argv, rs, ts);
      FoundNone(s, argv, rs);
    } else {
      var w := xs[0].w;
      var fs, ys := LeadOf(xs[1..]);
      assert xs == [Arg(w)] + (Intos(fs) + ys);
      ItemsFirst(w, fs, ys);
      assert ts != [];
      WordThen(ts, w, FileToks(fs), ItemToks(ys), rest);
      var p, j := ArgsWord(s, i, argv, rs, ts);
      NotSigned(ys, rest);
      RedirsComplete(s, j, rs, fs, ItemToks(ys) + rest);
      var q := Redirs(s, j, rs).value;
      ArgsComplete(s, q.next, argv + [p], q.value, ys, rest);
      FoundMore(s, argv, p, rs, q.value, fs, ys);
    }
  }

  // ---------- one step of each rule ----------

  /** Behind a symbol. */
  lemma MarkRead(s: string, i: nat, ts: seq<Tok>, c: char)
    requires Reads(s, i, ts) == true && c in "|)&;("
    ensures Peek(s, i, [c]) <==> Starts(ts, c)
    ensures Reads(s, Skip(s, i), ts) == true && TokenAt(s, Skip(s, i)) == TokenAt(s, i)
    ensures Starts(ts, c) ==> i < TokenAt(s, i).next && Reads(s, TokenAt(s, i).next, ts[1..]) == true
    ensures Starts(ts, '(') ==> Skip(s, i) < |s| && s[Skip(s, i)] == '('
  {
    assert Looked(0);
    PeekStarts(s, i, c);
    PeekStarts(s, i, '(');
    LexSkip(s, i);
    LexHead(s, i);
  }

  /** What parseblock does once it has a line. */
  function AfterLine(s: string, p: Parsed<Cmd<Place>>): (r: Option<Parsed<Cmd<Place>>>)
    requires p.next <= |s|
  {
    if !Peek(s, p.next, ")") then None
    else
      match Redirs(s, TokenAt(s, Skip(s, p.next)).next, [])
      case None => None
      case Some(q) => Some(Parsed(Wrap(p.value, q.value), q.next))
  }

  /** What parsepipe does once it has a command. */
  function AfterExec(s: string, p: Parsed<Cmd<Place>>): (r: Option<Parsed<Cmd<Place>>>)
    requires p.next <= |s|
  {
    if !Peek(s, p.next, "|") then Some(Parsed(p.value, Skip(s, p.next)))
    else
      match ParsePipe(s, TokenAt(s, Skip(s, p.next)).next)
      case None => None
      case Some(l) => Some(Parsed(Pipe(p.value, l.value), l.next))
  }

  /** What parseline does behind the `&`s. */
  function AfterBacks(s: string, b: Parsed<Cmd<Place>>): (r: Option<Parsed<Cmd<Place>>>)
    requires b.next <= |s|
  {
    if !Peek(s, b.next, ";") then Some(Parsed(b.value, Skip(s, b.next)))
    else
      match ParseLine(s, TokenAt(s, Skip(s, b.next)).next)
      case None => None
      case Some(l) => Some(Parsed(List(b.value, l.value), l.next))
  }

  lemma ExecOpens(s: string, i: nat, ts: seq<Tok>)
    requires Reads(s, i, ts) == true
    ensures Starts(ts, '(') ==> Skip(s, i) < |s| && s[Skip(s, i)] == '(' && ParseExec(s, i) == ParseBlock(s, Skip(s, i))
    ensures !Starts(ts, '(') ==> ParseExec(s, i) == AfterWord(s, Skip(s, i), [], [])
  {
    MarkRead(s, i, ts, '(');
  }

  lemma BlockOpens(s: string, i: nat)
    requires i < |s| && s[i] == '('
    ensures var r := ParseLine(s, TokenAt(s, i).next);
            ParseBlock(s, i) == if r.None? then None else AfterLine(s, r.value)
  {
  }

  lemma GroupOpens(s: string, i: nat, ts: seq<Tok>)
    requires Reads(s, i, ts) == true && Starts(ts, '(')
    ensures Reads(s, TokenAt(s, i).next, ts[1..]) == true
    ensures var r := ParseLine(s, TokenAt(s, i).next);
            ParseExec(s, i) == if r.None? then None else AfterLine(s, r.value)
  {
    ExecOpens(s, i, ts);
    MarkRead(s, i, ts, '(');
    BlockOpens(s, Skip(s, i));
  }

  lemma PipeOpens(s: string, i: nat)
    requires i <= |s|
    ensures var r := ParseExec(s, i); ParsePipe(s, i) == if r.None? then None else AfterExec(s, r.value)
  {
  }

  lemma LineOpens(s: string, i: nat)
    requires i <= |s|
    ensures var r := ParsePipe(s, i);
            ParseLine(s, i) == if r.None? then None else AfterBacks(s, Backs(s, r.value.next, r.value.value))
  {
  }

  // ---------- what the parser accepts has a derivation ----------

  lemma {:induction false} BackedIn(c: Cmd<string>, n: nat)
    ensures Backed(Back(c), n) == Backed(c, n + 1)
  {
    if n > 0 {
      BackedIn(c, n - 1);
    }
  }

  lemma BacksOpens(s: string, i: nat, c: Cmd<Place>, ts: seq<Tok>)
    requires Reads(s, i, ts) == true
    ensures Starts(ts, '&') ==>
              && i < TokenAt(s, i).next && Reads(s, TokenAt(s, i).next, ts[1..]) == true
              && Backs(s, i, c) == Backs(s, TokenAt(s, i).next, Back(c))
    ensures !Starts(ts, '&') ==> Backs(s, i, c) == Parsed(c, Skip(s, i)) && Reads(s, Skip(s, i), ts) == true
  {
    MarkRead(s, i, ts, '&');
  }

  lemma {:induction false} AndsMore(m: nat, ts: seq<Tok>, rest: seq<Tok>)
    requires ts != []
    ensures ts == Ands(m + 1) + rest <==> ts[0] == Mark('&') && ts[1..] == Ands(m) + rest
  {
    OneFirst(Mark('&'), Ands(m), rest, ts);
  }

  lemma OneFirst(a: Tok, x: seq<Tok>, y: seq<Tok>, ts: seq<Tok>)
    requires ts != []
    ensures ts == ([a] + x) + y <==> ts[0] == a && ts[1..] == x + y
  {
    var z := ([a] + x) + y;
    assert z[0] == a && z[1..] == x + y;
    assert ts == [ts[0]] + ts[1..] && z == [z[0]] + z[1..];
  }

  /** Behind a command c there are n `&`s, and then rest. */
  ghost predicate BacksAre(s: string, i: nat, c: Cmd<Place>, n: nat, rest: seq<Tok>) {
    i <= |s| && forall k: nat {:trigger Looked(k)} ::
      Looked(k) ==> Parses(s, Some(Backs(s, i, c)), Backed(TextOf(s, c), n), rest) == true
  }

  lemma NoBacks(s: string, i: nat, c: Cmd<Place>, rest: seq<Tok>)
    requires Reads(s, i, rest) == true && !Starts(rest, '&')
    ensures BacksAre(s, i, c, 0, rest) == true
  {
    BacksOpens(s, i, c, rest);
  }

  lemma {:induction false} BackOnce(s: string, i: nat, c: Cmd<Place>, m: nat, ts: seq<Tok>, rest: seq<Tok>)
    requires Reads(s, i, ts) == true && Starts(ts, '&') && BacksAre(s, TokenAt(s, i).next, Back(c), m, rest) == true
    ensures BacksAre(s, i, c, m + 1, rest) == true
  {
    BacksOpens(s, i, c, ts);
    BackedIn(TextOf(s, c), m);
  }

  lemma {:induction false} BacksSound(s: string, i: nat, c: Cmd<Place>, ts: seq<Tok>) returns (n: nat, rest: seq<Tok>)
    requires Reads(s, i, ts) == true
    ensures ts == Ands(n) + rest && !Starts(rest, '&') && BacksAre(s, i, c, n, rest) == true
    decreases |ts|
  {
    if !Starts(ts, '&') {
      NoBacks(s, i, c, ts);
      n, rest := 0, ts;
    } else {
      MarkRead(s, i, ts, '&');
      var m;
      m, rest := BacksSound(s, TokenAt(s, i).next, Back(c), ts[1..]);
      n := m + 1;
      BackOnce(s, i, c, m, ts, rest);
      AndsMore(m, ts, rest);
    }
  }

  lemma {:induction false} SimpleSound(s: string, i: nat, ts: seq<Tok>) returns (e: Piece, rest: seq<Tok>)
    requires Reads(s, i, ts) == true && AfterWord(s, i, [], []).Some?
    ensures ts == PieceToks(e) + rest && PieceFits(e) && Parses(s, AfterWord(s, i, [], []), PieceMeans(e), rest) == true
  {
    var fs, mid := RedirsSound(s, i, [], ts);
    var q := Redirs(s, i, []).value;
    var ys;
    ys, rest := ArgsSound(s, q.next, [], q.value, mid);
    e := Simple(Intos(fs) + ys);
    IntosToks(fs, ys);
    IntosParts(fs, ys);
    Regroup(FileToks(fs), ItemToks(ys), rest);
    FoundAll(s, q.value, fs, ys);
  }

  lemma FoundAll(s: string, rs: seq<Redirection>, fs: seq<File>, ys: seq<Item>)
    requires Listed(s, rs) == Listed(s, []) + fs
    ensures Found(s, [], rs, ys) == PieceMeans(Simple(Intos(fs) + ys))
  {
    IntosParts(fs, ys);
    assert Slices(s, []) + ArgsOf(ys) == ArgsOf(ys) && Listed(s, []) + fs == fs;
  }

  lemma AfterLineSound(s: string, p: Parsed<Cmd<Place>>, c: Cmd<string>, ts: seq<Tok>)
    returns (fs: seq<File>, rest: seq<Tok>)
    requires Parses(s, Some(p), c, ts) == true && AfterLine(s, p).Some?
    ensures ts == [Mark(')')] + (FileToks(fs) + rest) && Parses(s, AfterLine(s, p), Around(c, fs), rest) == true
  {
    MarkRead(s, p.next, ts, ')');
    var k := TokenAt(s, p.next).next;
    fs, rest := RedirsSound(s, k, [], ts[1..]);
    WrapMeans(s, p.value, Redirs(s, k, []).value.value);
    assert Listed(s, []) + fs == fs && ts == [ts[0]] + ts[1..];
  }

  lemma {:induction false} ExecSound(s: string, i: nat, ts: seq<Tok>) returns (e: Piece, rest: seq<Tok>)
    requires Reads(s, i, ts) == true && ParseExec(s, i).Some?
    ensures ts == PieceToks(e) + rest && PieceFits(e) && Parses(s, ParseExec(s, i), PieceMeans(e), rest) == true
    decreases |ts|, 1
  {
    if !Starts(ts, '(') {
      ExecOpens(s, i, ts);
      MarkRead(s, i, ts, '(');
      e, rest := SimpleSound(s, Skip(s, i), ts);
    } else {
      GroupOpens(s, i, ts);
      var j := TokenAt(s, i).next;
      var l, mid := LineSound(s, j, ts[1..]);
      var p := ParseLine(s, j).value;
      var fs;
      fs, rest := AfterLineSound(s, p, LineMeans(l), mid);
      e := Group(l, fs);
      GroupToks(ts, l, fs, rest);
    }
  }

  lemma GroupToks(ts: seq<Tok>, l: Line, fs: seq<File>, rest: seq<Tok>)
    requires ts != []
    ensures ts == PieceToks(Group(l, fs)) + rest <==>
            ts[0] == Mark('(') && ts[1..] == LineToks(l) + ([Mark(')')] + (FileToks(fs) + rest))
  {
    var x, y, z := LineToks(l), [Mark(')')], FileToks(fs);
    Regroup([Mark('(')], x + (y + z), rest);
    Regroup(x, y + z, rest);
    Regroup(y, z, rest);
    assert ts == [ts[0]] + ts[1..];
    assert ([Mark('(')] + (x + (y + (z + rest))))[1..] == x + (y + (z + rest));
  }

  lemma {:induction false} PipeSound(s: string, i: nat, ts: seq<Tok>) returns (c: Chain, rest: seq<Tok>)
    requires Reads(s, i, ts) == true && ParsePipe(s, i).Some?
    ensures ts == ChainToks(c) + rest && ChainFits(c) && Parses(s, ParsePipe(s, i), ChainMeans(c), rest) == true
    decreases |ts|, 2
  {
    PipeOpens(s, i);
    var e, mid := ExecSound(s, i, ts);
    var p := ParseExec(s, i).value;
    MarkRead(s, p.next, mid, '|');
    if !Starts(mid, '|') {
      c, rest := One(e), mid;
    } else {
      var d;
      d, rest := PipeSound(s, TokenAt(s, p.next).next, mid[1..]);
      c := Piped(e, d);
      PipedToks(ts, e, d, rest, mid);
    }
  }

  lemma PipedToks(ts: seq<Tok>, e: Piece, d: Chain, rest: seq<Tok>, mid: seq<Tok>)
    requires ts == PieceToks(e) + mid && mid != [] && mid[0] == Mark('|') && mid[1..] == ChainToks(d) + rest
    ensures ts == ChainToks(Piped(e, d)) + rest
  {
    assert mid == [Mark('|')] + mid[1..];
    Regroup([Mark('|')], ChainToks(d), rest);
    Regroup(PieceToks(e), [Mark('|')] + ChainToks(d), rest);
  }

  lemma {:induction false} LineSound(s: string, i: nat, ts: seq<Tok>) returns (l: Line, rest: seq<Tok>)
    requires Reads(s, i, ts) == true && ParseLine(s, i).Some?
    ensures ts == LineToks(l) + rest && LineFits(l) && Parses(s, ParseLine(s, i), LineMeans(l), rest) == true
    decreases |ts|, 3
  {
    LineOpens(s, i);
    var c, mid := PipeSound(s, i, ts);
    var p := ParsePipe(s, i).value;
    var n, tail := BacksSound(s, p.next, p.value, mid);
    assert Looked(0);
    var b := Backs(s, p.next, p.value);
    MarkRead(s, b.next, tail, ';');
    if !Starts(tail, ';') {
      l, rest := Last(c, n), tail;
      Regroup(ChainToks(c), Ands(n), rest);
    } else {
      var m;
      m, rest := LineSound(s, TokenAt(s, b.next).next, tail[1..]);
      l := Then(c, n, m);
      ThenToks(ts, c, n, m, rest, tail);
    }
  }

  lemma ThenToks(ts: seq<Tok>, c: Chain, n: nat, m: Line, rest: seq<Tok>, tail: seq<Tok>)
    requires ts == ChainToks(c) + (Ands(n) + tail) && tail != [] && tail[0] == Mark(';')
    requires tail[1..] == LineToks(m) + rest
    ensures ts == LineToks(Then(c, n, m)) + rest
  {
    var x, y, z, w := ChainToks(c), Ands(n), [Mark(';')], LineToks(m);
    assert tail == z + tail[1..];
    Regroup(z, w, rest);
    Regroup(y, z + w, rest);
    Regroup(x, y + (z + w), rest);
  }

  // ---------- what has a derivation is accepted ----------

  lemma {:induction false} BacksComplete(s: string, i: nat, c: Cmd<Place>, n: nat, rest: seq<Tok>)
    requires Reads(s, i, Ands(n) + rest) == true && !Starts(rest, '&')
    ensures BacksAre(s, i, c, n, rest) == true
    decreases n
  {
    var ts := Ands(n) + rest;
    if n == 0 {
      assert ts == rest;
      NoBacks(s, i, c, rest);
    } else {
      AndsMore(n - 1, ts, rest);
      MarkRead(s, i, ts, '&');
      BacksComplete(s, TokenAt(s, i).next, Back(c), n - 1, rest);
      BackOnce(s, i, c, n - 1, ts, rest);
    }
  }

  lemma {:induction false} SimpleStarts(fs: seq<File>, ys: seq<Item>, rest: seq<Tok>)
    requires (ys == [] || ys[0].Arg?) && Closed(rest)
    ensures !Starts(FileToks(fs) + (ItemToks(ys) + rest), '(')
  {
    NotSigned(ys, rest);
    if fs == [] {
      assert FileToks(fs) + (ItemToks(ys) + rest) == ItemToks(ys) + rest;
    } else {
      FileLast(fs, ItemToks(ys) + rest);
    }
  }

  lemma {:induction false} ItemsComplete(s: string, i: nat, fs: seq<File>, ys: seq<Item>, rest: seq<Tok>)
    requires Reads(s, i, FileToks(fs) + (ItemToks(ys) + rest)) == true && Closed(rest)
    requires (ys == [] || ys[0].Arg?) && |ArgsOf(ys)| < MAXARGS
    ensures Parses(s, AfterWord(s, i, [], []), PieceMeans(Simple(Intos(fs) + ys)), rest) == true
  {
    NotSigned(ys, rest);
    RedirsComplete(s, i, [], fs, ItemToks(ys) + rest);
    var q := Redirs(s, i, []).value;
    ArgsComplete(s, q.next, [], q.value, ys, rest);
    FoundAll(s, q.value, fs, ys);
  }

  lemma {:induction false} SimpleComplete(s: string, i: nat, xs: seq<Item>, rest: seq<Tok>)
    requires Reads(s, i, ItemToks(xs) + rest) == true && Closed(rest) && |ArgsOf(xs)| < MAXARGS
    ensures Parses(s, ParseExec(s, i), PieceMeans(Simple(xs)), rest) == true
  {
    var fs, ys := LeadOf(xs);
    IntosToks(fs, ys);
    IntosParts(fs, ys);
    Regroup(FileToks(fs), ItemToks(ys), rest);
    var ts := ItemToks(xs) + rest;
    SimpleStarts(fs, ys, rest);
    ExecOpens(s, i, ts);
    MarkRead(s, i, ts, '(');
    ItemsComplete(s, Skip(s, i), fs, ys, rest);
  }

  lemma AfterLineComplete(s: string, p: Parsed<Cmd<Place>>, c: Cmd<string>, fs: seq<File>, rest: seq<Tok>)
    requires Parses(s, Some(p), c, [Mark(')')] + (FileToks(fs) + rest)) == true && !Signed(rest)
    ensures Parses(s, AfterLine(s, p), Around(c, fs), rest) == true
  {
    var ts := [Mark(')')] + (FileToks(fs) + rest);
    MarkRead(s, p.next, ts, ')');
    assert ts[1..] == FileToks(fs) + rest;
    var k := TokenAt(s, p.next).next;
    RedirsComplete(s, k, [], fs, rest);
    WrapGiven(s, p.value, c, Redirs(s, k, []), fs, rest);
  }

  lemma WrapGiven(s: string, d: Cmd<Place>, c: Cmd<string>, q: Option<Parsed<seq<Redirection>>>, fs: seq<File>,
                  rest: seq<Tok>)
    requires TextOf(s, d) == c && Gives(s, q, [], fs, rest) == true
    ensures q.Some? && Parses(s, Some(Parsed(Wrap(d, q.value.value), q.value.next)), Around(c, fs), rest) == true
  {
    WrapMeans(s, d, q.value.value);
    assert Listed(s, []) + fs == fs;
  }

  lemma {:induction false} ExecComplete(s: string, i: nat, e: Piece, rest: seq<Tok>)
    requires Reads(s, i, PieceToks(e) + rest) == true && PieceFits(e) && Closed(rest)
    ensures Parses(s, ParseExec(s, i), PieceMeans(e), rest) == true
    decreases e
  {
    match e
    case Simple(xs) => SimpleComplete(s, i, xs, rest);
    case Group(l, fs) =>
      var mid := [Mark(')')] + (FileToks(fs) + rest);
      var j := GroupEnters(s, i, l, fs, rest, mid);
      LineComplete(s, j, l, mid);
      GroupEnds(s, i, j, LineMeans(l), fs, rest, mid);
  }

  lemma GroupEnds(s: string, i: nat, j: nat, c: Cmd<string>, fs: seq<File>, rest: seq<Tok>, mid: seq<Tok>)
    requires i <= |s| && j <= |s| && Parses(s, ParseLine(s, j), c, mid) == true && Closed(rest)
    requires mid == [Mark(')')] + (FileToks(fs) + rest)
    requires var r := ParseLine(s, j); ParseExec(s, i) == if r.None? then None else AfterLine(s, r.value)
    ensures Parses(s, ParseExec(s, i), Around(c, fs), rest) == true
  {
    AfterLineComplete(s, ParseLine(s, j).value, c, fs, rest);
  }

  lemma GroupEnters(s: string, i: nat, l: Line, fs: seq<File>, rest: seq<Tok>, mid: seq<Tok>) returns (j: nat)
    requires Reads(s, i, PieceToks(Group(l, fs)) + rest) == true && mid == [Mark(')')] + (FileToks(fs) + rest)
    ensures Reads(s, j, LineToks(l) + mid) == true
    ensures var r := ParseLine(s, j); ParseExec(s, i) == if r.None? then None else AfterLine(s, r.value)
  {
    var ts := PieceToks(Group(l, fs)) + rest;
    GroupToks(ts, l, fs, rest);
    GroupOpens(s, i, ts);
    j := TokenAt(s, i).next;
  }

  lemma {:induction false} PipeComplete(s: string, i: nat, c: Chain, rest: seq<Tok>)
    requires Reads(s, i, ChainToks(c) + rest) == true && ChainFits(c) && Closed(rest) && !Starts(rest, '|')
    ensures Parses(s, ParsePipe(s, i), ChainMeans(c), rest) == true
    decreases c
  {
    PipeOpens(s, i);
    match c
    case One(e) =>
      ExecComplete(s, i, e, rest);
      MarkRead(s, ParseExec(s, i).value.next, rest, '|');
    case Piped(e, d) =>
      var mid := [Mark('|')] + (ChainToks(d) + rest);
      Regroup([Mark('|')], ChainToks(d), rest);
      Regroup(PieceToks(e), [Mark('|')] + ChainToks(d), rest);
      ExecComplete(s, i, e, mid);
      var p := ParseExec(s, i).value;
      MarkRead(s, p.next, mid, '|');
      assert mid[1..] == ChainToks(d) + rest;
      PipeComplete(s, TokenAt(s, p.next).next, d, rest);
  }

  lemma {:induction false} LineComplete(s: string, i: nat, l: Line, rest: seq<Tok>)
    requires Reads(s, i, LineToks(l) + rest) == true && LineFits(l) && (rest == [] || Starts(rest, ')'))
    ensures Parses(s, ParseLine(s, i), LineMeans(l), rest) == true
    decreases l
  {
    var tail := if l.Last? then rest else [Mark(';')] + (LineToks(l.line) + rest);
    LineSplits(l, rest, tail);
    AndsClosed(l.ands, tail);
    PipeComplete(s, i, l.c, Ands(l.ands) + tail);
    var b := BackedComplete(s, i, ChainMeans(l.c), l.ands, tail);
    MarkRead(s, b.next, tail, ';');
    if l.Then? {
      assert tail[1..] == LineToks(l.line) + rest;
      LineComplete(s, TokenAt(s, b.next).next, l.line, rest);
    }
  }

  lemma BackedComplete(s: string, i: nat, c: Cmd<string>, n: nat, tail: seq<Tok>) returns (b: Parsed<Cmd<Place>>)
    requires i <= |s| && Parses(s, ParsePipe(s, i), c, Ands(n) + tail) == true && !Starts(tail, '&')
    ensures Parses(s, Some(b), Backed(c, n), tail) == true && b.next <= |s| && ParseLine(s, i) == AfterBacks(s, b)
  {
    LineOpens(s, i);
    var p := ParsePipe(s, i).value;
    assert Looked(0);
    BacksComplete(s, p.next, p.value, n, tail);
    b := Backs(s, p.next, p.value);
  }

  lemma LineSplits(l: Line, rest: seq<Tok>, tail: seq<Tok>)
    requires tail == if l.Last? then rest else [Mark(';')] + (LineToks(l.line) + rest)
    ensures LineToks(l) + rest == ChainToks(l.c) + (Ands(l.ands) + tail)
  {
    if l.Last? {
      Regroup(ChainToks(l.c), Ands(l.ands), rest);
    } else {
      ThenToks(ChainToks(l.c) + (Ands(l.ands) + tail), l.c, l.ands, l.line, rest, tail);
    }
  }

  lemma {:induction false} AndsClosed(n: nat, tail: seq<Tok>)
    requires tail == [] || Starts(tail, ')') || Starts(tail, ';')
    ensures Closed(Ands(n) + tail) && !Starts(Ands(n) + tail, '|')
  {
    if n == 0 {
      assert Ands(n) + tail == tail;
    } else {
      assert (Ands(n) + tail)[0] == Mark('&');
    }
  }

  // ---------- the language of the shell ----------

  /** parsecmd accepts exactly the language: a text is read as a command if and only if its tokens derive it. */
  lemma ParsesExactly(s: string, t: Cmd<string>)
    ensures (ParseCmd(s).Some? && TextOf(s, ParseCmd(s).value) == t) <==> Derives(t, Lex(s, 0))
  {
    assert Looked(0);
    var ts := Lex(s, 0);
    if ParseCmd(s).Some? && TextOf(s, ParseCmd(s).value) == t {
      var l, rest := LineSound(s, 0, ts);
      LexHead(s, ParseLine(s, 0).value.next);
      assert rest == [] && LineToks(l) == ts;
    }
    if Derives(t, ts) {
      var l: Line :| LineToks(l) == ts && LineFits(l) && LineMeans(l) == t;
      assert LineToks(l) + [] == ts;
      LineComplete(s, 0, l, []);
      LexHead(s, ParseLine(s, 0).value.next);
    }
  }

  /** So it gives up exactly if there is no derivation, and no text can be read in two ways. */
  lemma RefusesExactly(s: string)
    ensures ParseCmd(s).None? <==> forall l: Line :: LineToks(l) == Lex(s, 0) ==> !LineFits(l)
    ensures forall l: Line, m: Line :: LineToks(l) == Lex(s, 0) == LineToks(m) && LineFits(l) && LineFits(m) ==>
              LineMeans(l) == LineMeans(m)
  {
    forall l: Line | LineToks(l) == Lex(s, 0) && LineFits(l)
      ensures ParseCmd(s).Some? && TextOf(s, ParseCmd(s).value) == LineMeans(l)
    {
      ParsesExactly(s, LineMeans(l));
      assert Derives(LineMeans(l), Lex(s, 0));
    }
    if ParseCmd(s).Some? {
      var t := TextOf(s, ParseCmd(s).value);
      ParsesExactly(s, t);
      var l: Line :| LineToks(l) == Lex(s, 0) && LineFits(l) && LineMeans(l) == t;
      assert !(LineToks(l) == Lex(s, 0) ==> !LineFits(l));
    }
  }

  /** The tokens are all of the text but its blanks. */
  lemma {:induction false} LexIsAll(s: string, i: nat)
    requires i <= |s|
    ensures SpelledAll(Lex(s, i)) == Unblanked(s[i..])
    decreases |s| - i
  {
    var t := TokenAt(s, i);
    SkipsBlanks(s, i, t.q);
    if t.kind != End {
      TokSpelled(s, i);
      KeepsPlain(s, t.q, t.eq);
      SkipsBlanks(s, t.eq, t.next);
      LexIsAll(s, t.next);
      assert ([TokOf(s, t)] + Lex(s, t.next))[1..] == Lex(s, t.next);
    }
  }

  lemma TokSpelled(s: string, i: nat)
    requires i <= |s| && TokenAt(s, i).kind != End
    ensures var t := TokenAt(s, i);
            && Spelled(TokOf(s, t)) == s[t.q..t.eq] && t.next == Skip(s, t.eq) && t.q == Skip(s, i)
            && forall k :: t.q <= k < t.eq ==> !IsSpace(s[k])
  {
  }

  lemma {:induction false} SkipsBlanks(s: string, i: nat, j: nat)
    requires i <= |s| && j == Skip(s, i)
    ensures Unblanked(s[i..]) == Unblanked(s[j..])
    decreases |s| - i
  {
    if i < j {
      assert s[i..][1..] == s[i + 1..];
      SkipsBlanks(s, i + 1, j);
    }
  }

  lemma {:induction false} KeepsPlain(s: string, i: nat, j: nat)
    requires i <= j <= |s| && forall k :: i <= k < j ==> !IsSpace(s[k])
    ensures Unblanked(s[i..]) == s[i..j] + Unblanked(s[j..])
    decreases j - i
  {
    if i < j {
      assert s[i..][1..] == s[i + 1..];
      KeepsPlain(s, i + 1, j);
      assert s[i..j] == [s[i]] + s[i + 1..j];
    }
  }
}
