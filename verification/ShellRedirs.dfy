/** Simple commands with redirections behind their words, as in `sort <in >out`. */
module ShellRedirs {
  import opened Options
  import opened ShellGrammar
  import opened ShellText

  datatype File = File(name: string, mode: Mode)

  /** The redirections, each with a blank before it. */
  function Tail(fs: seq<File>): (r: string) {
    if fs == [] then "" else " " + (Sign(fs[0].mode) + fs[0].name) + Tail(fs[1..])
  }

  /** A command with redirections around it, the last one outermost. */
  function Around(c: Cmd<string>, fs: seq<File>): (r: Cmd<string>)
    decreases |fs|
  {
    if fs == [] then c else Redir(Around(c, fs[..|fs| - 1]), fs[|fs| - 1].name, fs[|fs| - 1].mode)
  }

  predicate FilesOk(fs: seq<File>) {
    forall i :: 0 <= i < |fs| ==> WordOk(fs[i].name)
  }

  /** Where the redirections are when they are printed from k on. */
  function Spots(k: nat, fs: seq<File>): (rs: seq<Redirection>)
    ensures |rs| == |fs|
    decreases |fs|
  {
    if fs == [] then []
    else
      var a := k + 1 + |Sign(fs[0].mode)|;
      [Redirection(Place(a, a + |fs[0].name|), fs[0].mode)] + Spots(a + |fs[0].name|, fs[1..])
  }

  lemma {:induction false} SkipTwice(s: string, i: nat)
    requires i <= |s|
    ensures Skip(s, Skip(s, i)) == Skip(s, i)
  {
  }

  /** The redirections stand at k, and behind them the text or a block ends. */
  ghost predicate TailAt(s: string, k: nat, fs: seq<File>, end: nat) {
    FilesOk(fs) && At(s, k, Tail(fs)) && end == k + |Tail(fs)| && Stops(s, end)
  }

  /** The first of the redirections: a blank, the sign at k + 1, the name from a to b, and the others. */
  lemma FileParts(s: string, k: nat, fs: seq<File>, end: nat, a: nat, b: nat)
    requires TailAt(s, k, fs, end) && fs != [] && a == k + 1 + |Sign(fs[0].mode)| && b == a + |fs[0].name|
    ensures k < |s| && s[k] == ' ' && At(s, k + 1, Sign(fs[0].mode) + fs[0].name) == true && WordOk(fs[0].name)
    ensures TailAt(s, b, fs[1..], end) == true
  {
    var m, f, rest := fs[0].mode, fs[0].name, Tail(fs[1..]);
    assert " " + (Sign(m) + f) + rest == " " + ((Sign(m) + f) + rest);
    AtParts(s, k, " ", (Sign(m) + f) + rest);
    AtChar(s, k, " ", 0);
    AtParts(s, k + 1, Sign(m) + f, rest);
  }

  /** What comes behind a word ends it. */
  lemma NotPlain(s: string, b: nat, fs: seq<File>, end: nat)
    requires TailAt(s, b, fs, end)
    ensures b <= |s| && (b == |s| || !IsPlain(s[b]))
  {
    if fs != [] {
      FileParts(s, b, fs, end, b + 1 + |Sign(fs[0].mode)|, b + 1 + |Sign(fs[0].mode)| + |fs[0].name|);
    }
  }

  /** A sign and a name, as tokens. */
  lemma FileTokens(s: string, k: nat, m: Mode, f: string, a: nat, b: nat)
    requires k < |s| && s[k] == ' ' && At(s, k + 1, Sign(m) + f) && WordOk(f)
    requires a == k + 1 + |Sign(m)| && b == a + |f| && (b == |s| || (b < |s| && !IsPlain(s[b])))
    ensures Skip(s, k) == k + 1 && Peek(s, k + 1, "<>") && Skip(s, k + 1) == k + 1
    ensures TokenAt(s, k + 1).next == a && ModeOf(TokenAt(s, k + 1).kind) == m
    ensures TokenAt(s, a) == Token(Word, a, b, Skip(s, b)) && Slice(s, Place(a, b)) == f
  {
    SignToken(s, k + 1, m, f);
    WordToken(s, a, f);
  }

  /** One redirection is read. */
  lemma RedirStep(s: string, p: nat, k: nat, m: Mode, f: string, a: nat, b: nat, acc: seq<Redirection>)
    requires p <= |s| && k < |s| && Skip(s, p) == Skip(s, k) && s[k] == ' ' && At(s, k + 1, Sign(m) + f) && WordOk(f)
    requires a == k + 1 + |Sign(m)| && b == a + |f| && (b == |s| || (b < |s| && !IsPlain(s[b])))
    ensures Redirs(s, p, acc) == Redirs(s, Skip(s, b), acc + [Redirection(Place(a, b), m)])
  {
    FileTokens(s, k, m, f, a, b);
  }

  ghost predicate RedirsGive(s: string, p: nat, acc: seq<Redirection>, rs: seq<Redirection>, end: nat) {
    p <= |s| && Redirs(s, p, acc) == Some(Parsed(rs, end))
  }

  lemma NoneLeft(s: string, p: nat, acc: seq<Redirection>, end: nat)
    requires p <= |s| && end <= |s| && Skip(s, p) == end && Stops(s, end)
    ensures RedirsGive(s, p, acc, acc, end) == true
  {
    if end < |s| {
      PeekChar(s[end]);
    }
  }

  lemma {:induction false} RedirsRead(s: string, p: nat, k: nat, fs: seq<File>, acc: seq<Redirection>,
                                      rs: seq<Redirection>, end: nat)
    requires TailAt(s, k, fs, end) == true && k <= |s| && p <= |s| && Skip(s, p) == Skip(s, k)
    requires rs == acc + Spots(k, fs)
    ensures RedirsGive(s, p, acc, rs, end) == true
    decreases |fs|
  {
    if fs == [] {
      assert rs == acc;
      NoneLeft(s, p, acc, end);
    } else {
      var a := k + 1 + |Sign(fs[0].mode)|;
      var b := a + |fs[0].name|;
      FileParts(s, k, fs, end, a, b);
      NotPlain(s, b, fs[1..], end);
      SkipTwice(s, b);
      var more := acc + [Redirection(Place(a, b), fs[0].mode)];
      assert more + Spots(b, fs[1..]) == rs;
      RedirStep(s, p, k, fs[0].mode, fs[0].name, a, b, acc);
      RedirsRead(s, Skip(s, b), b, fs[1..], more, rs, end);
      Given(s, p, Skip(s, b), acc, more, rs, end);
    }
  }

  lemma Given(s: string, p: nat, q: nat, acc: seq<Redirection>, more: seq<Redirection>, rs: seq<Redirection>, end: nat)
    requires p <= |s| && q <= |s| && Redirs(s, p, acc) == Redirs(s, q, more) && RedirsGive(s, q, more, rs, end) == true
    ensures RedirsGive(s, p, acc, rs, end) == true
  {
  }

  /** The arguments from i on, after argv, come to all of them with redirections rs. */
  ghost predicate SimpleIs(s: string, i: nat, argv: seq<Place>, all: seq<Place>, rs: seq<Redirection>, end: nat) {
    i <= |s| && Args(s, i, argv, []) == Some(Parsed(Wrap(Exec(all), rs), end))
  }

  ghost predicate WordsAt(s: string, i: nat, ws: seq<string>) {
    At(s, i, Words(ws)) && forall w :: w in ws ==> WordOk(w)
  }

  /** Redirections rs come behind a word that ends at mid, and then the text or a block ends. */
  ghost predicate Behind(s: string, mid: nat, rs: seq<Redirection>, end: nat) {
    && mid <= |s| && (mid == |s| || !IsPlain(s[mid])) && end <= |s| && Stops(s, end)
    && RedirsGive(s, Skip(s, mid), [], rs, end)
  }

  /** The words of a simple command, with redirections behind the last of them. */
  lemma {:induction false} ArgsThenRedirs(s: string, i: nat, ws: seq<string>, argv: seq<Place>, all: seq<Place>,
                                          rs: seq<Redirection>, mid: nat, end: nat)
    requires ws != [] && WordsAt(s, i, ws) == true && |argv| + |ws| < MAXARGS
    requires mid == i + |Words(ws)| && Behind(s, mid, rs, end) == true && AllAre(all, argv, i, ws) == true
    ensures SimpleIs(s, i, argv, all, rs, end) == true
    decreases |ws|
  {
    if |ws| == 1 {
      OneWord(s, i, ws, argv, all, mid);
      LastWord(s, i, ws[0], argv, all, rs, mid, end);
    } else {
      var j := i + |ws[0]| + 1;
      var more := argv + [Place(i, j - 1)];
      WordThenMore(s, i, ws, argv, j);
      AllStep(all, argv, i, ws, j, more);
      ArgsThenRedirs(s, j, ws[1..], more, all, rs, mid, end);
      SameArgs(s, i, argv, j, more, all, rs, end);
    }
  }

  /** argv, and then the words printed from i on. */
  ghost predicate AllAre(all: seq<Place>, argv: seq<Place>, i: nat, ws: seq<string>) {
    all == argv + Places(i, ws)
  }

  lemma AllStep(all: seq<Place>, argv: seq<Place>, i: nat, ws: seq<string>, j: nat, more: seq<Place>)
    requires |ws| > 1 && j == i + |ws[0]| + 1 && AllAre(all, argv, i, ws) && more == argv + [Place(i, j - 1)]
    ensures AllAre(all, more, j, ws[1..]) == true
  {
    PlacesStep(argv, i, ws, j - 1, j);
  }

  lemma OneWord(s: string, i: nat, ws: seq<string>, argv: seq<Place>, all: seq<Place>, mid: nat)
    requires |ws| == 1 && WordsAt(s, i, ws) && mid == i + |Words(ws)| && AllAre(all, argv, i, ws)
    ensures At(s, i, ws[0]) == true && WordOk(ws[0]) && mid == i + |ws[0]| && all == argv + [Place(i, mid)]
  {
    assert ws[0] in ws && Places(mid + 1, ws[1..]) == [];
  }

  /** The parser has gone on from i to j. */
  ghost predicate GoneOn(s: string, i: nat, argv: seq<Place>, j: nat, more: seq<Place>) {
    i <= |s| && j <= |s| && Args(s, i, argv, []) == Args(s, j, more, [])
  }

  lemma SameArgs(s: string, i: nat, argv: seq<Place>, j: nat, more: seq<Place>, all: seq<Place>, rs: seq<Redirection>,
                 end: nat)
    requires GoneOn(s, i, argv, j, more) == true
    requires SimpleIs(s, j, more, all, rs, end) == true
    ensures SimpleIs(s, i, argv, all, rs, end) == true
  {
  }

  lemma WordThenMore(s: string, i: nat, ws: seq<string>, argv: seq<Place>, j: nat)
    requires |ws| > 1 && WordsAt(s, i, ws) && |argv| + |ws| < MAXARGS && j == i + |ws[0]| + 1
    ensures WordsAt(s, j, ws[1..]) == true && j + |Words(ws[1..])| == i + |Words(ws)|
    ensures GoneOn(s, i, argv, j, argv + [Place(i, j - 1)]) == true
  {
    assert ws[0] in ws;
    BlankAfter(s, i, ws);
    WordGoesOn(s, i, ws[0], argv, j);
  }

  lemma WordGoesOn(s: string, i: nat, w: string, argv: seq<Place>, j: nat)
    requires At(s, i, w) == true && WordOk(w) && |argv| + 1 < MAXARGS && j == i + |w| + 1
    requires j < |s| && s[j - 1] == ' ' && IsPlain(s[j])
    ensures GoneOn(s, i, argv, j, argv + [Place(i, j - 1)]) == true
  {
    BlankToken(s, i, w, j);
    TokenGoesOn(s, i, j - 1, j, argv);
  }

  lemma TokenGoesOn(s: string, i: nat, e: nat, j: nat, argv: seq<Place>)
    requires i < |s| && IsPlain(s[i]) && TokenAt(s, i) == Token(Word, i, e, j) && |argv| + 1 < MAXARGS
    requires j < |s| && IsPlain(s[j])
    ensures GoneOn(s, i, argv, j, argv + [Place(i, e)]) == true
  {
    ArgsStep(s, i, e, j, argv);
  }

  lemma BlankToken(s: string, i: nat, w: string, j: nat)
    requires At(s, i, w) && WordOk(w) && j == i + |w| + 1 && j < |s| && s[j - 1] == ' ' && IsPlain(s[j])
    ensures i < |s| && IsPlain(s[i]) && TokenAt(s, i) == Token(Word, i, j - 1, j)
  {
    WordToken(s, i, w);
  }

  lemma LastWord(s: string, i: nat, w: string, argv: seq<Place>, all: seq<Place>, rs: seq<Redirection>, mid: nat,
                 end: nat)
    requires At(s, i, w) == true && WordOk(w) && |argv| + 1 < MAXARGS && mid == i + |w|
    requires Behind(s, mid, rs, end) && all == argv + [Place(i, mid)]
    ensures SimpleIs(s, i, argv, all, rs, end) == true
  {
    WordToken(s, i, w);
    LastToken(s, i, mid, argv, rs, end);
  }

  lemma TailBehind(s: string, mid: nat, fs: seq<File>, end: nat)
    requires TailAt(s, mid, fs, end)
    ensures Behind(s, mid, Spots(mid, fs), end) == true
  {
    NotPlain(s, mid, fs, end);
    SkipTwice(s, mid);
    RedirsRead(s, Skip(s, mid), mid, fs, [], Spots(mid, fs), end);
  }

  lemma LastToken(s: string, i: nat, mid: nat, argv: seq<Place>, rs: seq<Redirection>, end: nat)
    requires i < |s| && IsPlain(s[i]) && mid <= |s| && TokenAt(s, i) == Token(Word, i, mid, Skip(s, mid))
    requires |argv| + 1 < MAXARGS && RedirsGive(s, Skip(s, mid), [], rs, end) && end <= |s| && Stops(s, end)
    ensures SimpleIs(s, i, argv, argv + [Place(i, mid)], rs, end) == true
  {
    PeekChar(s[i]);
    if end < |s| {
      PeekChar(s[end]);
    }
    var all := argv + [Place(i, mid)];
    assert Args(s, end, all, rs) == Some(Parsed(Wrap(Exec(all), rs), end));
    assert Skip(s, i) == i;
  }

  /** The redirections name these files. */
  ghost predicate Named(s: string, rs: seq<Redirection>, fs: seq<File>) {
    |rs| == |fs| && forall i :: 0 <= i < |fs| ==> Slice(s, rs[i].file) == fs[i].name && rs[i].mode == fs[i].mode
  }

  lemma NamedMore(s: string, r: Redirection, rs: seq<Redirection>, fs: seq<File>)
    requires fs != [] && Named(s, rs, fs[1..]) == true && Slice(s, r.file) == fs[0].name && r.mode == fs[0].mode
    ensures Named(s, [r] + rs, fs) == true
  {
    assert forall i :: 1 <= i < |fs| ==> fs[i] == fs[1..][i - 1];
  }

  lemma SpotsMore(k: nat, fs: seq<File>, a: nat, b: nat)
    requires fs != [] && a == k + 1 + |Sign(fs[0].mode)| && b == a + |fs[0].name|
    ensures Spots(k, fs) == [Redirection(Place(a, b), fs[0].mode)] + Spots(b, fs[1..])
  {
  }

  lemma {:induction false} SpotsNamed(s: string, k: nat, fs: seq<File>, end: nat, rs: seq<Redirection>)
    requires TailAt(s, k, fs, end) == true && rs == Spots(k, fs)
    ensures Named(s, rs, fs) == true
    decreases |fs|
  {
    if fs == [] {
      assert Named(s, [], []);
    } else {
      var a := k + 1 + |Sign(fs[0].mode)|;
      var b := a + |fs[0].name|;
      var rest := Spots(b, fs[1..]);
      FileParts(s, k, fs, end, a, b);
      SpotsNamed(s, b, fs[1..], end, rest);
      NameThere(s, k, fs[0].mode, fs[0].name, a, b);
      SpotsMore(k, fs, a, b);
      NamedMore(s, Redirection(Place(a, b), fs[0].mode), rest, fs);
    }
  }

  lemma NameThere(s: string, k: nat, m: Mode, f: string, a: nat, b: nat)
    requires At(s, k + 1, Sign(m) + f) && a == k + 1 + |Sign(m)| && b == a + |f|
    ensures Slice(s, Place(a, b)) == f
  {
    AtParts(s, k + 1, Sign(m), f);
  }

  lemma {:induction false} WrapText(s: string, c: Cmd<Place>, rs: seq<Redirection>, fs: seq<File>)
    requires Named(s, rs, fs)
    ensures TextOf(s, Wrap(c, rs)) == Around(TextOf(s, c), fs)
    decreases |fs|
  {
    if fs != [] {
      WrapText(s, c, rs[..|rs| - 1], fs[..|fs| - 1]);
    }
  }

  /** A simple command with any redirections behind it is read as the command with them around it, the last
      one outermost. */
  lemma SimpleCommand(ws: seq<string>, fs: seq<File>)
    requires ws != [] && Printable(Exec(ws)) && FilesOk(fs)
    ensures var s := Words(ws) + Tail(fs);
            ParseCmd(s).Some? && TextOf(s, ParseCmd(s).value) == Around(Exec(ws), fs)
  {
    var s, mid := Words(ws) + Tail(fs), |Words(ws)|;
    var t := Around(Exec(ws), fs);
    assert At(s, 0, Words(ws)) && At(s, mid, Tail(fs));
    assert WordsAt(s, 0, ws) && TailAt(s, mid, fs, |s|);
    TailBehind(s, mid, fs, |s|);
    assert AllAre(Places(0, ws), [], 0, ws);
    ArgsThenRedirs(s, 0, ws, [], Places(0, ws), Spots(mid, fs), mid, |s|);
    SimpleText(s, ws, fs, mid);
    WordStarts(ws);
    ExecStarts(s, 0);
    assert SimpleIs(s, 0, [], Places(0, ws), Spots(mid, fs), |s|);
    assert ExecIs(s, 0, t, |s|);
    PlainPipe(s, 0, t, |s|);
    PlainLine(s, 0, t, |s|);
    assert LineIs(s, 0, t, |s|);
  }

  lemma SimpleText(s: string, ws: seq<string>, fs: seq<File>, mid: nat)
    requires At(s, 0, Words(ws)) && TailAt(s, mid, fs, |s|) == true
    ensures TextOf(s, Wrap(Exec(Places(0, ws)), Spots(mid, fs))) == Around(Exec(ws), fs)
  {
    PlacesSlices(s, 0, ws);
    SpotsNamed(s, mid, fs, |s|, Spots(mid, fs));
    WrapText(s, Exec(Places(0, ws)), Spots(mid, fs), fs);
  }
}
