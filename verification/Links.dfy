/** Inodes, directory entries and link counts: what they have to do with each other. */
module Links {
  datatype Kind = Free | Directory | File | Device
  datatype Dirent = Dirent(name: string, inum: nat)

  /** An inode with its directory entries, if it is a directory, and its row of the inode table: how
      many references there are, and whether the inode has been read from disk. */
  datatype Inode = Inode(kind: Kind, nlink: nat, entries: seq<Dirent>, ref: nat, valid: bool)

  const ROOT: nat := 1

  // ---------- sums ----------

  ghost function Sum(ws: seq<nat>): (n: nat) {
    if ws == [] then 0 else Sum(ws[..|ws| - 1]) + ws[|ws| - 1]
  }

  lemma {:induction false} SumUpdate(ws: seq<nat>, k: nat, v: nat)
    requires k < |ws|
    ensures Sum(ws[k := v]) == Sum(ws) - ws[k] + v
    decreases |ws|
  {
    var n := |ws| - 1;
    if k < n {
      assert ws[k := v][..n] == ws[..n][k := v];
      SumUpdate(ws[..n], k, v);
    } else {
      assert ws[k := v][..n] == ws[..n];
    }
  }

  lemma {:induction false} SumZero(ws: seq<nat>)
    ensures Sum(ws) == 0 <==> forall k :: 0 <= k < |ws| ==> ws[k] == 0
    decreases |ws|
  {
    if ws != [] {
      SumZero(ws[..|ws| - 1]);
      assert forall k :: 0 <= k < |ws| - 1 ==> ws[..|ws| - 1][k] == ws[k];
    }
  }

  lemma {:induction false} SumAtLeast(ws: seq<nat>, k: nat)
    requires k < |ws|
    ensures Sum(ws) >= ws[k]
  {
    SumUpdate(ws, k, 0);
  }

  // ---------- counting entries ----------

  /** A directory that still has a link to it. */
  predicate Linked(x: Inode) {
    x.kind == Directory && x.nlink > 0 && |x.entries| >= 2
  }

  /** Does entry k name i? The first two entries are `.` and `..`. */
  function Hit(es: seq<Dirent>, i: nat, k: nat): (n: nat)
    requires k < |es|
  {
    if k >= 2 && es[k].inum == i then 1 else 0
  }

  ghost function NamesIn(es: seq<Dirent>, i: nat): (n: nat) {
    Sum(seq(|es|, k requires 0 <= k < |es| => Hit(es, i, k)))
  }

  /** How many names a directory has for i, if it is linked, and whether i is its `..`. */
  ghost function Row(x: Inode, i: nat): (n: nat) {
    if Linked(x) then NamesIn(x.entries, i) else 0
  }

  ghost function Up(x: Inode, i: nat): (n: nat) {
    if Linked(x) && x.entries[1].inum == i then 1 else 0
  }

  ghost function Rows(t: seq<Inode>, i: nat): (ws: seq<nat>) {
    seq(|t|, d requires 0 <= d < |t| => Row(t[d], i))
  }

  ghost function Ups(t: seq<Inode>, i: nat): (ws: seq<nat>) {
    seq(|t|, d requires 0 <= d < |t| => Up(t[d], i))
  }

  /** The number of names for i in all linked directories, and of their `..` entries that lead to i. */
  ghost function Names(t: seq<Inode>, i: nat): (n: nat) {
    Sum(Rows(t, i))
  }

  ghost function Dots(t: seq<Inode>, i: nat): (n: nat) {
    Sum(Ups(t, i))
  }

  lemma RowChange(t: seq<Inode>, d: nat, x: Inode, i: nat)
    requires d < |t|
    ensures Names(t[d := x], i) == Names(t, i) - Row(t[d], i) + Row(x, i)
    ensures Dots(t[d := x], i) == Dots(t, i) - Up(t[d], i) + Up(x, i)
  {
    assert Rows(t[d := x], i) == Rows(t, i)[d := Row(x, i)];
    SumUpdate(Rows(t, i), d, Row(x, i));
    assert Ups(t[d := x], i) == Ups(t, i)[d := Up(x, i)];
    SumUpdate(Ups(t, i), d, Up(x, i));
  }

  lemma EntryChange(es: seq<Dirent>, k: nat, e: Dirent, i: nat)
    requires 2 <= k < |es|
    ensures NamesIn(es[k := e], i) == NamesIn(es, i) - Hit(es, i, k) + if e.inum == i then 1 else 0
  {
    var ws := seq(|es|, j requires 0 <= j < |es| => Hit(es, i, j));
    var es' := es[k := e];
    assert seq(|es'|, j requires 0 <= j < |es'| => Hit(es', i, j)) == ws[k := Hit(es', i, k)];
    SumUpdate(ws, k, Hit(es', i, k));
  }

  lemma EntryMore(es: seq<Dirent>, e: Dirent, i: nat)
    requires |es| >= 2
    ensures NamesIn(es + [e], i) == NamesIn(es, i) + if e.inum == i then 1 else 0
  {
    var es' := es + [e];
    var ws := seq(|es|, j requires 0 <= j < |es| => Hit(es, i, j));
    var ws' := seq(|es'|, j requires 0 <= j < |es'| => Hit(es', i, j));
    assert ws'[..|ws|] == ws;
  }

  lemma NamedIn(es: seq<Dirent>, k: nat, i: nat)
    requires 2 <= k < |es| && es[k].inum == i
    ensures NamesIn(es, i) >= 1
  {
    SumAtLeast(seq(|es|, j requires 0 <= j < |es| => Hit(es, i, j)), k);
  }

  lemma NoneIn(es: seq<Dirent>, i: nat)
    requires forall k :: 2 <= k < |es| ==> es[k].inum != i
    ensures NamesIn(es, i) == 0
  {
    SumZero(seq(|es|, j requires 0 <= j < |es| => Hit(es, i, j)));
  }

  /** What is counted at least once is named somewhere. */
  lemma SomeName(t: seq<Inode>, i: nat) returns (d: nat, k: nat)
    requires Names(t, i) > 0
    ensures d < |t| && Linked(t[d]) && 2 <= k < |t[d].entries| && t[d].entries[k].inum == i
  {
    SumZero(Rows(t, i));
    d :| 0 <= d < |t| && Rows(t, i)[d] != 0;
    var es := t[d].entries;
    SumZero(seq(|es|, j requires 0 <= j < |es| => Hit(es, i, j)));
    k :| 0 <= k < |es| && Hit(es, i, k) != 0;
  }

  // ---------- what holds between operations ----------

  predicate Vacant(es: seq<Dirent>) {
    forall k :: 2 <= k < |es| ==> es[k].inum == 0
  }

  /** The entries of directory d. */
  predicate DirOk(es: seq<Dirent>, d: nat, n: nat) {
    && |es| >= 2 && es[0] == Dirent(".", d) && es[1].name == ".." && 1 <= es[1].inum < n
    && (forall k :: 2 <= k < |es| ==> es[k].inum < n && (es[k].inum != 0 ==> es[k].name !in [".", ".."]))
    && (forall j, k :: 2 <= j < k < |es| && es[j].inum != 0 && es[k].inum != 0 ==> es[j].name != es[k].name)
  }

  predicate InodeOk(x: Inode, d: nat, n: nat) {
    && (x.kind == Free ==> x.nlink == 0)
    && (x.kind == Directory ==> DirOk(x.entries, d, n) && (x.nlink == 0 ==> Vacant(x.entries)))
    && (x.kind != Directory ==> x.entries == [])
  }

  ghost predicate Shape(t: seq<Inode>) {
    && ROOT < |t| && t[0].kind == Free && Linked(t[ROOT]) && t[ROOT].entries[1].inum == ROOT
    && forall d {:trigger InodeOk(t[d], d, |t|)} :: 0 <= d < |t| ==> InodeOk(t[d], d, |t|)
  }

  /** Link counts are right: every inode's is the number of entries that name it, other than `.`, in
      directories that are still linked, and of the links to it that are being made. */
  ghost predicate Counts(t: seq<Inode>, pending: seq<nat>) {
    && |pending| == |t|
    && forall i {:trigger Dots(t, i)} :: 1 <= i < |t| ==> t[i].nlink == Names(t, i) + Dots(t, i) + pending[i]
  }

  /** A linked directory has one name, and it is in the directory that its `..` leads to. */
  ghost predicate OneName(t: seq<Inode>) {
    forall c {:trigger Names(t, c)} :: 1 <= c < |t| && Linked(t[c]) ==> Names(t, c) == if c == ROOT then 0 else 1
  }

  predicate Upward(t: seq<Inode>, d: nat, k: nat)
    requires d < |t| && k < |t[d].entries|
  {
    var c := t[d].entries[k].inum;
    1 <= c < |t| && t[c].kind == Directory && |t[c].entries| >= 2 ==> t[c].entries[1].inum == d && c != d
  }

  ghost predicate Parents(t: seq<Inode>) {
    forall d, k {:trigger Upward(t, d, k)} ::
      0 <= d < |t| && Linked(t[d]) && 2 <= k < |t[d].entries| ==> Upward(t, d, k)
  }

  ghost predicate Pending(t: seq<Inode>, pending: seq<nat>) {
    && |pending| == |t|
    && forall i {:trigger pending[i]} :: 0 <= i < |t| && pending[i] > 0 ==> t[i].kind != Directory
  }

  ghost predicate LinksOk(t: seq<Inode>, pending: seq<nat>) {
    && Shape(t) == true && Counts(t, pending) == true && OneName(t) == true && Parents(t) == true
    && Pending(t, pending) == true
  }

  lemma ShapeAt(t: seq<Inode>, d: nat)
    requires Shape(t) && d < |t|
    ensures InodeOk(t[d], d, |t|)
  {
  }

  lemma CountAt(t: seq<Inode>, pending: seq<nat>, i: nat)
    requires Counts(t, pending) && 1 <= i < |t|
    ensures t[i].nlink == Names(t, i) + Dots(t, i) + pending[i]
  {
  }

  /** An entry that names i, other than the first, is counted. */
  lemma Counted(t: seq<Inode>, d: nat, k: nat, i: nat)
    requires d < |t| && Linked(t[d]) && 1 <= k < |t[d].entries| && t[d].entries[k].inum == i
    ensures k == 1 ==> Dots(t, i) >= 1
    ensures k > 1 ==> Names(t, i) >= 1
  {
    if k == 1 {
      SumAtLeast(Ups(t, i), d);
    } else {
      NamedIn(t[d].entries, k, i);
      SumAtLeast(Rows(t, i), d);
    }
  }

  /** No name in a linked directory is that of a free inode, and neither is its `..`. */
  lemma NoDangling(t: seq<Inode>, pending: seq<nat>, d: nat, k: nat)
    requires LinksOk(t, pending) == true && d < |t| && Linked(t[d])
    requires 1 <= k < |t[d].entries| && t[d].entries[k].inum != 0
    ensures t[d].entries[k].inum < |t| && t[t[d].entries[k].inum].kind != Free
  {
    var i := t[d].entries[k].inum;
    ShapeAt(t, d);
    ShapeAt(t, i);
    Counted(t, d, k, i);
    CountAt(t, pending, i);
  }

  // ---------- changes that are not to links ----------

  predicate SameLinks(x: Inode, y: Inode) {
    x.kind == y.kind && x.nlink == y.nlink && x.entries == y.entries
  }

  /** References come and go. */
  lemma RefsOk(t: seq<Inode>, pending: seq<nat>, i: nat, x: Inode)
    requires LinksOk(t, pending) == true && i < |t| && SameLinks(t[i], x)
    ensures LinksOk(t[i := x], pending) == true
  {
    var t' := t[i := x];
    assert forall d :: 0 <= d < |t| ==> SameLinks(t[d], t'[d]);
    forall c
      ensures Names(t', c) == Names(t, c) && Dots(t', c) == Dots(t, c)
    {
      assert Rows(t', c) == Rows(t, c) && Ups(t', c) == Ups(t, c);
    }
    RefsTree(t, pending, t');
  }

  lemma RefsTree(t: seq<Inode>, pending: seq<nat>, t': seq<Inode>)
    requires LinksOk(t, pending) && |t'| == |t| && forall d :: 0 <= d < |t| ==> SameLinks(t[d], t'[d])
    requires forall c :: Names(t', c) == Names(t, c)
    requires forall c :: Dots(t', c) == Dots(t, c)
    ensures LinksOk(t', pending) == true
  {
    forall d | 0 <= d < |t|
      ensures InodeOk(t'[d], d, |t|)
    {
      ShapeAt(t, d);
    }
    forall d, k | 0 <= d < |t| && Linked(t'[d]) && 2 <= k < |t'[d].entries|
      ensures Upward(t', d, k)
    {
      assert Upward(t, d, k);
    }
  }
}
