/** What each change to the link counts and the directories keeps. */
module LinkSteps {
  import opened Links

  const NOBODY := Dirent("", 0)

  /** All parts, once they hold. */
  lemma Together(t: seq<Inode>, pending: seq<nat>)
    requires Shape(t) && Counts(t, pending) && OneName(t) && Parents(t) && Pending(t, pending)
    ensures LinksOk(t, pending) == true
  {
  }

  /** Parent links that are neither new nor changed. */
  lemma UpwardKept(t: seq<Inode>, t': seq<Inode>, d: nat, k: nat)
    requires |t| == |t'| && d < |t| && k < |t[d].entries| && k < |t'[d].entries|
    requires t'[d].entries[k].inum == t[d].entries[k].inum && Upward(t, d, k)
    requires var c := t[d].entries[k].inum;
             c < |t| && t'[c].kind == Directory ==>
               t[c].kind == Directory && |t[c].entries| >= 2 && |t'[c].entries| >= 2 &&
               t'[c].entries[1] == t[c].entries[1]
    ensures Upward(t', d, k)
  {
  }

  /** No inode but n, which has no pending links, becomes a directory. */
  lemma SamePending(t: seq<Inode>, t': seq<Inode>, p: seq<nat>, n: nat)
    requires Pending(t, p) && |t'| == |t| && n < |t| && p[n] == 0
    requires forall i :: 0 <= i < |t| && i != n ==> t'[i].kind == t[i].kind
    ensures Pending(t', p)
  {
  }

  // ---------- inodes that no linked directory depends on ----------

  lemma NeutralChange(t: seq<Inode>, i: nat, x: Inode, c: nat)
    requires i < |t| && !Linked(t[i]) && !Linked(x)
    ensures Names(t[i := x], c) == Names(t, c) && Dots(t[i := x], c) == Dots(t, c)
  {
    RowChange(t, i, x, c);
  }

  /** An inode that is no directory, or no linked one, may get another link that is being made, lose
      one, come into being or become free. */
  lemma LeafOk(t: seq<Inode>, p: seq<nat>, i: nat, x: Inode, v: nat)
    requires LinksOk(t, p) == true && 1 <= i < |t| && i < |p| && !Linked(t[i])
    requires x.kind != Directory && x.entries == [] && (x.kind == Free ==> x.nlink == 0)
    requires x.nlink + p[i] == t[i].nlink + v
    ensures LinksOk(t[i := x], p[i := v]) == true
  {
    var t', p' := t[i := x], p[i := v];
    forall c | 1 <= c < |t'|
      ensures t'[c].nlink == Names(t', c) + Dots(t', c) + p'[c]
    {
      NeutralChange(t, i, x, c);
      CountAt(t, p, c);
    }
    LeafShape(t, i, x);
    LeafTree(t, i, x);
    Together(t', p');
  }

  lemma LeafShape(t: seq<Inode>, i: nat, x: Inode)
    requires Shape(t) && 1 <= i < |t| && !Linked(t[i])
    requires x.kind != Directory && x.entries == [] && (x.kind == Free ==> x.nlink == 0)
    ensures Shape(t[i := x])
  {
    var t' := t[i := x];
    forall d | 0 <= d < |t|
      ensures InodeOk(t'[d], d, |t|)
    {
      ShapeAt(t, d);
    }
  }

  lemma LeafTree(t: seq<Inode>, i: nat, x: Inode)
    requires Shape(t) && OneName(t) && Parents(t) && 1 <= i < |t| && !Linked(t[i]) && x.kind != Directory
    ensures OneName(t[i := x]) && Parents(t[i := x])
  {
    var t' := t[i := x];
    forall c | 1 <= c < |t'| && Linked(t'[c])
      ensures Names(t', c) == if c == ROOT then 0 else 1
    {
      NeutralChange(t, i, x, c);
    }
    forall d, k | 0 <= d < |t'| && Linked(t'[d]) && 2 <= k < |t'[d].entries|
      ensures Upward(t', d, k)
    {
      ShapeAt(t, t[d].entries[k].inum) by { ShapeAt(t, d); }
      assert Upward(t, d, k);
      UpwardKept(t, t', d, k);
    }
  }

  // ---------- names of files ----------

  /** e is written into slot k, or behind the last entry. */
  function Added(es: seq<Dirent>, k: nat, e: Dirent): (r: seq<Dirent>)
    requires k <= |es|
  {
    if k < |es| then es[k := e] else es + [e]
  }

  /** A slot is free, and the name is new. */
  predicate Fits(es: seq<Dirent>, k: nat, e: Dirent) {
    && 2 <= k <= |es| && (k < |es| ==> es[k].inum == 0)
    && e.name !in [".", ".."]
    && forall j :: 0 <= j < |es| && es[j].inum != 0 ==> es[j].name != e.name
  }

  lemma AddedNames(es: seq<Dirent>, k: nat, e: Dirent, c: nat)
    requires Fits(es, k, e) && c >= 1
    ensures NamesIn(Added(es, k, e), c) == NamesIn(es, c) + if e.inum == c then 1 else 0
  {
    if k < |es| {
      EntryChange(es, k, e, c);
    } else {
      EntryMore(es, e, c);
    }
  }

  lemma AddedOk(es: seq<Dirent>, k: nat, e: Dirent, d: nat, n: nat)
    requires DirOk(es, d, n) && Fits(es, k, e) && 1 <= e.inum < n
    ensures DirOk(Added(es, k, e), d, n)
  {
  }

  lemma ErasedOk(es: seq<Dirent>, k: nat, d: nat, n: nat)
    requires DirOk(es, d, n) && 2 <= k < |es|
    ensures DirOk(es[k := NOBODY], d, n)
  {
  }

  /** es' is es but for entries that are empty or name i. */
  predicate Edited(es: seq<Dirent>, es': seq<Dirent>, i: nat) {
    && |es| >= 2 && |es'| >= 2 && es'[1] == es[1]
    && forall k :: 2 <= k < |es'| ==> es'[k].inum == 0 || es'[k].inum == i || (k < |es| && es'[k] == es[k])
  }

  ghost predicate Balanced(es: seq<Dirent>, es': seq<Dirent>, i: nat, before: nat, after: nat) {
    forall c {:trigger NamesIn(es', c)} :: c >= 1 ==>
      NamesIn(es', c) + (if c == i then after else 0) == NamesIn(es, c) + if c == i then before else 0
  }

  /** A linked directory gets or loses a name of a file, as the file loses or gets a link that is not in
      any directory. */
  lemma NameOk(t: seq<Inode>, p: seq<nat>, d: nat, es: seq<Dirent>, i: nat, v: nat)
    requires LinksOk(t, p) == true && d < |t| && Linked(t[d]) && DirOk(es, d, |t|) && Edited(t[d].entries, es, i)
    requires 1 <= i < |t| && i < |p| && t[i].kind != Directory && Balanced(t[d].entries, es, i, p[i], v)
    ensures LinksOk(t[d := t[d].(entries := es)], p[i := v]) == true
  {
    var x := t[d].(entries := es);
    var t', p' := t[d := x], p[i := v];
    forall c | 1 <= c < |t'|
      ensures t'[c].nlink == Names(t', c) + Dots(t', c) + p'[c]
    {
      RowChange(t, d, x, c);
      CountAt(t, p, c);
    }
    NameShape(t, d, es, i);
    NameTree(t, p, d, es, i, v);
    Together(t', p');
  }

  lemma NameShape(t: seq<Inode>, d: nat, es: seq<Dirent>, i: nat)
    requires Shape(t) && d < |t| && Linked(t[d]) && DirOk(es, d, |t|) && Edited(t[d].entries, es, i)
    ensures Shape(t[d := t[d].(entries := es)])
  {
    var t' := t[d := t[d].(entries := es)];
    forall j | 0 <= j < |t|
      ensures InodeOk(t'[j], j, |t|)
    {
      ShapeAt(t, j);
    }
  }

  lemma NameTree(t: seq<Inode>, p: seq<nat>, d: nat, es: seq<Dirent>, i: nat, v: nat)
    requires LinksOk(t, p) && d < |t| && Linked(t[d]) && Edited(t[d].entries, es, i)
    requires 1 <= i < |t| && i < |p| && t[i].kind != Directory && Balanced(t[d].entries, es, i, p[i], v)
    ensures OneName(t[d := t[d].(entries := es)]) && Parents(t[d := t[d].(entries := es)])
  {
    var x := t[d].(entries := es);
    var t' := t[d := x];
    forall c | 1 <= c < |t'| && Linked(t'[c])
      ensures Names(t', c) == if c == ROOT then 0 else 1
    {
      RowChange(t, d, x, c);
    }
    forall b, k | 0 <= b < |t'| && Linked(t'[b]) && 2 <= k < |t'[b].entries|
      ensures Upward(t', b, k)
    {
      var c := t'[b].entries[k].inum;
      if b != d || (c != 0 && c != i) {
        ShapeAt(t, b);
        ShapeAt(t, c);
        assert Upward(t, b, k);
        UpwardKept(t, t', b, k);
      }
    }
  }

  lemma AddOk(t: seq<Inode>, p: seq<nat>, d: nat, k: nat, e: Dirent)
    requires LinksOk(t, p) == true && d < |t| && Linked(t[d]) && Fits(t[d].entries, k, e)
    requires 1 <= e.inum < |t| && e.inum < |p| && t[e.inum].kind != Directory && p[e.inum] > 0
    ensures LinksOk(t[d := t[d].(entries := Added(t[d].entries, k, e))], p[e.inum := p[e.inum] - 1]) == true
  {
    var es := t[d].entries;
    ShapeAt(t, d);
    AddedOk(es, k, e, d, |t|);
    forall c: nat | c >= 1
      ensures NamesIn(Added(es, k, e), c) == NamesIn(es, c) + if e.inum == c then 1 else 0
    {
      AddedNames(es, k, e, c);
    }
    NameOk(t, p, d, Added(es, k, e), e.inum, p[e.inum] - 1);
  }

  lemma EraseOk(t: seq<Inode>, p: seq<nat>, d: nat, k: nat)
    requires LinksOk(t, p) == true && d < |t| && Linked(t[d]) && 2 <= k < |t[d].entries| && |p| == |t|
    requires 1 <= t[d].entries[k].inum < |t| && t[t[d].entries[k].inum].kind != Directory
    ensures var i := t[d].entries[k].inum;
            LinksOk(t[d := t[d].(entries := t[d].entries[k := NOBODY])], p[i := p[i] + 1]) == true
  {
    var es := t[d].entries;
    ShapeAt(t, d);
    ErasedOk(es, k, d, |t|);
    forall c: nat | c >= 1
      ensures NamesIn(es[k := NOBODY], c) == NamesIn(es, c) - if es[k].inum == c then 1 else 0
    {
      EntryChange(es, k, NOBODY, c);
    }
    NameOk(t, p, d, es[k := NOBODY], es[k].inum, p[es[k].inum] + 1);
  }

  // ---------- directories ----------

  /** The state with new directory n in directory d. */
  function Made(t: seq<Inode>, d: nat, n: nat, k: nat, e: Dirent): (r: seq<Inode>)
    requires d < |t| && n < |t| && k <= |t[d].entries|
  {
    var x := Inode(Directory, 1, [Dirent(".", n), Dirent("..", d)], t[n].ref + 1, true);
    t[n := x][d := t[d].(nlink := t[d].nlink + 1, entries := Added(t[d].entries, k, e))]
  }

  lemma MadeCounts(t: seq<Inode>, d: nat, n: nat, k: nat, e: Dirent, c: nat)
    requires d < |t| && n < |t| && n != d && Linked(t[d]) && !Linked(t[n]) && Fits(t[d].entries, k, e) && c >= 1
    ensures Names(Made(t, d, n, k, e), c) == Names(t, c) + if c == e.inum then 1 else 0
    ensures Dots(Made(t, d, n, k, e), c) == Dots(t, c) + if c == d then 1 else 0
  {
    var t' := Made(t, d, n, k, e);
    AddedNames(t[d].entries, k, e, c);
    NoneIn(t'[n].entries, c);
    RowChange(t, n, t'[n], c);
    RowChange(t[n := t'[n]], d, t'[d], c);
  }

  /** A free inode is named nowhere. */
  lemma Unnamed(t: seq<Inode>, p: seq<nat>, n: nat)
    requires LinksOk(t, p) == true && 1 <= n < |t| && t[n].nlink == 0
    ensures Names(t, n) == 0 && Dots(t, n) == 0 && |p| == |t| && p[n] == 0 && n != ROOT
    ensures forall d, k :: 0 <= d < |t| && Linked(t[d]) && 2 <= k < |t[d].entries| ==> t[d].entries[k].inum != n
  {
    CountAt(t, p, n);
    forall d, k | 0 <= d < |t| && Linked(t[d]) && 2 <= k < |t[d].entries|
      ensures t[d].entries[k].inum != n
    {
      if t[d].entries[k].inum == n {
        Counted(t, d, k, n);
      }
    }
  }

  lemma MkdirOk(t: seq<Inode>, p: seq<nat>, d: nat, n: nat, k: nat, e: Dirent)
    requires LinksOk(t, p) == true && d < |t| && Linked(t[d]) && 1 <= n < |t| && t[n].kind == Free
    requires Fits(t[d].entries, k, e) && e.inum == n
    ensures LinksOk(Made(t, d, n, k, e), p) == true
  {
    var t' := Made(t, d, n, k, e);
    ShapeAt(t, n);
    Unnamed(t, p, n);
    MadeBalance(t, p, d, n, k, e);
    SamePending(t, t', p, n);
    MadeShape(t, d, n, k, e);
    MadeTree(t, p, d, n, k, e);
    Together(t', p);
  }

  lemma MadeBalance(t: seq<Inode>, p: seq<nat>, d: nat, n: nat, k: nat, e: Dirent)
    requires Counts(t, p) && 1 <= d < |t| && Linked(t[d]) && 1 <= n < |t| && n != d && t[n].kind == Free
    requires Fits(t[d].entries, k, e) && e.inum == n && Names(t, n) == 0 && Dots(t, n) == 0 && p[n] == 0
    ensures Counts(Made(t, d, n, k, e), p)
  {
    var t' := Made(t, d, n, k, e);
    forall c | 1 <= c < |t'|
      ensures t'[c].nlink == Names(t', c) + Dots(t', c) + p[c]
    {
      MadeAt(t, p, d, n, k, e, c);
    }
  }

  lemma MadeAt(t: seq<Inode>, p: seq<nat>, d: nat, n: nat, k: nat, e: Dirent, c: nat)
    requires Counts(t, p) && 1 <= d < |t| && Linked(t[d]) && 1 <= n < |t| && n != d && t[n].kind == Free
    requires Fits(t[d].entries, k, e) && e.inum == n && Names(t, n) == 0 && Dots(t, n) == 0 && p[n] == 0
    requires 1 <= c < |t|
    ensures var t' := Made(t, d, n, k, e); t'[c].nlink == Names(t', c) + Dots(t', c) + p[c]
  {
    MadeCounts(t, d, n, k, e, c);
    CountAt(t, p, c);
  }

  lemma MadeShape(t: seq<Inode>, d: nat, n: nat, k: nat, e: Dirent)
    requires Shape(t) && 1 <= d < |t| && Linked(t[d]) && 1 <= n < |t| && t[n].kind == Free
    requires Fits(t[d].entries, k, e) && e.inum == n
    ensures Shape(Made(t, d, n, k, e))
  {
    var t' := Made(t, d, n, k, e);
    ShapeAt(t, d);
    AddedOk(t[d].entries, k, e, d, |t|);
    forall j | 0 <= j < |t|
      ensures InodeOk(t'[j], j, |t|)
    {
      ShapeAt(t, j);
    }
  }

  lemma MadeTree(t: seq<Inode>, p: seq<nat>, d: nat, n: nat, k: nat, e: Dirent)
    requires LinksOk(t, p) && 1 <= d < |t| && Linked(t[d]) && 1 <= n < |t| && t[n].kind == Free && n != ROOT
    requires Fits(t[d].entries, k, e) && e.inum == n && Names(t, n) == 0
    requires forall d, k :: 0 <= d < |t| && Linked(t[d]) && 2 <= k < |t[d].entries| ==> t[d].entries[k].inum != n
    ensures OneName(Made(t, d, n, k, e)) && Parents(Made(t, d, n, k, e))
  {
    var t' := Made(t, d, n, k, e);
    forall c | 1 <= c < |t'| && Linked(t'[c])
      ensures Names(t', c) == if c == ROOT then 0 else 1
    {
      MadeCounts(t, d, n, k, e, c);
    }
    forall b, j | 0 <= b < |t'| && Linked(t'[b]) && 2 <= j < |t'[b].entries|
      ensures Upward(t', b, j)
    {
      if b != d || j != k {
        ShapeAt(t, b);
        ShapeAt(t, t[b].entries[j].inum);
        assert Upward(t, b, j);
        UpwardKept(t, t', b, j);
      }
    }
  }

  lemma SumTwo(ws: seq<nat>, j: nat, k: nat)
    requires j < |ws| && k < |ws| && j != k
    ensures Sum(ws) >= ws[j] + ws[k]
  {
    SumUpdate(ws, j, 0);
    SumAtLeast(ws[j := 0], k);
  }

  /** The parent of a linked directory has a name for it. */
  lemma ParentNames(t: seq<Inode>, p: seq<nat>, c: nat) returns (k: nat)
    requires LinksOk(t, p) == true && 1 <= c < |t| && c != ROOT && Linked(t[c])
    ensures var d := t[c].entries[1].inum;
            d < |t| && Linked(t[d]) && 2 <= k < |t[d].entries| && t[d].entries[k].inum == c
  {
    assert Names(t, c) == 1;
    var d;
    d, k := SomeName(t, c);
    assert Upward(t, d, k);
  }

  /** No linked directory has an empty one for its parent. */
  lemma EmptyChildless(t: seq<Inode>, p: seq<nat>, i: nat)
    requires LinksOk(t, p) == true && 1 <= i < |t| && i != ROOT && Linked(t[i]) && Vacant(t[i].entries)
    ensures Dots(t, i) == 0
  {
    SumZero(Ups(t, i));
    if Dots(t, i) != 0 {
      var c :| 0 <= c < |t| && Ups(t, i)[c] != 0;
      ShapeAt(t, c);
      ShapeAt(t, i);
      assert c != ROOT && Linked(t[c]) && t[c].entries[1].inum == i;
      var k := ParentNames(t, p, c);
      assert false;
    }
  }

  /** The state without directory i, whose name was entry k of directory d. */
  function Unmade(t: seq<Inode>, d: nat, i: nat, k: nat): (r: seq<Inode>)
    requires d < |t| && i < |t| && k < |t[d].entries| && t[d].nlink >= 1 && t[i].nlink >= 1
  {
    t[d := t[d].(nlink := t[d].nlink - 1, entries := t[d].entries[k := NOBODY])][i := t[i].(nlink := t[i].nlink - 1)]
  }

  ghost predicate Removable(t: seq<Inode>, p: seq<nat>, d: nat, i: nat, k: nat) {
    && 1 <= d < |t| && Linked(t[d]) && 2 <= k < |t[d].entries| && t[d].entries[k].inum == i && 1 <= i < |t|
    && t[i].kind == Directory && Vacant(t[i].entries)
  }

  /** An empty directory has one link, and its parent has at least two. */
  lemma RmdirFacts(t: seq<Inode>, p: seq<nat>, d: nat, i: nat, k: nat)
    requires LinksOk(t, p) == true && Removable(t, p, d, i, k)
    ensures i != d && i != ROOT && Linked(t[i]) && Names(t, i) == 1 && Dots(t, i) == 0 && |p| == |t| && p[i] == 0
    ensures t[i].nlink == 1 && t[i].entries[1].inum == d && t[d].nlink >= 2
  {
    ShapeAt(t, i);
    Counted(t, d, k, i);
    CountAt(t, p, i);
    EmptyChildless(t, p, i);
    assert Upward(t, d, k);
    Counted(t, i, 1, d);
    CountAt(t, p, d);
    if d == ROOT {
      SumTwo(Ups(t, d), d, i);
    }
  }

  lemma UnmadeCounts(t: seq<Inode>, d: nat, i: nat, k: nat, c: nat)
    requires 1 <= d < |t| && Linked(t[d]) && t[d].nlink >= 2 && 2 <= k < |t[d].entries| && t[d].entries[k].inum == i
    requires 1 <= i < |t| && i != d && Linked(t[i]) && t[i].nlink == 1 && Vacant(t[i].entries)
    requires t[i].entries[1].inum == d && c >= 1
    ensures Names(Unmade(t, d, i, k), c) == Names(t, c) - if c == i then 1 else 0
    ensures Dots(Unmade(t, d, i, k), c) == Dots(t, c) - if c == d then 1 else 0
  {
    var t' := Unmade(t, d, i, k);
    EntryChange(t[d].entries, k, NOBODY, c);
    NoneIn(t[i].entries, c);
    RowChange(t, d, t'[d], c);
    RowChange(t[d := t'[d]], i, t'[i], c);
  }

  lemma RmdirOk(t: seq<Inode>, p: seq<nat>, d: nat, i: nat, k: nat)
    requires LinksOk(t, p) == true && Removable(t, p, d, i, k)
    ensures t[d].nlink >= 1 && t[i].nlink == 1 && i != d && LinksOk(Unmade(t, d, i, k), p) == true
  {
    RmdirFacts(t, p, d, i, k);
    var t' := Unmade(t, d, i, k);
    UnmadeBalance(t, p, d, i, k);
    SamePending(t, t', p, i);
    UnmadeShape(t, d, i, k);
    UnmadeTree(t, d, i, k);
    Together(t', p);
  }

  lemma UnmadeBalance(t: seq<Inode>, p: seq<nat>, d: nat, i: nat, k: nat)
    requires Counts(t, p)
    requires 1 <= d < |t| && Linked(t[d]) && t[d].nlink >= 2 && 2 <= k < |t[d].entries| && t[d].entries[k].inum == i
    requires 1 <= i < |t| && i != d && Linked(t[i]) && t[i].nlink == 1 && Vacant(t[i].entries)
    requires t[i].entries[1].inum == d
    ensures Counts(Unmade(t, d, i, k), p)
  {
    var t' := Unmade(t, d, i, k);
    forall c | 1 <= c < |t'|
      ensures t'[c].nlink == Names(t', c) + Dots(t', c) + p[c]
    {
      UnmadeAt(t, p, d, i, k, c);
    }
  }

  lemma UnmadeAt(t: seq<Inode>, p: seq<nat>, d: nat, i: nat, k: nat, c: nat)
    requires Counts(t, p)
    requires 1 <= d < |t| && Linked(t[d]) && t[d].nlink >= 2 && 2 <= k < |t[d].entries| && t[d].entries[k].inum == i
    requires 1 <= i < |t| && i != d && Linked(t[i]) && t[i].nlink == 1 && Vacant(t[i].entries)
    requires t[i].entries[1].inum == d && 1 <= c < |t|
    ensures var t' := Unmade(t, d, i, k); t'[c].nlink == Names(t', c) + Dots(t', c) + p[c]
  {
    UnmadeCounts(t, d, i, k, c);
    CountAt(t, p, c);
  }

  lemma UnmadeShape(t: seq<Inode>, d: nat, i: nat, k: nat)
    requires Shape(t) && 1 <= d < |t| && Linked(t[d]) && t[d].nlink >= 2 && 2 <= k < |t[d].entries|
    requires 1 <= i < |t| && i != d && i != ROOT && Linked(t[i]) && Vacant(t[i].entries)
    ensures Shape(Unmade(t, d, i, k))
  {
    var t' := Unmade(t, d, i, k);
    ShapeAt(t, d);
    ErasedOk(t[d].entries, k, d, |t|);
    forall j | 0 <= j < |t|
      ensures InodeOk(t'[j], j, |t|)
    {
      ShapeAt(t, j);
    }
  }

  lemma UnmadeTree(t: seq<Inode>, d: nat, i: nat, k: nat)
    requires Shape(t) && OneName(t) && Parents(t)
    requires 1 <= d < |t| && Linked(t[d]) && t[d].nlink >= 2 && 2 <= k < |t[d].entries| && t[d].entries[k].inum == i
    requires 1 <= i < |t| && i != d && Linked(t[i]) && t[i].nlink == 1 && Vacant(t[i].entries)
    requires t[i].entries[1].inum == d
    ensures OneName(Unmade(t, d, i, k)) && Parents(Unmade(t, d, i, k))
  {
    var t' := Unmade(t, d, i, k);
    forall c | 1 <= c < |t'| && Linked(t'[c])
      ensures Names(t', c) == if c == ROOT then 0 else 1
    {
      UnmadeCounts(t, d, i, k, c);
    }
    forall b, j | 0 <= b < |t'| && Linked(t'[b]) && 2 <= j < |t'[b].entries|
      ensures Upward(t', b, j)
    {
      if b != d || j != k {
        ShapeAt(t, b);
        ShapeAt(t, t[b].entries[j].inum);
        assert Upward(t, b, j);
        UpwardKept(t, t', b, j);
      }
    }
  }

  // ---------- directories without links ----------

  /** A name that is put into a directory without links is lost: exactly then the counts go wrong. */
  lemma AddIff(t: seq<Inode>, p: seq<nat>, d: nat, k: nat, e: Dirent)
    requires LinksOk(t, p) == true && d < |t| && t[d].kind == Directory && Fits(t[d].entries, k, e)
    requires 1 <= e.inum < |t| && e.inum < |p| && t[e.inum].kind != Directory && p[e.inum] > 0
    ensures LinksOk(t[d := t[d].(entries := Added(t[d].entries, k, e))], p[e.inum := p[e.inum] - 1])
            <==> t[d].nlink > 0
  {
    ShapeAt(t, d);
    if t[d].nlink > 0 {
      AddOk(t, p, d, k, e);
    } else {
      var t', p' := t[d := t[d].(entries := Added(t[d].entries, k, e))], p[e.inum := p[e.inum] - 1];
      NeutralChange(t, d, t'[d], e.inum);
      CountAt(t, p, e.inum);
      if Counts(t', p') {
        CountAt(t', p', e.inum);
      }
    }
  }

  /** However an inode and a directory without links change: if the count goes up by more than the links
      that are being made, it is wrong. */
  lemma Miscounted(t: seq<Inode>, p: seq<nat>, w: seq<Inode>, q: seq<nat>, d: nat, i: nat)
    requires Counts(t, p) && d < |t| && 1 <= i < |t| && i != d && |w| == |t| && |q| == |t|
    requires w == t[d := w[d]][i := w[i]]
    requires !Linked(t[d]) && !Linked(w[d]) && !Linked(t[i]) && !Linked(w[i])
    requires w[i].nlink + p[i] != t[i].nlink + q[i]
    ensures !Counts(w, q)
  {
    NeutralChange(t, d, w[d], i);
    NeutralChange(t[d := w[d]], i, w[i], i);
    CountAt(t, p, i);
    assert w[i].nlink != Names(w, i) + Dots(w, i) + q[i];
  }

  /** A directory that is made in one without links brings that one back, but with no name. */
  lemma MkdirIff(t: seq<Inode>, p: seq<nat>, d: nat, n: nat, k: nat, e: Dirent)
    requires LinksOk(t, p) == true && 1 <= d < |t| && t[d].kind == Directory && 1 <= n < |t| && t[n].kind == Free
    requires Fits(t[d].entries, k, e) && e.inum == n
    ensures LinksOk(Made(t, d, n, k, e), p) <==> t[d].nlink > 0
  {
    ShapeAt(t, d);
    if t[d].nlink > 0 {
      MkdirOk(t, p, d, n, k, e);
    } else {
      var t' := Made(t, d, n, k, e);
      Unnamed(t, p, d);
      AddedNames(t[d].entries, k, e, d);
      NoneIn(t[d].entries, d);
      NoneIn(t'[n].entries, d);
      ShapeAt(t, n);
      RowChange(t, n, t'[n], d);
      RowChange(t[n := t'[n]], d, t'[d], d);
      assert Names(t', d) == 0 && Linked(t'[d]);
    }
  }

  // ---------- the beginning ----------

  /** n inodes of which only the root directory is in use. */
  function Fresh(n: nat): (t: seq<Inode>)
    requires n > ROOT
  {
    seq(n, i => if i == ROOT then Inode(Directory, 1, [Dirent(".", ROOT), Dirent("..", ROOT)], 0, false)
                else Inode(Free, 0, [], 0, false))
  }

  lemma FreshCounts(n: nat, i: nat)
    requires n > ROOT && i >= 1
    ensures Names(Fresh(n), i) == 0 && Dots(Fresh(n), i) == if i == ROOT then 1 else 0
  {
    var t := Fresh(n);
    NoneIn(t[ROOT].entries, i);
    SumZero(Rows(t, i));
    var none: seq<nat> := seq(n, k => 0);
    var v: nat := if i == ROOT then 1 else 0;
    assert Ups(t, i) == none[ROOT := v];
    SumUpdate(none, ROOT, v);
    SumZero(none);
  }

  lemma FreshOk(n: nat)
    requires n > ROOT
    ensures LinksOk(Fresh(n), seq(n, i => 0))
  {
    var t := Fresh(n);
    var p: seq<nat> := seq(n, i => 0);
    forall i | 1 <= i < |t|
      ensures Names(t, i) == 0 && Dots(t, i) == if i == ROOT then 1 else 0
    {
      FreshCounts(n, i);
    }
    assert Counts(t, p) && Shape(t) && OneName(t) && Parents(t) && Pending(t, p);
  }

  // ---------- references ----------

  /** iput: the last reference to an inode without links frees it. */
  function Put(x: Inode): (y: Inode)
    requires x.ref > 0
  {
    if x.ref == 1 && x.valid && x.nlink == 0 then Inode(Free, 0, [], 0, false) else x.(ref := x.ref - 1)
  }

  lemma PutOk(t: seq<Inode>, p: seq<nat>, i: nat)
    requires LinksOk(t, p) == true && 1 <= i < |t| && t[i].ref > 0
    ensures LinksOk(t[i := Put(t[i])], p) == true
  {
    if t[i].ref == 1 && t[i].valid && t[i].nlink == 0 {
      Unnamed(t, p, i);
      LeafOk(t, p, i, Put(t[i]), 0);
      assert p[i := 0] == p;
    } else {
      RefsOk(t, p, i, Put(t[i]));
    }
  }
}
