/** Taking a tree apart: what freewalk does, as relations between memory before and after. */
module Prune {
  import opened Sv39

  /** The table above p on level l. */
  ghost function Above(p: Place, l: nat): (q: Place)
    requires p.level <= l
    ensures q.level == l && q.root == p.root
    decreases l - p.level
  {
    if p.level == l then p else Above(Parent(p), l)
  }

  ghost predicate Under(p: Place, q: Place) {
    p.level <= q.level && Above(p, q.level) == q
  }

  /** p is in one of the first n subtrees of q. */
  ghost predicate Early(p: Place, q: Place, n: nat) {
    p.root == q.root && p.level < q.level && q.x * 512 <= Above(p, q.level - 1).x < q.x * 512 + n
  }

  lemma EarlyNext(p: Place, q: Place, i: nat)
    requires q.level > 0
    ensures Early(p, q, i + 1) <==> Early(p, q, i) || Under(p, Child(q, i))
  {
  }

  lemma {:induction false} AboveStep(p: Place, l: nat)
    requires p.level <= l
    ensures Above(p, l + 1) == Parent(Above(p, l))
    decreases l - p.level
  {
    if p.level < l {
      AboveStep(Parent(p), l);
    }
  }

  lemma EarlyAll(p: Place, q: Place)
    ensures Early(p, q, 512) <==> p != q && Under(p, q)
  {
    if p.level < q.level {
      AboveStep(p, q.level - 1);
    }
  }

  lemma {:induction false} AboveThere(s: Memory, p: Place, l: nat)
    requires TreesOk(s) && p in s.at && p.level <= l <= 2
    ensures Above(p, l) in s.at
    decreases l - p.level
  {
    if p.level < l {
      AboveThere(s, Parent(p), l);
    }
  }

  /** Every table of a tree is below its root. */
  lemma AllUnderRoot(s: Memory, p: Place, root: nat)
    requires TreesOk(s) && p in s.at
    ensures p.root == root <==> Under(p, Place(root, 2, 0))
  {
    AboveThere(s, p, 2);
  }

  /** No table of the tree of root has a leaf entry. */
  ghost predicate Bare(s: Memory, root: nat)
    requires TreesOk(s)
  {
    forall p {:trigger s.at[p]} :: p in s.at && p.root == root && p.level == 0 ==> s.pages[s.at[p]] == Filled(0)
  }

  /** The pages of the tables in `gone` have become free. */
  ghost predicate RolesBut(x: seq<Role>, y: seq<Role>, gone: set<Place>) {
    && |x| == |y|
    && forall m: nat {:trigger y[m]} :: m < |x| ==> y[m] == if x[m].Table? && x[m].place in gone then Free else x[m]
  }

  lemma RolesTwice(x: seq<Role>, y: seq<Role>, z: seq<Role>, g: set<Place>, h: set<Place>)
    requires RolesBut(x, y, g) && RolesBut(y, z, h)
    ensures RolesBut(x, z, g + h)
  {
    forall m: nat | m < |x|
      ensures z[m] == if x[m].Table? && x[m].place in g + h then Free else x[m]
    {
      assert y[m] == if x[m].Table? && x[m].place in g then Free else x[m];
    }
  }

  lemma MinusTwice(at: map<Place, nat>, g: set<Place>, h: set<Place>)
    ensures at - g - h == at - (g + h)
  {
  }

  /** The tables in `gone` have been freed, and nothing else has changed, except perhaps in the
      page of table `but`. */
  ghost predicate Without(s: Memory, t: Memory, gone: set<Place>, but: Place)
    requires TreesOk(s)
  {
    && TreesOk(t) && |t.pages| == |s.pages| && t.at == s.at - gone && SameMaps(s, t)
    && (forall p {:trigger t.at[p]} :: p in t.at && p != but ==> t.pages[t.at[p]] == s.pages[t.at[p]])
    && RolesBut(s.role, t.role, gone)
    && (forall m: nat {:trigger t.pages[m]} :: m < |s.role| && IsData(s.role[m]) ==> t.pages[m] == s.pages[m])
  }

  ghost function Subtree(s: Memory, q: Place): (r: set<Place>) {
    set p | p in s.at && Under(p, q)
  }

  ghost function Subtrees(s: Memory, q: Place, n: nat): (r: set<Place>) {
    set p | p in s.at && Early(p, q, n)
  }

  // ---------- the two steps ----------

  /** A table with nothing below it goes back to the free list. */
  ghost function Drop(s: Memory, q: Place, x: Page): (t: Memory)
    requires TreesOk(s) && q in s.at
  {
    Put(Unhooked(s, q), s.at[q], x)
  }

  ghost function Unhooked(s: Memory, q: Place): (l: Memory)
    requires TreesOk(s) && q in s.at
  {
    s.(at := s.at - {q}, role := s.role[s.at[q] := Loose])
  }

  lemma UnhookTrees(s: Memory, q: Place, stale: set<Place>)
    requires InvBut(s, stale) && q in s.at && (q.level < 2 ==> q in stale)
    requires forall p {:trigger p in s.at} :: p in s.at && p.level < 2 ==> Parent(p) != q
    ensures FreeOk(Unhooked(s, q)) && TreesOk(Unhooked(s, q))
  {
    assert s.role[s.at[q]] == Table(q);
  }

  lemma UnhookEntries(s: Memory, q: Place, stale: set<Place>)
    requires InvBut(s, stale) && q in s.at && (q.level < 2 ==> q in stale) && TreesOk(Unhooked(s, q))
    ensures EntriesOk(Unhooked(s, q), stale)
  {
    var l := Unhooked(s, q);
    forall p, i | p in l.at && p.level > 0 && 0 <= i < 512 && Child(p, i) !in stale
      ensures l.pages[l.at[p]][i] == Entry(l.at, Child(p, i))
    {
      assert s.pages[s.at[p]][i] == Entry(s.at, Child(p, i));
    }
  }

  lemma Unhook(s: Memory, q: Place, stale: set<Place>)
    requires InvBut(s, stale) && q in s.at && (q.level < 2 ==> q in stale)
    requires forall p {:trigger p in s.at} :: p in s.at && p.level < 2 ==> Parent(p) != q
    requires q.level == 0 ==> s.pages[s.at[q]] == Filled(0)
    ensures InvBut(Unhooked(s, q), stale) && SameMaps(s, Unhooked(s, q))
  {
    var l := Unhooked(s, q);
    UnhookTrees(s, q, stale);
    UnhookEntries(s, q, stale);
    forall r: nat, v: nat
      ensures Pte(l, r, v) == Pte(s, r, v)
    {
      assert Place(r, 0, v / 512) in l.at <==> Place(r, 0, v / 512) in s.at && Place(r, 0, v / 512) != q;
    }
  }

  lemma DropOk(s: Memory, q: Place, x: Page, stale: set<Place>)
    requires InvBut(s, stale) && q in s.at && (q.level < 2 ==> q in stale)
    requires forall p {:trigger p in s.at} :: p in s.at && p.level < 2 ==> Parent(p) != q
    requires q.level == 0 ==> s.pages[s.at[q]] == Filled(0)
    ensures InvBut(Drop(s, q, x), stale) && Without(s, Drop(s, q, x), {q}, q)
  {
    var l, n := Unhooked(s, q), s.at[q];
    Unhook(s, q, stale);
    PutOk(l, n, x, stale);
    var t := Drop(s, q, x);
    assert forall p :: p in s.at ==> s.role[s.at[p]] == Table(p);
    forall r: nat, v: nat
      ensures Pte(t, r, v) == Pte(s, r, v)
    {
      assert Pte(t, r, v) == Pte(l, r, v);
    }
  }

  /** The entry for a table that is gone is cleared. */
  lemma ZeroEntryOk(s: Memory, t: Memory, q: Place, i: nat, stale: set<Place>)
    requires q.level > 0 && InvBut(s, stale + {Child(q, i)}) && q in s.at && i < 512 && Child(q, i) !in s.at
    requires t == s.(pages := s.pages[s.at[q] := s.pages[s.at[q]][i := 0]])
    ensures InvBut(t, stale) && Without(s, t, {}, q)
  {
    assert forall p :: p in s.at ==> s.role[s.at[p]] == Table(p);
    assert TreesOk(t);
    forall p, j | p in t.at && p.level > 0 && 0 <= j < 512 && Child(p, j) !in stale
      ensures t.pages[t.at[p]][j] == Entry(t.at, Child(p, j))
    {
      Family(p, j);
      Family(q, i);
      assert Child(p, j) != Child(q, i) ==> s.pages[s.at[p]][j] == Entry(s.at, Child(p, j));
    }
    assert forall r: nat, v: nat :: Pte(t, r, v) == Pte(s, r, v);
  }

  // ---------- putting the steps together ----------

  lemma WithoutNone(s: Memory, q: Place)
    requires TreesOk(s)
    ensures Without(s, s, Subtrees(s, q, 0), q)
  {
    assert Subtrees(s, q, 0) == {};
  }

  lemma WithoutTwice(s: Memory, t: Memory, u: Memory, g: set<Place>, h: set<Place>, q: Place, c: Place)
    requires TreesOk(s) && TreesOk(t) && Without(s, t, g, q) == true && Without(t, u, h, c) == true &&
              (c == q || c in g + h)
    ensures Without(s, u, g + h, q)
  {
    MinusTwice(s.at, g, h);
    RolesTwice(s.role, t.role, u.role, g, h);
    forall r: nat, v: nat
      ensures Pte(u, r, v) == Pte(s, r, v)
    {
      assert Pte(t, r, v) == Pte(s, r, v);
    }
    forall p | p in u.at && p != q
      ensures u.pages[u.at[p]] == s.pages[u.at[p]]
    {
      assert p in t.at && p != c && t.pages[t.at[p]] == s.pages[t.at[p]];
    }
    forall m: nat | m < |s.role| && IsData(s.role[m])
      ensures u.pages[m] == s.pages[m]
    {
      assert t.role[m] == s.role[m] && t.pages[m] == s.pages[m];
    }
  }

  /** The loop of freewalk from one entry to the next. */
  lemma NextSubtree(s: Memory, t: Memory, q: Place, i: nat)
    requires TreesOk(s) && t.at == s.at - Subtrees(s, q, i) && q.level > 0
    ensures Subtrees(s, q, i) + Subtree(t, Child(q, i)) == Subtrees(s, q, i + 1)
  {
    forall p | p in s.at
      ensures p in Subtrees(s, q, i + 1) <==> p in Subtrees(s, q, i) || p in Subtree(t, Child(q, i))
    {
      EarlyNext(p, q, i);
    }
  }

  lemma LastSubtree(s: Memory, q: Place)
    requires q in s.at
    ensures Subtrees(s, q, 512) + {q} == Subtree(s, q)
  {
    forall p | p in s.at
      ensures p in Subtree(s, q) <==> p in Subtrees(s, q, 512) || p == q
    {
      EarlyAll(p, q);
    }
  }

  /** With all subtrees gone nothing is below q. */
  lemma NothingBelow(s: Memory, t: Memory, q: Place)
    requires TreesOk(s) && TreesOk(t) && t.at == s.at - Subtrees(s, q, 512)
    ensures forall p {:trigger p in t.at} :: p in t.at && p.level < 2 ==> Parent(p) != q
  {
    forall p | p in t.at && p.level < 2
      ensures Parent(p) != q
    {
      if Parent(p) == q {
        assert Above(p, p.level) == p && Early(p, q, 512);
      }
    }
  }

  lemma BareStill(s: Memory, t: Memory, gone: set<Place>, q: Place)
    requires TreesOk(s) && Without(s, t, gone, q) == true && Bare(s, q.root)
    requires q.level == 0 && q in t.at ==> t.pages[t.at[q]] == Filled(0)
    ensures Bare(t, q.root)
  {
    forall p | p in t.at && p.root == q.root && p.level == 0
      ensures t.pages[t.at[p]] == Filled(0)
    {
      assert p in s.at && t.at[p] == s.at[p];
    }
  }

  lemma NoSubtree(s: Memory, c: Place)
    requires TreesOk(s) && c !in s.at && c.level <= 2
    ensures Subtree(s, c) == {}
  {
    forall p | p in s.at
      ensures !Under(p, c)
    {
      if p.level <= c.level {
        AboveThere(s, p, c.level);
      }
    }
  }

  lemma StaleMore(s: Memory, stale: set<Place>, c: Place)
    requires InvBut(s, stale) == true
    ensures InvBut(s, stale + {c}) == true
  {
  }

  lemma NoNewSubtree(s: Memory, t: Memory, q: Place, i: nat)
    requires TreesOk(s) && TreesOk(t) && t.at == s.at - Subtrees(s, q, i) && q.level <= 2
    requires q.level > 0 ==> Child(q, i) !in t.at
    ensures Subtrees(s, q, i + 1) == Subtrees(s, q, i)
  {
    if q.level > 0 {
      NextSubtree(s, t, q, i);
      NoSubtree(t, Child(q, i));
    }
  }

  /** An entry of a table whose subtrees are being freed. */
  lemma EntryLeft(s: Memory, q: Place, i: nat, stale: set<Place>)
    requires InvBut(s, stale) == true && q in s.at && i < 512 && Bare(s, q.root) == true
    requires forall c {:trigger c in stale} :: c in stale ==> c.level >= q.level
    ensures var w := s.pages[s.at[q]][i];
            && !(IsValid(w) && IsLeaf(w))
            && (IsValid(w) ==> q.level > 0 && Child(q, i) in s.at && s.at[Child(q, i)] == w / 1024)
            && (!IsValid(w) && q.level > 0 ==> Child(q, i) !in s.at)
  {
    if q.level > 0 {
      EntryMeans(s.at, Child(q, i));
      if Child(q, i) in s.at {
        Encoded(s.at[Child(q, i)], 1);
      }
    }
  }

  /** A round of freewalk that came to a table: first its subtree is freed, ... */
  lemma SubtreeFreed(s: Memory, u: Memory, x: Memory, q: Place, i: nat, c: Place)
    requires TreesOk(s) && TreesOk(u) && q.level > 0 && c == Child(q, i) && c in u.at && q in u.at
    requires Without(s, u, Subtrees(s, q, i), q) == true && Without(u, x, Subtree(u, c), c) == true
    ensures c !in x.at && q in x.at && x.at[q] == u.at[q] && Without(s, x, Subtrees(s, q, i + 1), q) == true
  {
    NextSubtree(s, u, q, i);
    assert c in Subtree(u, c) && q !in Subtree(u, c);
    WithoutTwice(s, u, x, Subtrees(s, q, i), Subtree(u, c), q, c);
  }

  /** ... then its entry is cleared. */
  lemma EntryFreed(s: Memory, x: Memory, y: Memory, q: Place, i: nat, stale: set<Place>, gone: set<Place>)
    requires TreesOk(s) && Bare(s, q.root) && q.level > 0 && i < 512 && InvBut(x, stale + {Child(q, i)}) == true
    requires Without(s, x, gone, q) == true && q in x.at && Child(q, i) !in x.at
    requires y == x.(pages := x.pages[x.at[q] := x.pages[x.at[q]][i := 0]])
    ensures InvBut(y, stale) && Bare(y, q.root) && Without(s, y, gone, q) == true
  {
    ZeroEntryOk(x, y, q, i, stale);
    assert gone + {} == gone;
    WithoutTwice(s, x, y, gone, {}, q, q);
    BareStill(s, y, gone, q);
  }

  /** The whole tree of root is gone. */
  ghost predicate Removed(s: Memory, t: Memory, root: nat) {
    && Inv(s) && Inv(t) && SameMaps(s, t) && |t.role| == |s.role|
    && (forall p {:trigger p in t.at} :: p in t.at <==> p in s.at && p.root != root)
    && (forall p {:trigger t.at[p]} :: p in t.at ==> t.at[p] == s.at[p])
    && (forall m: nat {:trigger t.role[m]} :: m < |s.role| ==>
          t.role[m] == if s.role[m].Table? && s.role[m].place.root == root then Free else s.role[m])
    && (forall m: nat {:trigger t.pages[m]} :: m < |s.role| && IsData(s.role[m]) ==> t.pages[m] == s.pages[m])
  }

  /** Both, for one round of the loop of freewalk. */
  lemma RoundDone(s: Memory, u: Memory, x: Memory, q: Place, i: nat, c: Place, stale: set<Place>)
    requires TreesOk(s) && TreesOk(u) && Bare(s, q.root) && q.level > 0 && i < 512 && c == Child(q, i) && c in u.at &&
              q in u.at
    requires Without(s, u, Subtrees(s, q, i), q) == true && Without(u, x, Subtree(u, c), c) == true
    requires InvBut(x, stale + {c}) == true
    ensures c !in x.at && q in x.at && x.at[q] == u.at[q] && u.at[q] < |x.pages|
    ensures var y := x.(pages := x.pages[x.at[q] := x.pages[x.at[q]][i := 0]]);
            InvBut(y, stale) == true && Bare(y, q.root) == true && Without(s, y, Subtrees(s, q, i + 1), q) == true
  {
    SubtreeFreed(s, u, x, q, i, c);
    EntryFreed(s, x, x.(pages := x.pages[x.at[q] := x.pages[x.at[q]][i := 0]]), q, i, stale, Subtrees(s, q, i + 1));
  }

  lemma RemovedAll(s: Memory, t: Memory, root: nat)
    requires Inv(s) && Inv(t) && Without(s, t, Subtree(s, Place(root, 2, 0)), Place(root, 2, 0)) == true
    ensures Removed(s, t, root)
  {
    var q := Place(root, 2, 0);
    forall p | p in s.at
      ensures p in Subtree(s, q) <==> p.root == root
    {
      AllUnderRoot(s, p, root);
    }
  }
}
