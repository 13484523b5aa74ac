/** Three-level page tables, as section 4.4 of the RISC-V privileged architecture (Sv39) lays
    them out, in pages of physical memory that a free list hands out. Memory is an array of
    pages of 512 words, and addresses are page numbers. */
module Sv39 {
  type Page = p: seq<nat> | |p| == 512 witness seq(512, i => 0)

  function Filled(w: nat): (p: Page) {
    seq(512, i => w)
  }

  /** The table of a tree for one range of pages: the entries of Place(r, l, x) stand for the
      page numbers 512^l * (512 * x + i), and so on, of the tree rooted in page r. */
  datatype Place = Place(root: nat, level: nat, x: nat)

  function Child(p: Place, i: nat): (c: Place)
    requires p.level > 0
  {
    Place(p.root, p.level - 1, p.x * 512 + i)
  }

  function Parent(p: Place): (q: Place) {
    Place(p.root, p.level + 1, p.x / 512)
  }

  lemma Family(p: Place, i: nat)
    requires i < 512
    ensures p.level > 0 ==> Parent(Child(p, i)) == p && Child(p, i).x % 512 == i
    ensures Child(Parent(p), p.x % 512) == p
  {
  }

  /** A page of a user address space. */
  datatype Slot = Slot(root: nat, vpn: nat)

  /** What a page of physical memory is in use for. Loose pages are allocated, but in no tree
      and no address space. */
  datatype Role = Kernel | Free | Table(place: Place) | Frame(slot: Slot) | Loose

  /** Physical memory and the free list, and a ledger: the role of every page, and where the
      tables of all trees are. */
  datatype Memory = Memory(pages: seq<Page>, free: seq<nat>, at: map<Place, nat>, role: seq<Role>)

  predicate IsValid(w: nat) {
    w % 2 == 1
  }

  /** (w & (PTE_R|PTE_W|PTE_X)) != 0 */
  predicate IsLeaf(w: nat) {
    w / 2 % 8 != 0
  }

  ghost predicate LeafOk(s: Memory, w: nat) {
    w == 0 || (IsValid(w) && IsLeaf(w) && w / 1024 < |s.pages|)
  }

  ghost function Entry(at: map<Place, nat>, c: Place): (w: nat) {
    if c in at then at[c] * 1024 + 1 else 0
  }

  /** PA2PTE(pa) | flags and back: PTE2PA, PTE_FLAGS and the bits. */
  lemma Encoded(n: nat, flags: nat)
    requires flags < 1024
    ensures var w := n * 1024 + flags;
            && w / 1024 == n && w % 1024 == flags
            && (IsValid(w) <==> IsValid(flags)) && (IsLeaf(w) <==> IsLeaf(flags))
  {
    var w := n * 1024 + flags;
    assert w == 2 * (n * 512) + flags;
    assert w / 2 == 8 * (n * 64) + flags / 2;
  }

  lemma EntryMeans(at: map<Place, nat>, c: Place)
    ensures c in at ==> IsValid(Entry(at, c)) && Entry(at, c) / 1024 == at[c]
    ensures c !in at ==> !IsValid(Entry(at, c))
  {
    if c in at {
      Encoded(at[c], 1);
    }
  }

  /** The free list has exactly the free pages, each once. */
  ghost predicate FreeOk(s: Memory) {
    && |s.role| == |s.pages|
    && (forall k :: 0 <= k < |s.free| ==> s.free[k] < |s.pages| && s.role[s.free[k]] == Free)
    && (forall j, k :: 0 <= j < k < |s.free| ==> s.free[j] != s.free[k])
    && (forall p: nat {:trigger p in s.free} :: p < |s.role| && s.role[p] == Free ==> p in s.free)
  }

  /** The tables form trees, each in a page of its own. */
  ghost predicate TreesOk(s: Memory) {
    && |s.role| == |s.pages|
    && (forall p {:trigger s.at[p]} :: p in s.at ==>
          && s.at[p] < |s.pages| && s.role[s.at[p]] == Table(p) && p.level <= 2
          && (p.level == 2 ==> p.x == 0 && s.at[p] == p.root)
          && (p.level < 2 ==> Parent(p) in s.at))
    && (forall n: nat {:trigger s.role[n].place} :: n < |s.role| && s.role[n].Table? ==>
          s.role[n].place in s.at && s.at[s.role[n].place] == n)
  }

  /** Every entry of an inner table points to the table below it, if there is one. */
  ghost predicate EntriesOk(s: Memory, stale: set<Place>)
    requires TreesOk(s)
  {
    forall p, i {:trigger s.pages[s.at[p]][i]} :: p in s.at && p.level > 0 && 0 <= i < 512 && Child(p, i) !in stale ==>
      s.pages[s.at[p]][i] == Entry(s.at, Child(p, i))
  }

  ghost predicate LeavesOk(s: Memory)
    requires TreesOk(s)
  {
    forall p, i {:trigger s.pages[s.at[p]][i]} :: p in s.at && p.level == 0 && 0 <= i < 512 ==>
      LeafOk(s, s.pages[s.at[p]][i])
  }

  /** The entry for page v in the tree of r: what walk finds, or 0 where a table is missing. */
  ghost function Pte(s: Memory, r: nat, v: nat): (w: nat)
    requires TreesOk(s)
  {
    var p := Place(r, 0, v / 512);
    if p in s.at then s.pages[s.at[p]][v % 512] else 0
  }

  /** Every data page of an address space is mapped there. */
  ghost predicate FramesOk(s: Memory)
    requires TreesOk(s)
  {
    forall f: nat :: f < |s.role| && s.role[f].Frame? ==>
      var w := Pte(s, s.role[f].slot.root, s.role[f].slot.vpn); IsValid(w) && w / 1024 == f
  }

  ghost predicate InvBut(s: Memory, stale: set<Place>) {
    FreeOk(s) && TreesOk(s) && EntriesOk(s, stale) && LeavesOk(s) && FramesOk(s)
  }

  ghost predicate Inv(s: Memory) {
    InvBut(s, {})
  }

  /** The translation of page v by the hardware: the walk from the root page, three levels of
      entries, of which the first two must be valid. */
  ghost function Translate(pages: seq<Page>, root: nat, v: nat): (w: nat)
    requires v < 0x800_0000
  {
    if root >= |pages| then 0 else
      var e2 := pages[root][v / 262144];
      if !IsValid(e2) || e2 / 1024 >= |pages| then 0 else
        var e1 := pages[e2 / 1024][v / 512 % 512];
        if !IsValid(e1) || e1 / 1024 >= |pages| then 0 else pages[e1 / 1024][v % 512]
  }

  /** The places that walk passes for page v. */
  lemma Path(r: nat, v: nat)
    requires v < 0x800_0000
    ensures v / 262144 < 512
    ensures Child(Place(r, 2, 0), v / 262144) == Place(r, 1, v / 262144)
    ensures Child(Place(r, 1, v / 262144), v / 512 % 512) == Place(r, 0, v / 512)
    ensures Parent(Place(r, 0, v / 512)) == Place(r, 1, v / 262144)
    ensures Parent(Place(r, 1, v / 262144)) == Place(r, 2, 0)
  {
  }

  /** The trees mean what the hardware makes of them. */
  lemma TranslateIsPte(s: Memory, r: nat, v: nat)
    requires Inv(s) && Place(r, 2, 0) in s.at && v < 0x800_0000
    ensures Translate(s.pages, r, v) == Pte(s, r, v)
  {
    var p2, p1, p0 := Place(r, 2, 0), Place(r, 1, v / 262144), Place(r, 0, v / 512);
    var i2, i1 := v / 262144, v / 512 % 512;
    Path(r, v);
    EntryMeans(s.at, p1);
    EntryMeans(s.at, p0);
    assert s.at[p2] == r && s.pages[r][i2] == Entry(s.at, p1);
    if p1 in s.at {
      assert s.pages[s.at[p1]][i1] == Entry(s.at, p0);
    }
  }

  // ---------- the steps that change memory ----------

  /** No entry of any tree changes. */
  ghost predicate SameMaps(s: Memory, t: Memory)
    requires TreesOk(s) && TreesOk(t)
  {
    forall r: nat, v: nat {:trigger Pte(t, r, v)} :: Pte(t, r, v) == Pte(s, r, v)
  }

  /** Nothing that the trees consist of changes. */
  lemma TreesKept(s: Memory, t: Memory, stale: set<Place>)
    requires InvBut(s, stale) && t.at == s.at && |t.pages| == |t.role| == |s.pages|
    requires forall n: nat {:trigger t.role[n]} :: n < |s.role| && (s.role[n].Table? || t.role[n].Table?) ==>
               t.role[n] == s.role[n] && t.pages[n] == s.pages[n]
    ensures TreesOk(t) && EntriesOk(t, stale) && LeavesOk(t) && SameMaps(s, t)
    ensures (forall n: nat {:trigger t.role[n]} :: n < |s.role| && t.role[n].Frame? ==> t.role[n] == s.role[n]) ==>
              FramesOk(t)
  {
    forall p | p in t.at
      ensures t.at[p] < |t.pages| && t.role[t.at[p]] == Table(p) && t.pages[t.at[p]] == s.pages[s.at[p]]
    {
      assert s.role[s.at[p]] == Table(p);
    }
    assert TreesOk(t);
  }

  /** kalloc takes the first free page; its contents become x. */
  ghost function Take(s: Memory, x: Page): (t: Memory)
    requires |s.free| > 0 && s.free[0] < |s.pages| == |s.role|
  {
    s.(free := s.free[1..], pages := s.pages[s.free[0] := x], role := s.role[s.free[0] := Loose])
  }

  lemma TakeOk(s: Memory, x: Page, stale: set<Place>)
    requires InvBut(s, stale) && |s.free| > 0
    ensures var t := Take(s, x); InvBut(t, stale) && SameMaps(s, t)
  {
    var t := Take(s, x);
    var f := s.free[0];
    forall p: nat | p < |t.role| && t.role[p] == Free
      ensures p in t.free
    {
      assert p in s.free;
      var k :| 0 <= k < |s.free| && s.free[k] == p;
      assert t.free[k - 1] == p;
    }
    TreesKept(s, t, stale);
  }

  /** kfree puts a loose page back; its contents become x. */
  ghost function Put(s: Memory, p: nat, x: Page): (t: Memory)
    requires p < |s.pages| == |s.role|
  {
    s.(free := [p] + s.free, pages := s.pages[p := x], role := s.role[p := Free])
  }

  lemma PutOk(s: Memory, p: nat, x: Page, stale: set<Place>)
    requires InvBut(s, stale) && p < |s.pages| && s.role[p] == Loose
    ensures var t := Put(s, p, x); InvBut(t, stale) && SameMaps(s, t)
  {
    var t := Put(s, p, x);
    forall q: nat | q < |t.role| && t.role[q] == Free
      ensures q in t.free
    {
      if q != p {
        assert q in s.free;
        var k :| 0 <= k < |s.free| && s.free[k] == q;
        assert t.free[k + 1] == q;
      }
    }
    TreesKept(s, t, stale);
  }

  /** walk hangs the zeroed loose page n below table q as its i-th child. */
  ghost function Link(s: Memory, q: Place, i: nat, n: nat): (t: Memory)
    requires TreesOk(s) && q in s.at && q.level > 0 && i < 512 && n < |s.pages|
  {
    var a := s.at[q];
    s.(pages := s.pages[a := s.pages[a][i := n * 1024 + 1]],
       at := s.at[Child(q, i) := n], role := s.role[n := Table(Child(q, i))])
  }

  lemma LinkTrees(s: Memory, q: Place, i: nat, n: nat)
    requires Inv(s) && q in s.at && q.level > 0 && i < 512 && Child(q, i) !in s.at
    requires n < |s.pages| && s.role[n] == Loose
    ensures FreeOk(Link(s, q, i, n)) && TreesOk(Link(s, q, i, n))
  {
    Family(q, i);
    assert s.role[s.at[q]] == Table(q);
  }

  lemma LinkEntries(s: Memory, q: Place, i: nat, n: nat)
    requires Inv(s) && q in s.at && q.level > 0 && i < 512 && Child(q, i) !in s.at
    requires n < |s.pages| && s.role[n] == Loose && s.pages[n] == Filled(0) && TreesOk(Link(s, q, i, n))
    ensures EntriesOk(Link(s, q, i, n), {})
  {
    var t, c := Link(s, q, i, n), Child(q, i);
    forall p, j | p in t.at && p.level > 0 && 0 <= j < 512
      ensures t.pages[t.at[p]][j] == Entry(t.at, Child(p, j))
    {
      Family(p, j);
      Family(q, i);
      if p == c {
        assert Parent(Child(c, j)) == c && Child(c, j) !in s.at;
      } else {
        assert s.role[s.at[p]] == Table(p) && s.pages[s.at[p]][j] == Entry(s.at, Child(p, j));
      }
    }
  }

  lemma LinkOk(s: Memory, q: Place, i: nat, n: nat)
    requires Inv(s) && q in s.at && q.level > 0 && i < 512 && Child(q, i) !in s.at
    requires n < |s.pages| && s.role[n] == Loose && s.pages[n] == Filled(0)
    ensures Inv(Link(s, q, i, n)) && SameMaps(s, Link(s, q, i, n))
  {
    var t, c := Link(s, q, i, n), Child(q, i);
    LinkTrees(s, q, i, n);
    LinkEntries(s, q, i, n);
    forall p | p in t.at && p.level == 0
      ensures t.pages[t.at[p]] == if p == c then Filled(0) else s.pages[s.at[p]]
    {
      assert p != c ==> s.role[s.at[p]] == Table(p);
      assert s.role[s.at[q]] == Table(q);
    }
    LinkMaps(s, t, c);
  }

  lemma LinkMaps(s: Memory, t: Memory, c: Place)
    requires Inv(s) && TreesOk(t) && c !in s.at && |t.pages| == |s.pages|
    requires forall p: Place {:trigger p in t.at} :: p.level == 0 ==> (p in t.at <==> p in s.at || p == c)
    requires forall p {:trigger t.at[p]} :: p in t.at && p.level == 0 ==>
               t.pages[t.at[p]] == if p == c then Filled(0) else s.pages[s.at[p]]
    requires forall n: nat {:trigger t.role[n]} :: n < |t.role| && t.role[n].Frame? ==> t.role[n] == s.role[n]
    ensures SameMaps(s, t) && LeavesOk(t) && FramesOk(t)
  {
    forall r: nat, v: nat
      ensures Pte(t, r, v) == Pte(s, r, v)
    {
      var p := Place(r, 0, v / 512);
      assert p in t.at <==> p in s.at || p == c;
    }
  }

  // ---------- leaf entries ----------

  /** The entry for page v of the tree of r becomes w. */
  ghost function SetLeaf(s: Memory, r: nat, v: nat, w: nat): (t: Memory)
    requires TreesOk(s) && Place(r, 0, v / 512) in s.at
  {
    var a := s.at[Place(r, 0, v / 512)];
    s.(pages := s.pages[a := s.pages[a][v % 512 := w]])
  }

  /** t has the entries of s, except that page v of the tree of r has w. */
  ghost predicate OneMap(s: Memory, t: Memory, r: nat, v: nat, w: nat)
    requires TreesOk(s) && TreesOk(t)
  {
    forall r': nat, v': nat {:trigger Pte(t, r', v')} ::
      Pte(t, r', v') == if r' == r && v' == v then w else Pte(s, r', v')
  }

  lemma SameLeaf(v: nat, v': nat)
    requires v / 512 == v' / 512 && v % 512 == v' % 512
    ensures v == v'
  {
  }

  lemma SetLeafMaps(s: Memory, r: nat, v: nat, w: nat)
    requires TreesOk(s) && Place(r, 0, v / 512) in s.at
    ensures TreesOk(SetLeaf(s, r, v, w)) && OneMap(s, SetLeaf(s, r, v, w), r, v, w)
  {
    var t, p := SetLeaf(s, r, v, w), Place(r, 0, v / 512);
    forall r': nat, v': nat
      ensures Pte(t, r', v') == if r' == r && v' == v then w else Pte(s, r', v')
    {
      var p' := Place(r', 0, v' / 512);
      assert p' in s.at ==> s.role[s.at[p']] == Table(p');
      if p' == p && v' % 512 == v % 512 {
        SameLeaf(v, v');
      }
    }
  }

  lemma SetLeafTables(s: Memory, r: nat, v: nat, w: nat)
    requires Inv(s) && Place(r, 0, v / 512) in s.at && LeafOk(s, w)
    ensures var t := SetLeaf(s, r, v, w); TreesOk(t) && FreeOk(t) && EntriesOk(t, {}) && LeavesOk(t)
  {
    var t, p := SetLeaf(s, r, v, w), Place(r, 0, v / 512);
    assert TreesOk(t);
    forall q, i | q in t.at && 0 <= i < 512
      ensures q.level > 0 ==> t.pages[t.at[q]][i] == Entry(t.at, Child(q, i))
      ensures q.level == 0 ==> LeafOk(t, t.pages[t.at[q]][i])
    {
      assert s.role[s.at[q]] == Table(q);
      assert q.level > 0 ==> s.pages[s.at[q]][i] == Entry(s.at, Child(q, i));
      assert q.level == 0 ==> LeafOk(s, s.pages[s.at[q]][i]);
    }
  }

  /** An entry may change if no data page hangs on it. */
  lemma SetLeafOk(s: Memory, r: nat, v: nat, w: nat)
    requires Inv(s) && Place(r, 0, v / 512) in s.at && LeafOk(s, w)
    requires forall f: nat :: f < |s.role| ==> s.role[f] != Frame(Slot(r, v))
    ensures Inv(SetLeaf(s, r, v, w)) && OneMap(s, SetLeaf(s, r, v, w), r, v, w)
  {
    SetLeafMaps(s, r, v, w);
    SetLeafTables(s, r, v, w);
  }

  /** The one page that can be the data page of a slot. */
  lemma OneFrame(s: Memory, r: nat, v: nat, f: nat)
    requires Inv(s) && f < |s.role| && s.role[f] == Frame(Slot(r, v))
    ensures IsValid(Pte(s, r, v)) && f == Pte(s, r, v) / 1024
  {
  }

  /** Of a page that is in no tree the role may change, if the entry for its slot is there. */
  lemma RoleOk(s: Memory, f: nat, x: Role)
    requires Inv(s) && f < |s.role| && (s.role[f] == Loose || s.role[f].Frame?)
    requires x == Loose || (x.Frame? && var w := Pte(s, x.slot.root, x.slot.vpn); IsValid(w) && w / 1024 == f)
    ensures var t := s.(role := s.role[f := x]); Inv(t) && SameMaps(s, t)
  {
    var t := s.(role := s.role[f := x]);
    TreesKept(s, t, {});
    forall n: nat | n < |t.role| && t.role[n].Frame?
      ensures var w := Pte(t, t.role[n].slot.root, t.role[n].slot.vpn); IsValid(w) && w / 1024 == n
    {
      assert Pte(t, t.role[n].slot.root, t.role[n].slot.vpn) == Pte(s, t.role[n].slot.root, t.role[n].slot.vpn);
    }
  }

  // ---------- what operations keep ----------

  predicate IsData(x: Role) {
    x.Kernel? || x.Loose? || x.Frame?
  }

  /** No page other than tables and free pages changes its role or its contents. */
  ghost predicate SameData(s: Memory, t: Memory) {
    && |s.pages| == |s.role| == |t.pages| == |t.role|
    && forall n: nat {:trigger t.role[n]} {:trigger t.pages[n]} ::
         n < |s.role| && (IsData(s.role[n]) || IsData(t.role[n])) ==>
           t.role[n] == s.role[n] && t.pages[n] == s.pages[n]
  }

  /** The tables of s are still there; new ones are below the root of r. */
  ghost predicate MoreTables(s: Memory, t: Memory, r: nat) {
    && (forall p {:trigger t.at[p]} {:trigger p in s.at} :: p in s.at ==> p in t.at && t.at[p] == s.at[p])
    && (forall p {:trigger p in t.at} :: p in t.at && p !in s.at ==> p.root == r && p.level < 2)
  }

  lemma MoreTablesTwice(s: Memory, t: Memory, u: Memory, r: nat)
    requires MoreTables(s, t, r) && MoreTables(t, u, r)
    ensures MoreTables(s, u, r)
  {
    forall p | p in u.at && p !in s.at
      ensures p.root == r && p.level < 2
    {
      assert p in t.at || p !in t.at;
    }
  }

  /** What walk may do to memory: new tables in the tree of r, and no new translation. */
  ghost predicate Walked(s: Memory, t: Memory, r: nat) {
    Inv(s) && Inv(t) && SameMaps(s, t) && SameData(s, t) && MoreTables(s, t, r)
  }

  lemma SameDataTwice(s: Memory, t: Memory, u: Memory)
    requires SameData(s, t) && SameData(t, u)
    ensures SameData(s, u)
  {
    forall n: nat | n < |s.role| && (IsData(s.role[n]) || IsData(u.role[n]))
      ensures u.role[n] == s.role[n] && u.pages[n] == s.pages[n]
    {
      assert t.role[n] == s.role[n] && t.pages[n] == s.pages[n];
    }
  }

  lemma WalkedNone(s: Memory, r: nat)
    requires Inv(s)
    ensures Walked(s, s, r)
  {
  }

  lemma WalkedTwice(s: Memory, t: Memory, u: Memory, r: nat)
    requires Walked(s, t, r) == Walked(t, u, r) == true
    ensures Walked(s, u, r)
  {
    forall r': nat, v: nat
      ensures Pte(u, r', v) == Pte(s, r', v)
    {
      assert Pte(t, r', v) == Pte(s, r', v);
    }
    SameDataTwice(s, t, u);
    MoreTablesTwice(s, t, u, r);
  }

  /** walk with alloc: a page has been taken, zeroed and hung into the tree. */
  lemma GrowOk(s: Memory, q: Place, i: nat)
    requires Inv(s) && |s.free| > 0 && q in s.at && q.level > 0 && i < 512 && Child(q, i) !in s.at
    ensures TreesOk(Take(s, Filled(0))) && Walked(s, Link(Take(s, Filled(0)), q, i, s.free[0]), q.root)
  {
    var n, u := s.free[0], Take(s, Filled(0));
    TakeOk(s, Filled(0), {});
    LinkOk(u, q, i, n);
    var t := Link(u, q, i, n);
    assert forall r: nat, v: nat :: Pte(t, r, v) == Pte(u, r, v) && Pte(u, r, v) == Pte(s, r, v);
    assert s.role[s.at[q]] == Table(q);
  }

  /** The entry of an inner table tells whether, and where, there is a table below. */
  lemma EntryThere(s: Memory, q: Place, i: nat)
    requires Inv(s) && q in s.at && q.level > 0 && i < 512
    ensures var w := s.pages[s.at[q]][i];
            && (IsValid(w) <==> Child(q, i) in s.at)
            && (IsValid(w) ==> s.at[Child(q, i)] == w / 1024)
  {
    EntryMeans(s.at, Child(q, i));
  }
}
