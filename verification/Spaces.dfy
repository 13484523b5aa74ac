/** What the operations on address spaces do, as relations between memory before and after. */
module Spaces {
  import opened Sv39

  // ---------- mapping ----------

  /** n pages from v0 on have been mapped to the pages from ppn on. */
  ghost predicate Mapped(s: Memory, t: Memory, root: nat, v0: nat, n: nat, ppn: nat, flags: nat) {
    && Inv(s) && Inv(t) && SameData(s, t) && MoreTables(s, t, root)
    && (forall r: nat, v: nat {:trigger Pte(t, r, v)} ::
          Pte(t, r, v) == if r == root && v0 <= v < v0 + n then (ppn + (v - v0)) * 1024 + flags else Pte(s, r, v))
  }

  lemma MappedNone(s: Memory, root: nat, v0: nat, ppn: nat, flags: nat)
    requires Inv(s)
    ensures Mapped(s, s, root, v0, 0, ppn, flags)
  {
  }

  lemma NoFrame(s: Memory, root: nat, v: nat)
    requires Inv(s) && !IsValid(Pte(s, root, v))
    ensures forall f: nat :: f < |s.role| ==> s.role[f] != Frame(Slot(root, v))
  {
    forall f: nat | f < |s.role|
      ensures s.role[f] != Frame(Slot(root, v))
    {
      if s.role[f] == Frame(Slot(root, v)) {
        OneFrame(s, root, v, f);
      }
    }
  }

  /** An entry is written where there was none. */
  lemma EntryWritten(t: Memory, root: nat, v: nat, ppn: nat, flags: nat)
    requires Inv(t) && Place(root, 0, v / 512) in t.at && !IsValid(Pte(t, root, v))
    requires IsValid(flags) && IsLeaf(flags) && flags < 1024 && ppn < |t.pages|
    ensures Mapped(t, SetLeaf(t, root, v, ppn * 1024 + flags), root, v, 1, ppn, flags)
  {
    Encoded(ppn, flags);
    NoFrame(t, root, v);
    SetLeafOk(t, root, v, ppn * 1024 + flags);
    assert t.role[t.at[Place(root, 0, v / 512)]] == Table(Place(root, 0, v / 512));
  }

  lemma WalkedThenMapped(s: Memory, t: Memory, u: Memory, root: nat, v0: nat, n: nat, ppn: nat, flags: nat)
    requires Walked(s, t, root) == Mapped(t, u, root, v0, n, ppn, flags) == true
    ensures Mapped(s, u, root, v0, n, ppn, flags)
  {
    SameDataTwice(s, t, u);
    MoreTablesTwice(s, t, u, root);
    forall r: nat, v: nat
      ensures Pte(u, r, v) == if r == root && v0 <= v < v0 + n then (ppn + (v - v0)) * 1024 + flags else Pte(s, r, v)
    {
      assert Pte(t, r, v) == Pte(s, r, v);
    }
  }

  lemma MappedMore(s: Memory, t: Memory, u: Memory, root: nat, v0: nat, n: nat, v: nat, ppn: nat, p: nat, flags: nat)
    requires Mapped(s, t, root, v0, n, ppn, flags) == Mapped(t, u, root, v, 1, p, flags) == true
    requires v == v0 + n && p == ppn + n
    ensures Mapped(s, u, root, v0, n + 1, ppn, flags)
  {
    SameDataTwice(s, t, u);
    MoreTablesTwice(s, t, u, root);
    forall r: nat, v': nat
      ensures Pte(u, r, v') == if r == root &&
                v0 <= v' < v0 + (n + 1) then (ppn + (v' - v0)) * 1024 + flags else Pte(s, r, v')
    {
      assert Pte(t, r, v') == if r == root &&
            v0 <= v' < v0 + n then (ppn + (v' - v0)) * 1024 + flags else Pte(s, r, v');
    }
  }

  lemma MappedThenWalked(s: Memory, t: Memory, u: Memory, root: nat, v0: nat, n: nat, ppn: nat, flags: nat)
    requires Mapped(s, t, root, v0, n, ppn, flags) == Walked(t, u, root) == true
    ensures Mapped(s, u, root, v0, n, ppn, flags)
  {
    SameDataTwice(s, t, u);
    MoreTablesTwice(s, t, u, root);
    forall r: nat, v': nat
      ensures Pte(u, r, v') == if r == root &&
                v0 <= v' < v0 + n then (ppn + (v' - v0)) * 1024 + flags else Pte(s, r, v')
    {
      assert Pte(t, r, v') == Pte(u, r, v');
    }
  }

  // ---------- unmapping ----------

  /** Page v is mapped, and its data page belongs to it if and only if `owned`. */
  ghost predicate Present(s: Memory, root: nat, v: nat, owned: bool)
    requires TreesOk(s)
  {
    && IsValid(Pte(s, root, v))
    && (owned ==> Pte(s, root, v) / 1024 < |s.role| && s.role[Pte(s, root, v) / 1024] == Frame(Slot(root, v)))
    && (!owned ==> forall f: nat :: f < |s.role| ==> s.role[f] != Frame(Slot(root, v)))
  }

  ghost predicate Within(x: Role, root: nat, v0: nat, n: nat) {
    x.Frame? && x.slot.root == root && v0 <= x.slot.vpn < v0 + n
  }

  /** n pages from v0 on have been unmapped, and their data pages freed. */
  ghost predicate Unmapped(s: Memory, t: Memory, root: nat, v0: nat, n: nat, owned: bool) {
    && Inv(s) && Inv(t) && t.at == s.at && |t.pages| == |s.pages|
    && (forall r: nat, v: nat {:trigger Pte(t, r, v)} ::
          Pte(t, r, v) == if r == root && v0 <= v < v0 + n then 0 else Pte(s, r, v))
    && (forall m: nat {:trigger t.role[m]} :: m < |s.role| ==>
          t.role[m] == if owned && Within(s.role[m], root, v0, n) then Free else s.role[m])
    && (forall m: nat {:trigger t.pages[m]} :: m < |s.role| && IsData(t.role[m]) ==> t.pages[m] == s.pages[m])
  }

  lemma UnmappedNone(s: Memory, root: nat, v0: nat, owned: bool)
    requires Inv(s)
    ensures Unmapped(s, s, root, v0, 0, owned)
  {
  }

  /** An entry on which no data page hangs is cleared. */
  lemma EntryCleared(s: Memory, root: nat, v: nat)
    requires Inv(s) && Present(s, root, v, false) && Place(root, 0, v / 512) in s.at
    ensures Unmapped(s, SetLeaf(s, root, v, 0), root, v, 1, false)
  {
    SetLeafOk(s, root, v, 0);
    assert s.role[s.at[Place(root, 0, v / 512)]] == Table(Place(root, 0, v / 512));
  }

  /** The data page of page v goes back to the free list. */
  lemma FrameFreed(s: Memory, root: nat, v: nat, x: Page)
    requires Inv(s) && Present(s, root, v, true)
    ensures var f := Pte(s, root, v) / 1024;
            var t := Put(s.(role := s.role[f := Loose]), f, x);
            && Inv(t) && SameMaps(s, t) && t.at == s.at && t.role == s.role[f := Free] && t.pages == s.pages[f := x]
            && Present(t, root, v, false)
  {
    var f := Pte(s, root, v) / 1024;
    var l := s.(role := s.role[f := Loose]);
    RoleOk(s, f, Loose);
    PutOk(l, f, x, {});
    var t := Put(l, f, x);
    assert forall r: nat, v': nat :: Pte(t, r, v') == Pte(l, r, v') && Pte(l, r, v') == Pte(s, r, v');
    NoOther(s, root, v, true);
  }

  lemma FreedThenCleared(s: Memory, t: Memory, u: Memory, root: nat, v: nat, f: nat, x: Page)
    requires Inv(s) && Present(s, root, v, true) && f == Pte(s, root, v) / 1024
    requires Unmapped(t, u, root, v, 1, false) == true && SameMaps(s, t) && t.at == s.at
    requires t.role == s.role[f := Free] && t.pages == s.pages[f := x]
    ensures Unmapped(s, u, root, v, 1, true)
  {
    NoOther(s, root, v, true);
    forall r: nat, v': nat
      ensures Pte(u, r, v') == if r == root && v <= v' < v + 1 then 0 else Pte(s, r, v')
    {
      assert Pte(t, r, v') == Pte(s, r, v');
    }
  }

  lemma NoOther(s: Memory, root: nat, v: nat, owned: bool)
    requires Inv(s) && Present(s, root, v, owned)
    ensures forall f: nat :: f < |s.role| && s.role[f] == Frame(Slot(root, v)) ==> owned && f == Pte(s, root, v) / 1024
  {
  }

  lemma UnmappedMore(s: Memory, t: Memory, u: Memory, root: nat, v0: nat, n: nat, v: nat, owned: bool)
    requires Unmapped(s, t, root, v0, n, owned) == Unmapped(t, u, root, v, 1, owned) == true && v == v0 + n
    ensures Unmapped(s, u, root, v0, n + 1, owned)
  {
    forall r: nat, v': nat
      ensures Pte(u, r, v') == if r == root && v0 <= v' < v0 + (n + 1) then 0 else Pte(s, r, v')
    {
      assert Pte(t, r, v') == if r == root && v0 <= v' < v0 + n then 0 else Pte(s, r, v');
    }
    forall m: nat | m < |s.role|
      ensures u.role[m] == if owned && Within(s.role[m], root, v0, n + 1) then Free else s.role[m]
      ensures IsData(u.role[m]) ==> u.pages[m] == s.pages[m]
    {
      assert t.role[m] == if owned && Within(s.role[m], root, v0, n) then Free else s.role[m];
    }
  }

  /** What has not been unmapped yet is still present. */
  lemma StillPresent(s: Memory, t: Memory, root: nat, v0: nat, n: nat, v: nat, owned: bool)
    requires Unmapped(s, t, root, v0, n, owned) == true && v >= v0 + n && Present(s, root, v, owned)
    ensures Present(t, root, v, owned)
  {
    assert Pte(t, root, v) == Pte(s, root, v);
  }

  // ---------- gaining and losing data pages ----------

  /** What a page of an address space should have: the flags of its entry and its contents. */
  datatype Want = Want(flags: nat, page: Page)

  function WantAt(wants: seq<Want>, v0: nat, v: nat): (x: Want)
    requires v0 <= v < v0 + |wants|
  {
    wants[v - v0]
  }

  ghost predicate Has(t: Memory, root: nat, v: nat, want: Want)
    requires TreesOk(t)
  {
    var w := Pte(t, root, v);
    && IsValid(w) && w % 1024 == want.flags && w / 1024 < |t.role| == |t.pages|
    && t.role[w / 1024] == Frame(Slot(root, v)) && t.pages[w / 1024] == want.page
  }

  /** Only the pages v0 .. v0 + n of the address space of root, and tables and data pages for
      them, are new; nothing else has changed, and no page got lost. */
  ghost predicate Extended(s: Memory, t: Memory, root: nat, v0: nat, n: nat) {
    && Inv(s) && Inv(t) && MoreTables(s, t, root) && |t.role| == |s.role|
    && (forall r: nat, v: nat {:trigger Pte(t, r, v)} :: !(r == root && v0 <= v < v0 + n) ==>
          Pte(t, r, v) == Pte(s, r, v))
    && (forall m: nat {:trigger t.role[m]} {:trigger t.pages[m]} :: m < |s.role| ==>
          && (IsData(s.role[m]) ==> t.role[m] == s.role[m] && t.pages[m] == s.pages[m])
          && (IsData(t.role[m]) && !IsData(s.role[m]) ==> Within(t.role[m], root, v0, n)))
  }

  /** The new pages are as wanted, with data pages of their own. */
  ghost predicate Gained(s: Memory, t: Memory, root: nat, v0: nat, wants: seq<Want>) {
    && Extended(s, t, root, v0, |wants|)
    && (forall v: nat {:trigger WantAt(wants, v0, v)} :: v0 <= v < v0 + |wants| ==>
          Has(t, root, v, WantAt(wants, v0, v)))
  }

  lemma GainedNone(s: Memory, root: nat, v0: nat)
    requires Inv(s)
    ensures Gained(s, s, root, v0, [])
  {
  }

  lemma ExtendedTwice(s: Memory, t: Memory, u: Memory, root: nat, v0: nat, n: nat, v: nat, k: nat)
    requires Extended(s, t, root, v0, n) == Extended(t, u, root, v, k) == true && v == v0 + n
    ensures Extended(s, u, root, v0, n + k)
  {
    MoreTablesTwice(s, t, u, root);
    forall r: nat, v': nat | !(r == root && v0 <= v' < v0 + (n + k))
      ensures Pte(u, r, v') == Pte(s, r, v')
    {
      assert Pte(t, r, v') == Pte(s, r, v');
    }
    forall m: nat | m < |s.role|
      ensures IsData(s.role[m]) ==> u.role[m] == s.role[m] && u.pages[m] == s.pages[m]
      ensures IsData(u.role[m]) && !IsData(s.role[m]) ==> Within(u.role[m], root, v0, n + k)
    {
      assert IsData(s.role[m]) ==> t.role[m] == s.role[m] && t.pages[m] == s.pages[m];
      assert IsData(t.role[m]) && !IsData(s.role[m]) ==> Within(t.role[m], root, v0, n);
    }
  }

  lemma WalkedExtends(s: Memory, t: Memory, root: nat, v: nat)
    requires Walked(s, t, root) == true
    ensures Extended(s, t, root, v, 0)
  {
  }

  /** What a page has it keeps when other pages are added. */
  lemma HasStill(t: Memory, u: Memory, root: nat, v0: nat, n: nat, v: nat, x: Want)
    requires Extended(t, u, root, v0, n) == true && Has(t, root, v, x) && !(v0 <= v < v0 + n)
    ensures Has(u, root, v, x)
  {
    assert Pte(u, root, v) == Pte(t, root, v);
    assert u.role[Pte(t, root, v) / 1024] == t.role[Pte(t, root, v) / 1024];
  }

  lemma GainedMore(s: Memory, t: Memory, u: Memory, root: nat, v0: nat, wants: seq<Want>, n: nat, v: nat, x: Want)
    requires Gained(s, t, root, v0, wants) == Extended(t, u, root, v, 1) == true
    requires Has(u, root, v, x) == true && n == |wants| && v == v0 + n
    ensures Gained(s, u, root, v0, wants + [x])
  {
    var both := wants + [x];
    ExtendedTwice(s, t, u, root, v0, n, v, 1);
    forall v': nat | v0 <= v' < v0 + |both|
      ensures Has(u, root, v', WantAt(both, v0, v'))
    {
      if v' != v {
        assert WantAt(both, v0, v') == WantAt(wants, v0, v');
        HasStill(t, u, root, v, 1, v', WantAt(wants, v0, v'));
      }
    }
  }

  lemma GainedThenWalked(s: Memory, t: Memory, u: Memory, root: nat, v0: nat, wants: seq<Want>, n: nat)
    requires Gained(s, t, root, v0, wants) == Walked(t, u, root) == true && n == |wants|
    ensures Gained(s, u, root, v0, wants)
  {
    var v := v0 + n;
    WalkedExtends(t, u, root, v);
    ExtendedTwice(s, t, u, root, v0, n, v, 0);
    forall v': nat | v0 <= v' < v0 + |wants|
      ensures Has(u, root, v', WantAt(wants, v0, v'))
    {
      HasStill(t, u, root, v, 0, v', WantAt(wants, v0, v'));
    }
  }

  /** None of n pages from v0 on is mapped. */
  ghost predicate Unused(s: Memory, root: nat, v0: nat, n: int)
    requires TreesOk(s)
  {
    forall v: nat {:trigger Pte(s, root, v)} :: v0 <= v < v0 + n ==> Pte(s, root, v) == 0
  }

  lemma UnusedLess(s: Memory, root: nat, v0: nat, n: int, k: int)
    requires TreesOk(s) && Unused(s, root, v0, n) && k <= n
    ensures Unused(s, root, v0, k)
  {
  }

  /** The page after those gained is as it was. */
  lemma NextPage(s: Memory, t: Memory, root: nat, v0: nat, wants: seq<Want>, v: nat)
    requires Gained(s, t, root, v0, wants) == true && v >= v0 + |wants| && Pte(s, root, v) == 0
    ensures Inv(t) && !IsValid(Pte(t, root, v))
    ensures forall r: nat {:trigger Place(r, 2, 0)} :: Place(r, 2, 0) in s.at ==> Place(r, 2, 0) in t.at
  {
    assert Pte(t, root, v) == Pte(s, root, v);
  }

  /** Unmapping what was gained takes everything back, apart from tables. */
  lemma RolledBack(s: Memory, t: Memory, u: Memory, root: nat, v0: nat, wants: seq<Want>, n: nat)
    requires Gained(s, t, root, v0, wants) == Unmapped(t, u, root, v0, n, true) == true && n == |wants|
    requires Unused(s, root, v0, n) == true
    ensures Walked(s, u, root)
  {
    forall r: nat, v: nat
      ensures Pte(u, r, v) == Pte(s, r, v)
    {
      assert Pte(u, r, v) == if r == root && v0 <= v < v0 + n then 0 else Pte(t, r, v);
    }
    forall m: nat | m < |s.role| && (IsData(s.role[m]) || IsData(u.role[m]))
      ensures u.role[m] == s.role[m] && u.pages[m] == s.pages[m]
    {
      assert u.role[m] == if Within(t.role[m], root, v0, n) then Free else t.role[m];
      if IsData(s.role[m]) {
        NotWithin(s, root, v0, n, m);
      }
    }
  }

  lemma NotWithin(s: Memory, root: nat, v0: nat, n: nat, m: nat)
    requires Inv(s) && m < |s.role| && Unused(s, root, v0, n)
    ensures !Within(s.role[m], root, v0, n)
  {
    if Within(s.role[m], root, v0, n) {
      OneFrame(s, root, s.role[m].slot.vpn, m);
    }
  }

  /** The pages gained are present, so that they can be unmapped again. */
  lemma GainedPresent(s: Memory, t: Memory, root: nat, v0: nat, wants: seq<Want>, v: nat)
    requires Gained(s, t, root, v0, wants) == true && v0 <= v < v0 + |wants|
    ensures Present(t, root, v, true)
  {
    assert Has(t, root, v, WantAt(wants, v0, v));
  }

  // ---------- one new page ----------

  /** A page f was taken and filled with x, mapped, and becomes the data page of page v. */
  lemma GainedOne(s: Memory, t: Memory, u: Memory, root: nat, v: nat, f: nat, flags: nat, x: Page)
    requires Inv(s) && |s.free| > 0 && f == s.free[0] && t == Take(s, x) && Inv(t) && SameMaps(s, t)
    requires Mapped(t, u, root, v, 1, f, flags) == true && flags < 1024 && IsValid(flags)
    ensures f < |u.role| && u.role[f] == Loose
    ensures var w := u.(role := u.role[f := Frame(Slot(root, v))]);
            Extended(s, w, root, v, 1) && Has(w, root, v, Want(flags, x))
  {
    Encoded(f, flags);
    assert t.role[f] == Loose && u.role[f] == Loose && Pte(u, root, v) == f * 1024 + flags;
    var w := u.(role := u.role[f := Frame(Slot(root, v))]);
    RoleOk(u, f, Frame(Slot(root, v)));
    assert Pte(w, root, v) == Pte(u, root, v) && u.pages[f] == x;
    forall r: nat, v': nat | !(r == root && v <= v' < v + 1)
      ensures Pte(w, r, v') == Pte(s, r, v')
    {
      assert Pte(w, r, v') == Pte(u, r, v') && Pte(u, r, v') == Pte(t, r, v') && Pte(t, r, v') == Pte(s, r, v');
    }
    assert MoreTables(s, w, root);
    AdoptedRoles(s, t, u, w, f, root, v);
  }

  lemma AdoptedRoles(s: Memory, t: Memory, u: Memory, w: Memory, f: nat, root: nat, v: nat)
    requires SameData(t, u) && |s.role| == |t.role| && |s.pages| == |t.pages| && f < |s.role| && s.role[f] == Free
    requires t.role == s.role[f := Loose] && (forall m: nat :: m < |s.pages| && m != f ==> t.pages[m] == s.pages[m])
    requires w.role == u.role[f := Frame(Slot(root, v))] && w.pages == u.pages
    ensures forall m: nat {:trigger w.role[m]} {:trigger w.pages[m]} :: m < |s.role| ==>
              && (IsData(s.role[m]) ==> w.role[m] == s.role[m] && w.pages[m] == s.pages[m])
              && (IsData(w.role[m]) && !IsData(s.role[m]) ==> Within(w.role[m], root, v, 1))
  {
    assert forall m: nat :: m < |s.role| && m != f ==> t.role[m] == s.role[m];
  }

  /** A page was taken, only tables could be added, and the page was put back. */
  lemma TakenAndPut(s: Memory, t: Memory, u: Memory, root: nat, f: nat, x: Page, y: Page)
    requires Inv(s) && |s.free| > 0 && f == s.free[0] && t == Take(s, x) && Inv(t) && SameMaps(s, t)
    requires Walked(t, u, root) == true
    ensures f < |u.role| && u.role[f] == Loose && Walked(s, Put(u, f, y), root)
  {
    assert t.role[f] == Loose && u.role[f] == Loose;
    var w := Put(u, f, y);
    PutOk(u, f, y, {});
    forall r: nat, v: nat
      ensures Pte(w, r, v) == Pte(s, r, v)
    {
      assert Pte(u, r, v) == Pte(t, r, v) && Pte(t, r, v) == Pte(s, r, v);
    }
    assert s.role[f] == Free;
    forall m: nat | m < |s.role| && (IsData(s.role[m]) || IsData(w.role[m]))
      ensures w.role[m] == s.role[m] && w.pages[m] == s.pages[m]
    {
      assert m != f ==> t.role[m] == s.role[m] && t.pages[m] == s.pages[m];
    }
  }

  // ---------- copies ----------

  /** What the copy of page v of the address space of `from` should have. */
  ghost function CopyOf(s: Memory, from: nat, v: nat): (x: Want)
    requires TreesOk(s)
  {
    var w := Pte(s, from, v);
    Want(w % 1024, if w / 1024 < |s.pages| then s.pages[w / 1024] else Filled(0))
  }

  ghost function Copies(s: Memory, from: nat, n: nat): (r: seq<Want>)
    requires TreesOk(s)
    ensures |r| == n
  {
    seq(n, v requires v >= 0 => CopyOf(s, from, v))
  }

  /** The first n pages are mapped to pages with data. */
  ghost predicate Copyable(s: Memory, from: nat, n: nat)
    requires TreesOk(s)
  {
    forall v: nat {:trigger Pte(s, from, v)} :: v < n ==>
      IsValid(Pte(s, from, v)) && Pte(s, from, v) / 1024 < |s.role| && IsData(s.role[Pte(s, from, v) / 1024])
  }

  lemma FlagsOnly(w: nat)
    ensures w % 1024 < 1024 && (IsValid(w % 1024) <==> IsValid(w)) && (IsLeaf(w % 1024) <==> IsLeaf(w))
  {
    Encoded(w / 1024, w % 1024);
  }

  /** The parent's pages are untouched while the child's are made. */
  lemma NextCopy(s: Memory, t: Memory, from: nat, to: nat, n: nat, end: nat)
    requires Inv(s) && Copyable(s, from, end) && n < end && from != to
    requires Gained(s, t, to, 0, Copies(s, from, n)) == true
    ensures Place(from, 0, n / 512) in t.at
    ensures var w := t.pages[t.at[Place(from, 0, n / 512)]][n % 512];
            && IsValid(w % 1024) && IsLeaf(w % 1024) && w % 1024 < 1024 && w / 1024 < |t.pages|
            && CopyOf(s, from, n) == Want(w % 1024, t.pages[w / 1024])
    ensures Copies(s, from, n) + [CopyOf(s, from, n)] == Copies(s, from, n + 1)
  {
    var w := Pte(s, from, n);
    assert Pte(t, from, n) == w && IsValid(w);
    FlagsOnly(w);
    assert t.role[w / 1024] == s.role[w / 1024];
  }

  // ---------- new trees and dead ones ----------

  /** A zeroed loose page becomes the root of a new tree. */
  ghost function Plant(s: Memory, n: nat): (t: Memory)
    requires n < |s.role|
  {
    s.(at := s.at[Place(n, 2, 0) := n], role := s.role[n := Table(Place(n, 2, 0))])
  }

  lemma PlantOk(s: Memory, n: nat)
    requires Inv(s) && n < |s.pages| && s.role[n] == Loose && s.pages[n] == Filled(0)
    ensures Place(n, 2, 0) !in s.at && Inv(Plant(s, n)) && SameMaps(s, Plant(s, n))
    ensures forall v: nat {:trigger Pte(Plant(s, n), n, v)} :: Pte(Plant(s, n), n, v) == 0
  {
    var t, q := Plant(s, n), Place(n, 2, 0);
    assert forall p :: p in s.at ==> s.role[s.at[p]] == Table(p);
    forall p | p in s.at
      ensures p.root != n
    {
      RootThere(s, p);
    }
    assert TreesOk(t);
  }

  lemma RootThere(s: Memory, p: Place)
    requires TreesOk(s) && p in s.at
    ensures Place(p.root, 2, 0) in s.at
  {
    if p.level == 1 {
      assert Parent(p) in s.at;
    } else if p.level == 0 {
      assert Parent(p) in s.at && Parent(Parent(p)) in s.at;
    }
  }
}
