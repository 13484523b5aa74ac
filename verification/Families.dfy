/** Many address spaces at once: what one of them does leaves the others alone, and when all have ended
    memory is what it was. */
module Families {
  import opened Sv39
  import opened Spaces
  import opened Lives

  ghost predicate OfAny(x: Role, rs: set<nat>) {
    (x.Table? && x.place.root in rs) || (x.Frame? && x.slot.root in rs)
  }

  ghost predicate SameRoles(s: Memory, u: Memory, rs: set<nat>) {
    && |u.role| == |s.role| == |s.pages| == |u.pages|
    && (forall m: nat {:trigger u.role[m]} :: m < |s.role| ==>
          u.role[m] == s.role[m] || (s.role[m] == Free && OfAny(u.role[m], rs)))
    && (forall m: nat {:trigger u.pages[m]} :: m < |s.role| && IsData(s.role[m]) ==> u.pages[m] == s.pages[m])
  }

  /** The same tables, but for those of rs. */
  ghost predicate SameAt(a: map<Place, nat>, b: map<Place, nat>, rs: set<nat>) {
    && (forall p {:trigger p in b} {:trigger p in a} :: p in a <==> p in b && p.root !in rs)
    && (forall p {:trigger b[p]} :: p in a ==> b[p] == a[p])
  }

  /** The same translations, but for those of rs. */
  ghost predicate SamePtes(s: Memory, u: Memory, rs: set<nat>) {
    && TreesOk(s) && TreesOk(u)
    && forall r: nat, v: nat {:trigger Pte(u, r, v)} :: r !in rs ==> Pte(u, r, v) == Pte(s, r, v)
  }

  /** Since s, only the address spaces of rs have come into being, out of free pages. */
  ghost predicate Others(s: Memory, u: Memory, rs: set<nat>) {
    Inv(s) && Inv(u) && SameRoles(s, u, rs) == true && SameAt(s.at, u.at, rs) == true && SamePtes(s, u, rs) == true
  }

  /** Only the address space of root has changed, in exchange with free pages. */
  ghost predicate OnlyRoot(u: Memory, w: Memory, root: nat) {
    && Inv(u) && Inv(w) && |w.role| == |u.role|
    && (forall m: nat {:trigger w.role[m]} :: m < |u.role| ==>
          w.role[m] == u.role[m] ||
                ((u.role[m] == Free || Of(u.role[m], root)) && (w.role[m] == Free || Of(w.role[m], root))))
    && (forall m: nat {:trigger w.pages[m]} :: m < |u.role| && IsData(u.role[m]) && !Of(u.role[m], root) ==>
          w.pages[m] == u.pages[m])
    && OtherAt(u.at, w.at, root) == true && SamePtes(u, w, {root}) == true
  }

  ghost predicate OtherAt(a: map<Place, nat>, b: map<Place, nat>, root: nat) {
    && (forall p: Place {:trigger p in b} {:trigger p in a} :: p.root != root ==> (p in b <==> p in a))
    && (forall p: Place {:trigger b[p]} :: p in a && p.root != root ==> b[p] == a[p])
  }

  // ---------- what the operations do ----------

  lemma BornOnly(u: Memory, w: Memory, root: nat)
    requires Life(u, w, root) == true
    ensures OnlyRoot(u, w, root) == true
  {
  }

  lemma EndedOnly(u: Memory, w: Memory, root: nat)
    requires Dismantled(u, w, root) == true
    ensures OnlyRoot(u, w, root) == true
  {
  }

  lemma GainedOnly(u: Memory, w: Memory, root: nat, v0: nat, wants: seq<Want>)
    requires Gained(u, w, root, v0, wants) == true
    ensures OnlyRoot(u, w, root) == true
  {
    forall m: nat | m < |u.role|
      ensures w.role[m] == u.role[m] ||
                ((u.role[m] == Free || Of(u.role[m], root)) && (w.role[m] == Free || Of(w.role[m], root)))
      ensures IsData(u.role[m]) ==> w.pages[m] == u.pages[m]
    {
      NewTables(u, w, root, m);
      assert IsData(u.role[m]) ==> w.role[m] == u.role[m] && w.pages[m] == u.pages[m];
    }
    MoreOnly(u, w, root);
    GainedPtes(u, w, root, v0, wants);
  }

  lemma GainedPtes(u: Memory, w: Memory, root: nat, v0: nat, wants: seq<Want>)
    requires Gained(u, w, root, v0, wants) == true
    ensures SamePtes(u, w, {root}) == true
  {
  }

  lemma MoreOnly(u: Memory, w: Memory, root: nat)
    requires MoreTables(u, w, root)
    ensures OtherAt(u.at, w.at, root) == true
  {
  }

  lemma WalkedOnly(u: Memory, w: Memory, root: nat)
    requires Walked(u, w, root) == true
    ensures OnlyRoot(u, w, root) == true
  {
    forall m: nat | m < |u.role|
      ensures w.role[m] == u.role[m] ||
                ((u.role[m] == Free || Of(u.role[m], root)) && (w.role[m] == Free || Of(w.role[m], root)))
    {
      NewTables(u, w, root, m);
    }
    MoreOnly(u, w, root);
    assert SamePtes(u, w, {root});
  }

  lemma UnmappedOnly(u: Memory, w: Memory, root: nat, v0: nat, n: nat)
    requires Unmapped(u, w, root, v0, n, true) == true
    ensures OnlyRoot(u, w, root) == true
  {
  }

  // ---------- what that means for the others ----------

  /** A page that belongs to an address space of rs was free at first. */
  lemma WasFree(s: Memory, u: Memory, rs: set<nat>, m: nat)
    requires Others(s, u, rs) == true && m < |s.role| && OfAny(u.role[m], rs)
    ensures s.role[m] == Free
  {
    if s.role[m] == u.role[m] {
      var p := TreeOf(s, m);
    }
  }

  /** A table or a data page is in a tree that exists. */
  lemma TreeOf(s: Memory, m: nat) returns (p: Place)
    requires Inv(s) && m < |s.role| && (s.role[m].Table? || s.role[m].Frame?)
    ensures p in s.at && Of(s.role[m], p.root)
  {
    if s.role[m].Frame? {
      FrameRoot(s, m);
      p := Place(s.role[m].slot.root, 0, s.role[m].slot.vpn / 512);
    } else {
      p := s.role[m].place;
    }
  }

  /** root is the root of no address space of s. */
  ghost predicate NewRoot(s: Memory, root: nat) {
    forall p {:trigger p in s.at} :: p in s.at ==> p.root != root
  }

  lemma OthersStep(s: Memory, u: Memory, w: Memory, rs: set<nat>, root: nat)
    requires Others(s, u, rs) == true && OnlyRoot(u, w, root) == true && (root in rs || NewRoot(s, root) == true)
    ensures Others(s, w, rs + {root}) == true
  {
    RolesStep(s, u, w, rs, root);
    AtStep(s.at, u.at, w.at, rs, root);
    PtesStep(s, u, w, rs, root);
  }

  lemma RolesStep(s: Memory, u: Memory, w: Memory, rs: set<nat>, root: nat)
    requires Others(s, u, rs) == true && OnlyRoot(u, w, root) && (root in rs || NewRoot(s, root) == true)
    ensures SameRoles(s, w, rs + {root}) == true
  {
    forall m: nat | m < |s.role|
      ensures w.role[m] == s.role[m] || (s.role[m] == Free && OfAny(w.role[m], rs + {root}))
      ensures IsData(s.role[m]) ==> w.pages[m] == s.pages[m]
    {
      RoleStep(s, u, w, rs, root, m);
    }
  }

  lemma AtStep(a: map<Place, nat>, b: map<Place, nat>, c: map<Place, nat>, rs: set<nat>, root: nat)
    requires SameAt(a, b, rs) && OtherAt(b, c, root) &&
              (root in rs || forall p {:trigger p in a} :: p in a ==> p.root != root)
    ensures SameAt(a, c, rs + {root}) == true
  {
  }

  lemma PtesStep(s: Memory, u: Memory, w: Memory, rs: set<nat>, root: nat)
    requires SamePtes(s, u, rs) == true && SamePtes(u, w, {root}) == true
    ensures SamePtes(s, w, rs + {root}) == true
  {
    forall r: nat, v: nat | r !in rs + {root}
      ensures Pte(w, r, v) == Pte(s, r, v)
    {
      assert Pte(w, r, v) == Pte(u, r, v) && Pte(u, r, v) == Pte(s, r, v);
    }
  }

  lemma RoleStep(s: Memory, u: Memory, w: Memory, rs: set<nat>, root: nat, m: nat)
    requires Others(s, u, rs) == true && OnlyRoot(u, w, root) && m < |s.role|
    requires root in rs || NewRoot(s, root)
    ensures w.role[m] == s.role[m] || (s.role[m] == Free && OfAny(w.role[m], rs + {root}))
    ensures IsData(s.role[m]) ==> w.pages[m] == s.pages[m]
  {
    assert u.role[m] == s.role[m] || (s.role[m] == Free && OfAny(u.role[m], rs));
    if Of(s.role[m], root) {
      var p := TreeOf(s, m);
    }
  }

  /** The end of one of them. */
  lemma OthersEnd(s: Memory, u: Memory, w: Memory, rs: set<nat>, root: nat)
    requires Others(s, u, rs) == true && Dismantled(u, w, root) == true && root in rs
    ensures Others(s, w, rs - {root}) == true
  {
    RolesEnd(s, u, w, rs, root);
    AtEnd(s.at, u.at, w.at, rs, root);
    PtesEnd(s, u, w, rs, root);
  }

  lemma RolesEnd(s: Memory, u: Memory, w: Memory, rs: set<nat>, root: nat)
    requires Others(s, u, rs) == true && Dismantled(u, w, root) && root in rs
    ensures SameRoles(s, w, rs - {root}) == true
  {
    assert SameRoles(s, u, rs);
    forall m: nat | m < |s.role|
      ensures w.role[m] == s.role[m] || (s.role[m] == Free && OfAny(w.role[m], rs - {root}))
      ensures IsData(s.role[m]) ==> w.pages[m] == s.pages[m]
    {
      assert u.role[m] == s.role[m] || (s.role[m] == Free && OfAny(u.role[m], rs));
      if Of(u.role[m], root) {
        WasFree(s, u, rs, m);
      }
    }
  }

  lemma AtEnd(a: map<Place, nat>, b: map<Place, nat>, c: map<Place, nat>, rs: set<nat>, root: nat)
    requires SameAt(a, b, rs) && OtherAt(b, c, root) && root in rs && forall p {:trigger p in c} :: p in c ==>
              p.root != root
    ensures SameAt(a, c, rs - {root}) == true
  {
  }

  lemma PtesEnd(s: Memory, u: Memory, w: Memory, rs: set<nat>, root: nat)
    requires SamePtes(s, u, rs) == true && SamePtes(u, w, {root}) == true
    requires forall p {:trigger p in s.at} :: p in s.at ==> p.root != root
    requires forall p {:trigger p in w.at} :: p in w.at ==> p.root != root
    ensures SamePtes(s, w, rs - {root}) == true
  {
    forall r: nat, v: nat | r !in rs - {root}
      ensures Pte(w, r, v) == Pte(s, r, v)
    {
      if r != root {
        assert Pte(w, r, v) == Pte(u, r, v) && Pte(u, r, v) == Pte(s, r, v);
      }
    }
  }

  /** When all have ended nothing is lost and nothing is left over. */
  lemma AllEnded(s: Memory, w: Memory)
    requires Others(s, w, {}) == true
    ensures Restored(s, w)
  {
    assert w.role == s.role;
    assert w.at == s.at;
  }

  // ---------- processes ----------

  /** What other processes have mapped stays. */
  lemma ProcessStays(u: Memory, w: Memory, root: nat, r: nat, n: nat)
    requires OnlyRoot(u, w, root) && r != root && Process(u, r, n) == true
    ensures Process(w, r, n) == true
  {
    forall v: nat
      ensures Pte(w, r, v) == Pte(u, r, v)
      ensures forall b :: Present(u, r, v, b) ==> Present(w, r, v, b)
    {
      assert Pte(w, r, v) == Pte(u, r, v);
      forall b | Present(u, r, v, b)
        ensures Present(w, r, v, b)
      {
        PresentStays(u, w, root, r, v, b);
      }
    }
    assert Process(u, r, n);
  }

  lemma PresentStays(u: Memory, w: Memory, root: nat, r: nat, v: nat, owned: bool)
    requires OnlyRoot(u, w, root) && r != root && Present(u, r, v, owned)
    ensures Present(w, r, v, owned)
  {
    assert Pte(w, r, v) == Pte(u, r, v);
    if !owned {
      forall f: nat | f < |w.role|
        ensures w.role[f] != Frame(Slot(r, v))
      {
        assert u.role[f] != Frame(Slot(r, v));
      }
    }
  }

  /** A process with n pages that gains the next ones is a process with those too. */
  lemma ProcessGained(s: Memory, t: Memory, root: nat, n: nat, wants: seq<Want>)
    requires Inv(s) && Process(s, root, n) && Gained(s, t, root, n, wants) == true && n + |wants| <= TRAPFRAME
    ensures Process(t, root, n + |wants|) == true
  {
    forall v: nat
      ensures if v < n + |wants| then Present(t, root, v, true)
              else v != TRAMPOLINE && v != TRAPFRAME ==> Pte(t, root, v) == 0
    {
      if n <= v < n + |wants| {
        GainedPresent(s, t, root, n, wants, v);
      } else {
        assert Pte(t, root, v) == Pte(s, root, v);
        if v < n {
          assert Present(s, root, v, true);
        }
      }
    }
    BorrowedKept(s, t, root, n, wants, TRAMPOLINE);
    BorrowedKept(s, t, root, n, wants, TRAPFRAME);
  }

  lemma BorrowedKept(s: Memory, t: Memory, root: nat, n: nat, wants: seq<Want>, v: nat)
    requires Gained(s, t, root, n, wants) == true && Present(s, root, v, false) && v >= n + |wants|
    ensures Present(t, root, v, false)
  {
    assert Pte(t, root, v) == Pte(s, root, v);
    forall f: nat | f < |t.role|
      ensures t.role[f] != Frame(Slot(root, v))
    {
      assert s.role[f] != Frame(Slot(root, v));
    }
  }

  /** Shrinking takes the last pages away. */
  lemma ProcessUnmapped(s: Memory, t: Memory, root: nat, n: nat, v0: nat, k: nat)
    requires Inv(s) && Process(s, root, n) && Unmapped(s, t, root, v0, k, true) == true && v0 + k == n
    ensures Process(t, root, v0) == true
  {
    forall v: nat
      ensures if v < v0 then Present(t, root, v, true)
              else v != TRAMPOLINE && v != TRAPFRAME ==> Pte(t, root, v) == 0
    {
      assert Pte(t, root, v) == if v0 <= v < v0 + k then 0 else Pte(s, root, v);
      if v < v0 {
        assert Present(s, root, v, true);
      }
    }
    StillThere(s, t, root, v0, k, TRAMPOLINE);
    StillThere(s, t, root, v0, k, TRAPFRAME);
  }

  lemma StillThere(s: Memory, t: Memory, root: nat, v0: nat, k: nat, v: nat)
    requires Unmapped(s, t, root, v0, k, true) == true && Present(s, root, v, false) && v >= v0 + k
    ensures Present(t, root, v, false)
  {
    assert Pte(t, root, v) == Pte(s, root, v);
  }

  /** Tables that were added for nothing do not matter. */
  lemma ProcessWalked(s: Memory, t: Memory, root: nat, n: nat)
    requires Inv(s) && Process(s, root, n) && Walked(s, t, root) == true
    ensures Process(t, root, n) == true
  {
    forall v: nat
      ensures Pte(t, root, v) == Pte(s, root, v)
      ensures forall b :: Present(s, root, v, b) ==> Present(t, root, v, b)
    {
      assert Pte(t, root, v) == Pte(s, root, v);
    }
  }

  /** The pages of a process can be copied. */
  lemma ProcessCopyable(s: Memory, root: nat, n: nat)
    requires Inv(s) && Process(s, root, n)
    ensures Copyable(s, root, n)
  {
    forall v: nat | v < n
      ensures IsValid(Pte(s, root, v)) && Pte(s, root, v) / 1024 < |s.role| && IsData(s.role[Pte(s, root, v) / 1024])
    {
      assert Present(s, root, v, true);
    }
  }
}
