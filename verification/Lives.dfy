/** The life of an address space: every page it ever took is given back, once. */
module Lives {
  import opened Sv39
  import opened Spaces
  import opened Prune

  /** A page that the tree of root, or its address space, consists of. */
  ghost predicate Of(x: Role, root: nat) {
    (x.Table? && x.place.root == root) || (x.Frame? && x.slot.root == root)
  }

  /** Since s, only the address space of root has come into being, out of free pages. */
  ghost predicate Life(s: Memory, u: Memory, root: nat) {
    && Inv(s) && Inv(u) && |u.role| == |s.role|
    && (forall m: nat {:trigger u.role[m]} :: m < |s.role| ==>
          u.role[m] == s.role[m] || (s.role[m] == Free && Of(u.role[m], root)))
    && (forall m: nat {:trigger u.pages[m]} :: m < |s.role| && IsData(s.role[m]) ==> u.pages[m] == s.pages[m])
    && (forall p {:trigger p in u.at} {:trigger p in s.at} :: p in s.at <==> p in u.at && p.root != root)
    && (forall p {:trigger u.at[p]} :: p in s.at ==> u.at[p] == s.at[p])
    && (forall r: nat, v: nat {:trigger Pte(u, r, v)} :: r != root ==> Pte(u, r, v) == Pte(s, r, v))
  }

  /** The address space of root is gone, and each of its pages is free again. */
  ghost predicate Dismantled(s: Memory, t: Memory, root: nat) {
    && Inv(s) && Inv(t) && |t.role| == |s.role|
    && (forall m: nat {:trigger t.role[m]} :: m < |s.role| ==>
          t.role[m] == if Of(s.role[m], root) then Free else s.role[m])
    && (forall m: nat {:trigger t.pages[m]} :: m < |s.role| && IsData(t.role[m]) ==> t.pages[m] == s.pages[m])
    && (forall p {:trigger p in t.at} {:trigger p in s.at} :: p in t.at <==> p in s.at && p.root != root)
    && (forall p {:trigger t.at[p]} :: p in t.at ==> t.at[p] == s.at[p])
    && (forall r: nat, v: nat {:trigger Pte(t, r, v)} :: r != root ==> Pte(t, r, v) == Pte(s, r, v))
  }

  /** Every page has the role it had before, no translation has changed, and neither has any page
      that is not free or a table. */
  ghost predicate Restored(s: Memory, t: Memory) {
    Inv(s) && Inv(t) && t.role == s.role && t.at == s.at && SameMaps(s, t) && SameData(s, t)
  }

  /** Nothing is lost and nothing is left over after a whole life. */
  lemma LifeEnds(s: Memory, u: Memory, t: Memory, root: nat)
    requires Life(s, u, root) == Dismantled(u, t, root) == true
    ensures Restored(s, t)
  {
    forall m: nat | m < |s.role|
      ensures t.role[m] == s.role[m] && (IsData(s.role[m]) ==> t.pages[m] == s.pages[m])
    {
      LifeRole(s, u, t, root, m);
    }
    assert forall p :: p in t.at ==> u.at[p] == s.at[p];
    forall r: nat, v: nat
      ensures Pte(t, r, v) == Pte(s, r, v)
    {
      LifeEntry(s, u, t, root, r, v);
    }
  }

  lemma LifeRole(s: Memory, u: Memory, t: Memory, root: nat, m: nat)
    requires Life(s, u, root) == Dismantled(u, t, root) == true && m < |s.role|
    ensures t.role[m] == s.role[m] && (IsData(s.role[m]) ==> t.pages[m] == s.pages[m])
  {
    assert u.role[m] == s.role[m] || (s.role[m] == Free && Of(u.role[m], root));
    if s.role[m].Frame? {
      FrameRoot(s, m);
    }
  }

  lemma LifeEntry(s: Memory, u: Memory, t: Memory, root: nat, r: nat, v: nat)
    requires Life(s, u, root) == Dismantled(u, t, root) == true
    ensures Pte(t, r, v) == Pte(s, r, v)
  {
    if r == root {
      assert Place(r, 0, v / 512) !in t.at && Place(r, 0, v / 512) !in s.at;
    } else {
      assert Pte(u, r, v) == Pte(s, r, v);
    }
  }

  /** A data page is in a tree that exists. */
  lemma FrameRoot(s: Memory, m: nat)
    requires Inv(s) && m < |s.role| && s.role[m].Frame?
    ensures Place(s.role[m].slot.root, 0, s.role[m].slot.vpn / 512) in s.at
  {
    OneFrame(s, s.role[m].slot.root, s.role[m].slot.vpn, m);
  }

  // ---------- steps of a life ----------

  lemma LifeBegins(s: Memory, root: nat)
    requires Inv(s) && |s.free| > 0 && root == s.free[0]
    ensures root < |s.role| == |s.pages| && Inv(Take(s, Filled(0))) && Life(s, Plant(Take(s, Filled(0)), root), root)
  {
    var l := Take(s, Filled(0));
    TakeOk(s, Filled(0), {});
    PlantOk(l, root);
    var u := Plant(l, root);
    forall p | p in s.at
      ensures p.root != root
    {
      RootThere(s, p);
    }
    forall r: nat, v: nat
      ensures Pte(u, r, v) == Pte(s, r, v)
    {
      assert Pte(l, r, v) == Pte(s, r, v);
    }
  }

  lemma LifeMapped(s: Memory, u: Memory, w: Memory, root: nat, v0: nat, n: nat, ppn: nat, flags: nat)
    requires Life(s, u, root) == Mapped(u, w, root, v0, n, ppn, flags) == true
    ensures Life(s, w, root)
  {
    forall m: nat | m < |s.role|
      ensures w.role[m] == s.role[m] || (s.role[m] == Free && Of(w.role[m], root))
      ensures IsData(s.role[m]) ==> w.pages[m] == s.pages[m]
    {
      assert u.role[m] == s.role[m] || (s.role[m] == Free && Of(u.role[m], root));
      NewTables(u, w, root, m);
    }
    forall r: nat, v: nat | r != root
      ensures Pte(w, r, v) == Pte(s, r, v)
    {
      assert Pte(u, r, v) == Pte(s, r, v);
    }
  }

  /** Where the tables only grow, a page that is not data stays what it was or joins the tree. */
  lemma NewTables(u: Memory, w: Memory, root: nat, m: nat)
    requires Inv(u) && Inv(w) && MoreTables(u, w, root) && |u.role| == |w.role| && m < |u.role|
    ensures u.role[m].Table? ==> w.role[m] == u.role[m]
    ensures w.role[m].Table? && w.role[m] != u.role[m] ==> w.role[m].place.root == root
  {
    if u.role[m].Table? {
      assert u.at[u.role[m].place] == m && u.role[m].place in w.at;
    } else if w.role[m].Table? {
      var p := w.role[m].place;
      assert p in w.at && w.at[p] == m;
    }
  }

  lemma LifeUnmapped(s: Memory, u: Memory, w: Memory, root: nat, v0: nat, n: nat, owned: bool)
    requires Life(s, u, root) == Unmapped(u, w, root, v0, n, owned) == true
    ensures Life(s, w, root)
  {
    forall m: nat | m < |s.role|
      ensures w.role[m] == s.role[m] || (s.role[m] == Free && Of(w.role[m], root))
      ensures IsData(s.role[m]) ==> w.pages[m] == s.pages[m]
    {
      assert u.role[m] == s.role[m] || (s.role[m] == Free && Of(u.role[m], root));
      assert w.role[m] == if owned && Within(u.role[m], root, v0, n) then Free else u.role[m];
      if s.role[m].Frame? {
        FrameRoot(s, m);
      }
    }
    forall r: nat, v: nat | r != root
      ensures Pte(w, r, v) == Pte(s, r, v)
    {
      assert Pte(u, r, v) == Pte(s, r, v);
    }
  }

  // ---------- the end of a life ----------

  /** The first n pages are mapped to data pages of their own, and nothing else is mapped. */
  ghost predicate UserOnly(s: Memory, root: nat, n: nat)
    requires TreesOk(s)
  {
    forall v: nat {:trigger Pte(s, root, v)} {:trigger Present(s, root, v, true)} ::
      if v < n then Present(s, root, v, true) else Pte(s, root, v) == 0
  }

  /** With nothing mapped the tables of the last level are empty. */
  lemma BareWhenUnmapped(s: Memory, root: nat)
    requires Empty(s, root) == true
    ensures Bare(s, root)
  {
    forall p | p in s.at && p.root == root && p.level == 0
      ensures s.pages[s.at[p]] == Filled(0)
    {
      forall i | 0 <= i < 512
        ensures s.pages[s.at[p]][i] == 0
      {
        var v := p.x * 512 + i;
        assert Pte(s, root, v) == 0 && v / 512 == p.x && v % 512 == i;
      }
    }
  }

  lemma TornDown(s: Memory, u: Memory, t: Memory, root: nat, n: nat)
    requires Unmapped(s, u, root, 0, n, true) == Removed(u, t, root) == true
    requires TreesOk(s) && UserOnly(s, root, n)
    ensures Dismantled(s, t, root)
  {
    forall m: nat | m < |s.role|
      ensures t.role[m] == if Of(s.role[m], root) then Free else s.role[m]
      ensures IsData(t.role[m]) ==> t.pages[m] == s.pages[m]
    {
      assert u.role[m] == if Within(s.role[m], root, 0, n) then Free else s.role[m];
      if s.role[m].Frame? {
        OneFrame(s, s.role[m].slot.root, s.role[m].slot.vpn, m);
      }
    }
    forall r: nat, v: nat | r != root
      ensures Pte(t, r, v) == Pte(s, r, v)
    {
      assert Pte(u, r, v) == Pte(s, r, v);
    }
  }

  lemma UnmappedFirst(s: Memory, u: Memory, t: Memory, root: nat, v: nat)
    requires Unmapped(s, u, root, v, 1, false) == Dismantled(u, t, root) == true
    ensures Dismantled(s, t, root)
  {
    forall m: nat | m < |s.role|
      ensures t.role[m] == if Of(s.role[m], root) then Free else s.role[m]
      ensures IsData(t.role[m]) ==> t.pages[m] == s.pages[m]
    {
      assert u.role[m] == s.role[m];
    }
    forall r: nat, v': nat | r != root
      ensures Pte(t, r, v') == Pte(s, r, v')
    {
      assert Pte(u, r, v') == Pte(s, r, v');
    }
  }

  // ---------- the layout of a process ----------

  const TRAMPOLINE: nat := 0x3FF_FFFF
  const TRAPFRAME: nat := 0x3FF_FFFE

  /** A process of n pages: those are its own, the two pages at the top are borrowed, and
      nothing else is mapped. */
  ghost predicate Process(s: Memory, root: nat, n: nat)
    requires TreesOk(s)
  {
    && n <= TRAPFRAME && Present(s, root, TRAMPOLINE, false) && Present(s, root, TRAPFRAME, false)
    && forall v: nat {:trigger Pte(s, root, v)} {:trigger Present(s, root, v, true)} ::
         if v < n then Present(s, root, v, true)
         else v != TRAMPOLINE && v != TRAPFRAME ==> Pte(s, root, v) == 0
  }

  /** Without the two pages at the top the process has only its own. */
  lemma OnlyItsOwn(s: Memory, t: Memory, u: Memory, root: nat, n: nat)
    requires TreesOk(s) && Process(s, root, n)
    requires Unmapped(s, t, root, TRAMPOLINE, 1, false) == Unmapped(t, u, root, TRAPFRAME, 1, false) == true
    ensures TreesOk(u) && UserOnly(u, root, n)
  {
    forall v: nat
      ensures if v < n then Present(u, root, v, true) else Pte(u, root, v) == 0
    {
      assert Pte(u, root, v) == if v == TRAPFRAME then 0 else Pte(t, root, v);
      assert Pte(t, root, v) == if v == TRAMPOLINE then 0 else Pte(s, root, v);
      if v < n {
        assert Present(s, root, v, true);
      }
    }
  }

  /** The data pages of a process stay what they are when its borrowed pages change. */
  lemma StillBorrowed(s: Memory, t: Memory, root: nat, v: nat, w: nat)
    requires Unmapped(s, t, root, v, 1, false) == true && w != v && Present(s, root, w, false)
    ensures Present(t, root, w, false)
  {
    assert Pte(t, root, w) == Pte(s, root, w);
  }

  /** A process without memory: only the trampoline (PTE_R | PTE_X) and the trap frame (PTE_R |
      PTE_W) are mapped, neither for the user. */
  ghost predicate NewProcess(s: Memory, root: nat, tramp: nat, frame: nat) {
    && Inv(s) && Place(root, 2, 0) in s.at && Process(s, root, 0)
    && Pte(s, root, TRAMPOLINE) == tramp * 1024 + 11 && Pte(s, root, TRAPFRAME) == frame * 1024 + 7
  }

  /** What proc_pagetable sets up. */
  lemma ProcessMade(a: Memory, b: Memory, c: Memory, root: nat, tramp: nat, frame: nat)
    requires Mapped(a, b, root, TRAMPOLINE, 1, tramp, 11) == Mapped(b, c, root, TRAPFRAME, 1, frame, 7) == true
    requires Empty(a, root) == true && Place(root, 2, 0) in c.at
    ensures NewProcess(c, root, tramp, frame)
  {
    TopEntries(a, b, c, root, tramp, frame);
    Encoded(tramp, 11);
    Encoded(frame, 7);
    forall f: nat | f < |c.role|
      ensures !(c.role[f].Frame? && c.role[f].slot.root == root)
    {
      NoFrames(a, root, f);
      assert IsData(c.role[f]) ==> b.role[f] == c.role[f] && a.role[f] == b.role[f];
    }
  }

  lemma TopEntries(a: Memory, b: Memory, c: Memory, root: nat, tramp: nat, frame: nat)
    requires Mapped(a, b, root, TRAMPOLINE, 1, tramp, 11) == Mapped(b, c, root, TRAPFRAME, 1, frame, 7) == true
    requires Empty(a, root) == true
    ensures forall v: nat {:trigger Pte(c, root, v)} ::
              Pte(c, root, v) == if v == TRAMPOLINE then tramp * 1024 + 11
                    else if v == TRAPFRAME then frame * 1024 + 7 else 0
  {
    forall v: nat
      ensures Pte(c, root, v) == if v == TRAMPOLINE then tramp * 1024 + 11
                else if v == TRAPFRAME then frame * 1024 + 7 else 0
    {
      assert Pte(a, root, v) == 0;
      assert Pte(b, root, v) == if v == TRAMPOLINE then tramp * 1024 + 11 else 0;
    }
  }

  lemma StillEmpty(a: Memory, b: Memory, root: nat, v0: nat, ppn: nat, flags: nat)
    requires Empty(a, root) == Mapped(a, b, root, v0, 0, ppn, flags) == true
    ensures Empty(b, root)
  {
    assert forall v: nat {:trigger Pte(b, root, v)} :: Pte(b, root, v) == Pte(a, root, v);
  }

  /** With the trampoline mapped the place of the trap frame is still free. */
  ghost predicate Vacant(s: Memory, root: nat, v: nat) {
    TreesOk(s) && !IsValid(Pte(s, root, v))
  }

  lemma OneTop(a: Memory, b: Memory, root: nat, tramp: nat)
    requires Empty(a, root) == Mapped(a, b, root, TRAMPOLINE, 1, tramp, 11) == true
    ensures Vacant(b, root, TRAPFRAME) == true
  {
    assert Pte(b, root, TRAPFRAME) == Pte(a, root, TRAPFRAME);
  }

  /** If the trap frame cannot be mapped, the trampoline can be unmapped, ... */
  lemma HalfMade(a: Memory, b: Memory, c: Memory, root: nat, tramp: nat, frame: nat)
    requires Empty(a, root) == Mapped(a, b, root, TRAMPOLINE, 1, tramp, 11) == true
    requires Mapped(b, c, root, TRAPFRAME, 0, frame, 7) == true
    ensures Present(c, root, TRAMPOLINE, false)
  {
    Encoded(tramp, 11);
    assert Pte(c, root, TRAMPOLINE) == Pte(b, root, TRAMPOLINE) && Pte(b, root, TRAMPOLINE) == tramp * 1024 + 11;
    forall f: nat | f < |c.role|
      ensures c.role[f] != Frame(Slot(root, TRAMPOLINE))
    {
      NoFrames(a, root, f);
      assert IsData(c.role[f]) ==> b.role[f] == c.role[f] && a.role[f] == b.role[f];
    }
  }

  /** ... and then nothing is mapped. */
  lemma HalfUnmade(a: Memory, b: Memory, c: Memory, d: Memory, root: nat, tramp: nat, frame: nat)
    requires Empty(a, root) == Mapped(a, b, root, TRAMPOLINE, 1, tramp, 11) == true
    requires Mapped(b, c, root, TRAPFRAME, 0, frame, 7) == Unmapped(c, d, root, TRAMPOLINE, 1, false) == true
    ensures Empty(d, root)
  {
    forall v: nat
      ensures Pte(d, root, v) == 0
    {
      assert Pte(d, root, v) == if v == TRAMPOLINE then 0 else Pte(c, root, v);
      assert Pte(c, root, v) == Pte(b, root, v);
      assert v != TRAMPOLINE ==> Pte(b, root, v) == Pte(a, root, v) == 0;
    }
  }

  /** Nothing is mapped. */
  ghost predicate Empty(s: Memory, root: nat) {
    Inv(s) && forall v: nat {:trigger Pte(s, root, v)} :: Pte(s, root, v) == 0
  }

  lemma NoFrames(a: Memory, root: nat, f: nat)
    requires Empty(a, root) == true && f < |a.role|
    ensures !(a.role[f].Frame? && a.role[f].slot.root == root)
  {
    if a.role[f].Frame? {
      OneFrame(a, a.role[f].slot.root, a.role[f].slot.vpn, f);
    }
  }
}
