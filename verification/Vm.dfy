/** The page allocator of kalloc.c and the page tables of vm.c and proc.c. Addresses of pages
    are page numbers; an address space is the tree rooted in one page. */
module Vm {
  import opened Options
  import opened Sv39
  import opened Spaces
  import opened Prune
  import opened Lives

  const MAXVA: nat := 0x40_0000_0000

  /** PGROUNDUP, as a page number. */
  function Up(sz: nat): (v: nat)
    ensures 4096 * (v - 1) < sz <= 4096 * v
  {
    (sz + 4095) / 4096
  }

  /** The pages of a process of size b that are not pages of one of size a. */
  function Between(a: nat, b: nat): (n: int) {
    Up(b) - Up(a)
  }

  lemma UpMonotone(a: nat, b: nat)
    requires a <= b
    ensures Up(a) <= Up(b) && Between(a, b) >= 0
    ensures b <= MAXVA ==> Up(b) <= 0x400_0000
  {
  }

  /** The page of address a begins below sz: exactly the pages of a process of sz bytes do. */
  lemma PageOf(a: nat, sz: nat)
    ensures a / 4096 < Up(sz) <==> 4096 * (a / 4096) < sz
    ensures a < sz ==> a / 4096 < Up(sz)
  {
  }

  /** n pages of zeros, for the user to read, write and execute. */
  ghost function Zeroed(n: nat): (r: seq<Want>)
    ensures |r| == n
  {
    seq(n, i => Want(31, Filled(0)))
  }

  lemma ZeroedNext(n: nat)
    ensures Zeroed(n) + [Want(31, Filled(0))] == Zeroed(n + 1)
  {
  }

  /** The number of pages that size bytes from va on touch. */
  function Pages(va: nat, size: nat): (n: nat)
    requires size > 0
    ensures n > 0 && 4096 * (va / 4096 + n - 1) < va + size <= 4096 * (va / 4096 + n)
  {
    (va + size - 1) / 4096 - va / 4096 + 1
  }

  /** perm | PTE_V */
  function Or1(perm: nat): (r: nat) {
    if perm % 2 == 1 then perm else perm + 1
  }

  /** The table that walk is at for page v when it has come down to `level`. */
  function Step(root: nat, level: nat, v: nat): (p: Place) {
    if level == 2 then Place(root, 2, 0) else if level == 1 then Place(root, 1, v / 262144) else Place(root, 0, v / 512)
  }

  /** PX(level, va) */
  function Px(level: nat, v: nat): (i: nat)
    requires v < 0x400_0000
    ensures i < 512
  {
    if level == 2 then v / 262144 else if level == 1 then v / 512 % 512 else v % 512
  }

  lemma StepDown(s: Memory, root: nat, level: nat, v: nat)
    requires Inv(s) && 0 < level <= 2 && v < 0x400_0000 && Step(root, level, v) in s.at
    ensures var q, i := Step(root, level, v), Px(level, v);
            && q.level == level && Child(q, i) == Step(root, level - 1, v)
            && var w := s.pages[s.at[q]][i];
            && (IsValid(w) <==> Step(root, level - 1, v) in s.at)
            && (IsValid(w) ==> s.at[Step(root, level - 1, v)] == w / 1024)
            && (Step(root, level - 1, v) !in s.at ==> Step(root, 0, v) !in s.at)
  {
    Path(root, v);
    EntryThere(s, Step(root, level, v), Px(level, v));
  }

  /** PTE_V and PTE_U are set. */
  predicate IsUser(w: nat) {
    IsValid(w) && w / 16 % 2 == 1
  }

  // ---------- in bytes ----------

  /** After uvmalloc from oldsz to newsz the pages that begin there, and no others, have become pages of
      zeros that the user can reach. */
  lemma AllocBytes(s: Memory, t: Memory, root: nat, oldsz: nat, newsz: nat, a: nat)
    requires oldsz <= newsz <= MAXVA && Between(oldsz, newsz) >= 0 && a < MAXVA && Place(root, 2, 0) in s.at
    requires Gained(s, t, root, Up(oldsz), Zeroed(Between(oldsz, newsz)))
    ensures var w := Translate(t.pages, root, a / 4096);
            if oldsz <= 4096 * (a / 4096) < newsz then
              && IsUser(w) && w % 1024 == 31 && w / 1024 < |t.pages|
              && forall k :: 0 <= k < 512 ==> t.pages[w / 1024][k] == 0
            else w == Translate(s.pages, root, a / 4096)
  {
    PageOf(a, oldsz);
    PageOf(a, newsz);
    TranslateIsPte(s, root, a / 4096);
    TranslateIsPte(t, root, a / 4096);
    if Up(oldsz) <= a / 4096 < Up(newsz) {
      ZeroPage(s, t, root, Up(oldsz), Between(oldsz, newsz), a / 4096);
    }
  }

  lemma ZeroPage(s: Memory, t: Memory, root: nat, v0: nat, n: nat, v: nat)
    requires Gained(s, t, root, v0, Zeroed(n)) && v0 <= v < v0 + n
    ensures var w := Pte(t, root, v);
            IsUser(w) && w % 1024 == 31 && w / 1024 < |t.pages| && forall k :: 0 <= k < 512 ==>
                  t.pages[w / 1024][k] == 0
  {
    assert WantAt(Zeroed(n), v0, v) == Want(31, Filled(0));
    assert Has(t, root, v, Want(31, Filled(0)));
    UserFlags(Pte(t, root, v));
  }

  lemma UserFlags(w: nat)
    requires w % 1024 == 31
    ensures IsUser(w)
  {
    var q := w / 1024;
    Divides(w, 2, 512 * q + 15, 1);
    Divides(w, 16, 64 * q + 1, 15);
    Divides(64 * q + 1, 2, 32 * q, 1);
  }

  lemma Divides(w: nat, d: nat, q: nat, r: nat)
    requires r < d && w == d * q + r
    ensures w / d == q && w % d == r
  {
    var x := w / d - q;
    assert d * x == d * (w / d) - d * q;
    assert w == d * (w / d) + w % d;
    Multiple(d, x);
  }

  lemma Multiple(d: int, x: int)
    requires d >= 0
    ensures (x >= 1 ==> d * x >= d) && (x <= -1 ==> d * x <= -d)
  {
    assert d * x == d * (x - 1) + d;
    if x >= 1 {
      assert d * (x - 1) >= 0;
    } else if x <= -1 {
      assert d * (-1 - x) >= 0;
      assert d * x == -d - d * (-1 - x);
    }
  }

  /** After uvmdealloc from oldsz to newsz exactly the pages that begin there are gone. */
  lemma DeallocBytes(s: Memory, t: Memory, root: nat, oldsz: nat, newsz: nat, a: nat)
    requires newsz <= oldsz <= MAXVA && Between(newsz, oldsz) >= 0 && a < MAXVA && Place(root, 2, 0) in s.at
    requires Unmapped(s, t, root, Up(newsz), Between(newsz, oldsz), true)
    ensures Translate(t.pages, root, a / 4096) ==
              if newsz <= 4096 * (a / 4096) < oldsz then 0 else Translate(s.pages, root, a / 4096)
  {
    PageOf(a, oldsz);
    PageOf(a, newsz);
    TranslateIsPte(s, root, a / 4096);
    TranslateIsPte(t, root, a / 4096);
  }

  class PhysicalMemory {
    var pages: seq<Page>
    var free: seq<nat>
    ghost var at: map<Place, nat>
    ghost var role: seq<Role>

    ghost function Now(): (s: Memory)
      reads this
    {
      Memory(pages, free, at, role)
    }

    /** kinit and freerange: all pages from the first behind the kernel on are free. */
    constructor (pages: seq<Page>, first: nat)
      requires first <= |pages|
      ensures Inv(Now()) && at == map[] && |this.pages| == |pages| && this.pages[..first] == pages[..first]
      ensures forall p: nat :: p < |pages| ==> role[p] == if p < first then Kernel else Free
      ensures |free| == |pages| - first && forall p: nat :: p in free <==> first <= p < |pages|
    {
      this.pages, free, at := pages, [], map[];
      role := seq(|pages|, p => if p < first then Kernel else Loose);
      new;
      var p := first;
      while p < |pages|
        invariant first <= p <= |pages| == |this.pages| && Inv(Now()) == true && at == map[]
        invariant this.pages[..first] == pages[..first] && |free| == p - first
        invariant forall q: nat {:trigger role[q]} :: q < |pages| ==>
                    role[q] == if q < first then Kernel else if q < p then Free else Loose
      {
        PutOk(Now(), p, Filled(0x0101_0101_0101_0101), {});
        Kfree(p);
        p := p + 1;
      }
      assert FreeOk(Now());
    }

    /** kalloc */
    method Kalloc() returns (r: Option<nat>)
      requires Inv(Now())
      modifies this`free, this`pages, this`role
      ensures r.None? <==> old(free) == []
      ensures r.None? ==> Now() == old(Now())
      ensures r.Some? ==> r.value == old(free)[0] && Now() == Take(old(Now()), Filled(0x0505_0505_0505_0505))
    {
      if free == [] {
        return None;
      }
      r := Some(free[0]);
      pages := pages[free[0] := Filled(0x0505_0505_0505_0505)];
      role := role[free[0] := Loose];
      free := free[1..];
    }

    /** The panic for a page outside the managed range is the precondition. */
    method Kfree(p: nat)
      requires FreeOk(Now()) && p < |pages| && role[p] == Loose
      modifies this`free, this`pages, this`role
      ensures Now() == Put(old(Now()), p, Filled(0x0101_0101_0101_0101))
    {
      pages := pages[p := Filled(0x0101_0101_0101_0101)];
      role := role[p := Free];
      free := [p] + free;
    }

    /** Takes a page for a new table, to be the i-th below the table q in page t. */
    method AddTable(ghost q: Place, t: nat, i: nat) returns (r: Option<nat>)
      requires Inv(Now()) && q in at && q.level > 0 && i < 512 && at[q] == t && Child(q, i) !in at
      modifies this
      ensures r.None? ==> Now() == old(Now()) && free == []
      ensures r.Some? ==> Walked(old(Now()), Now(), q.root) == true && Child(q, i) in at && at[Child(q, i)] == r.value
      ensures r.Some? ==> |free| + 1 == |old(free)|
    {
      ghost var s := Now();
      r := Kalloc();
      if r.Some? {
        pages := pages[r.value := Filled(0)];
        ghost var u := Now();
        assert u == Take(s, Filled(0));
        GrowOk(s, q, i);
        ghost var l := Link(u, q, i, r.value);
        pages := pages[t := pages[t][i := r.value * 1024 + 1]];
        at, role := l.at, l.role;
        assert pages == l.pages;
      }
    }

    /** The page of the table with the entry for page v. */
    method Walk(root: nat, v: nat, alloc: bool) returns (r: Option<nat>)
      requires Inv(Now()) && Place(root, 2, 0) in at && v < 0x400_0000
      modifies this
      ensures Walked(old(Now()), Now(), root) == true
      ensures r.Some? ==> Place(root, 0, v / 512) in at && r.value == at[Place(root, 0, v / 512)]
      ensures !alloc ==> Now() == old(Now()) && (r.None? ==> Place(root, 0, v / 512) !in at)
      ensures alloc && r.None? ==> free == [] && |old(free)| <= 1
      ensures |free| + 2 >= |old(free)|
    {
      var t, level := root, 2;
      while level > 0
        invariant level <= 2 && Walked(old(Now()), Now(), root) == true
        invariant Step(root, level, v) in at && at[Step(root, level, v)] == t
        invariant (!alloc ==> Now() == old(Now())) && |free| + 2 >= |old(free)| + level
      {
        ghost var s, q := Now(), Step(root, level, v);
        var i := Px(level, v);
        StepDown(s, root, level, v);
        if IsValid(pages[t][i]) {
          t := pages[t][i] / 1024;
        } else if !alloc {
          return None;
        } else {
          var k := AddTable(q, t, i);
          if k.None? {
            return None;
          }
          WalkedTwice(old(Now()), s, Now(), root);
          t := k.value;
        }
        level := level - 1;
      }
      return Some(t);
    }

    /** walkaddr: a valid entry for users, as the hardware finds it. */
    method WalkAddr(root: nat, va: nat) returns (r: Option<nat>)
      requires Inv(Now()) && Place(root, 2, 0) in at
      modifies this
      ensures Now() == old(Now())
      ensures r.Some? <==> va < MAXVA && IsUser(Translate(pages, root, va / 4096))
      ensures r.Some? ==> r.value == Translate(pages, root, va / 4096) / 1024
    {
      if va >= MAXVA {
        return None;
      }
      TranslateIsPte(Now(), root, va / 4096);
      var t := Walk(root, va / 4096, false);
      if t.None? || !IsUser(pages[t.value][va / 4096 % 512]) {
        return None;
      }
      return Some(pages[t.value][va / 4096 % 512] / 1024);
    }

    // ---------- mapping and unmapping ----------

    /** One round of mappages; the panic "remap" is a precondition. */
    method MapPage(root: nat, v: nat, ppn: nat, flags: nat) returns (ok: bool)
      requires Inv(Now()) && Place(root, 2, 0) in at && v < 0x400_0000 && !IsValid(Pte(Now(), root, v))
      requires IsValid(flags) && IsLeaf(flags) && flags < 1024 && ppn < |pages|
      modifies this
      ensures ok ==> Mapped(old(Now()), Now(), root, v, 1, ppn, flags) == true
      ensures !ok ==> Walked(old(Now()), Now(), root) == true && free == [] && |old(free)| <= 1
      ensures |free| + 2 >= |old(free)|
    {
      ghost var s := Now();
      var r := Walk(root, v, true);
      if r.None? {
        return false;
      }
      ghost var t := Now();
      assert Pte(t, root, v) == Pte(s, root, v);
      EntryWritten(t, root, v, ppn, flags);
      pages := pages[r.value := pages[r.value][v % 512 := ppn * 1024 + flags]];
      WalkedThenMapped(s, t, Now(), root, v, 1, ppn, flags);
      return true;
    }

    /** The loop of mappages, over n pages. */
    method MapRange(root: nat, v0: nat, n: nat, p0: nat, flags: nat) returns (ok: bool, ghost done: nat)
      requires Inv(Now()) && Place(root, 2, 0) in at && 0 < n && v0 + n <= 0x400_0000
      requires IsValid(flags) && IsLeaf(flags) && flags < 1024 && p0 + n <= |pages|
      requires forall v: nat {:trigger Pte(Now(), root, v)} :: v0 <= v < v0 + n ==> !IsValid(Pte(Now(), root, v))
      modifies this
      ensures Mapped(old(Now()), Now(), root, v0, done, p0, flags) == true
      ensures if ok then done == n && |free| + 2 * n >= |old(free)|
              else done < n && free == [] && |old(free)| <= 2 * done + 1
    {
      ghost var s := Now();
      var v, p := v0, p0;
      done := 0;
      MappedNone(s, root, v0, p0, flags);
      while true
        invariant done < n && v == v0 + done && p == p0 + done && |free| + 2 * done >= |s.free|
        invariant Mapped(s, Now(), root, v0, done, p0, flags) == true
        decreases n - done
      {
        ghost var t := Now();
        assert Pte(t, root, v) == Pte(s, root, v);
        ok := MapPage(root, v, p, flags);
        if !ok {
          MappedThenWalked(s, t, Now(), root, v0, done, p0, flags);
          return;
        }
        MappedMore(s, t, Now(), root, v0, done, v, p0, p, flags);
        done := done + 1;
        if v == v0 + n - 1 {
          break;
        }
        v, p := v + 1, p + 1;
      }
    }

    /** mappages for the pages that size bytes from va on touch. If it runs out of memory, `done`
        pages have been mapped, and they stay. */
    method Mappages(root: nat, va: nat, size: nat, pa: nat, perm: nat) returns (ok: bool, ghost done: nat)
      requires Inv(Now()) && Place(root, 2, 0) in at && 0 < size && va + size <= MAXVA
      requires IsLeaf(perm) && perm < 1024 && pa / 4096 + Pages(va, size) <= |pages|
      requires forall v: nat {:trigger Pte(Now(), root, v)} :: va / 4096 <= v < va / 4096 + Pages(va, size) ==>
                 !IsValid(Pte(Now(), root, v))
      modifies this
      ensures Mapped(old(Now()), Now(), root, va / 4096, done, pa / 4096, Or1(perm)) == true
      ensures if ok then done == Pages(va, size) && |free| + 2 * done >= |old(free)|
              else done < Pages(va, size) && free == [] && |old(free)| <= 2 * done + 1
    {
      var a, last := va / 4096, (va + size - 1) / 4096;
      ok, done := MapRange(root, a, last - a + 1, pa / 4096, Or1(perm));
    }

    /** One round of uvmunmap; its three panics are the precondition. */
    method UnmapPage(root: nat, v: nat, doFree: bool)
      requires Inv(Now()) && Place(root, 2, 0) in at && v < 0x400_0000 && Present(Now(), root, v, doFree)
      modifies this
      ensures Unmapped(old(Now()), Now(), root, v, 1, doFree) == true
    {
      ghost var s := Now();
      var r := Walk(root, v, false);
      var w := pages[r.value][v % 512];
      if doFree {
        FrameFreed(s, root, v, Filled(0x0101_0101_0101_0101));
        RoleOk(s, w / 1024, Loose);
        role := role[w / 1024 := Loose];
        Kfree(w / 1024);
      }
      ghost var t := Now();
      EntryCleared(t, root, v);
      pages := pages[r.value := pages[r.value][v % 512 := 0]];
      if doFree {
        FreedThenCleared(s, t, Now(), root, v, w / 1024, Filled(0x0101_0101_0101_0101));
      }
    }

    method UvmUnmap(root: nat, v0: nat, npages: nat, doFree: bool)
      requires Inv(Now()) && Place(root, 2, 0) in at && v0 + npages <= 0x400_0000
      requires forall v: nat {:trigger Present(Now(), root, v, doFree)} :: v0 <= v < v0 + npages ==>
                 Present(Now(), root, v, doFree)
      modifies this
      ensures Unmapped(old(Now()), Now(), root, v0, npages, doFree) == true
    {
      ghost var s := Now();
      var v, n := v0, 0;
      UnmappedNone(s, root, v0, doFree);
      while n < npages
        invariant n <= npages && v == v0 + n && Unmapped(s, Now(), root, v0, n, doFree) == true
      {
        ghost var t := Now();
        StillPresent(s, t, root, v0, n, v, doFree);
        UnmapPage(root, v, doFree);
        UnmappedMore(s, t, Now(), root, v0, n, v, doFree);
        v, n := v + 1, n + 1;
      }
    }

    // ---------- taking trees apart ----------

    /** freewalk of the table q, which is in page t. While it is at work the entries for the
        tables in `stale` are out of date. */
    method FreeWalk(ghost q: Place, t: nat, ghost stale: set<Place>)
      requires InvBut(Now(), stale) == true && q in at && at[q] == t && (q.level < 2 ==> q in stale)
      requires Bare(Now(), q.root) == true
      requires forall c {:trigger c in stale} :: c in stale ==> c.level >= q.level
      modifies this
      ensures InvBut(Now(), stale) == true && Without(old(Now()), Now(), Subtree(old(Now()), q), q) == true
      decreases q.level
    {
      ghost var s := Now();
      var i := 0;
      WithoutNone(s, q);
      while i < 512
        invariant i <= 512 && InvBut(Now(), stale) == true && q in at && at[q] == t && Bare(Now(), q.root) == true
        invariant Without(s, Now(), Subtrees(s, q, i), q) == true
      {
        FreeEntry(s, q, t, i, stale);
        i := i + 1;
      }
      ghost var u := Now();
      NothingBelow(s, u, q);
      LastSubtree(s, q);
      DropOk(u, q, Filled(0x0101_0101_0101_0101), stale);
      Unhook(u, q, stale);
      at, role := at - {q}, role[t := Loose];
      Kfree(t);
      assert Now() == Drop(u, q, Filled(0x0101_0101_0101_0101));
      WithoutTwice(s, u, Now(), Subtrees(s, q, 512), {q}, q, q);
    }

    /** One round of the loop of freewalk. */
    method FreeEntry(ghost s: Memory, ghost q: Place, t: nat, i: nat, ghost stale: set<Place>)
      requires InvBut(Now(), stale) == true && q in at && at[q] == t && Bare(Now(), q.root) == true && i < 512
      requires TreesOk(s) == true && Bare(s, q.root) == true && Without(s, Now(), Subtrees(s, q, i), q) == true
      requires forall c {:trigger c in stale} :: c in stale ==> c.level >= q.level
      modifies this
      ensures InvBut(Now(), stale) == true && q in at && at[q] == t && Bare(Now(), q.root) == true
      ensures Without(s, Now(), Subtrees(s, q, i + 1), q) == true
      decreases q.level, 1
    {
      var w := pages[t][i];
      EntryLeft(Now(), q, i, stale);
      if IsValid(w) && !IsLeaf(w) {
        FreeChild(s, q, t, i, w / 1024, stale);
      } else {
        NoNewSubtree(s, Now(), q, i);
      }
    }

    /** The i-th table below q, in page w, is freed and its entry cleared. */
    method FreeChild(ghost s: Memory, ghost q: Place, t: nat, i: nat, w: nat, ghost stale: set<Place>)
      requires InvBut(Now(), stale) == true && q in at && at[q] == t && Bare(Now(), q.root) == true && i < 512
      requires TreesOk(s) == true && Bare(s, q.root) == true && Without(s, Now(), Subtrees(s, q, i), q) == true
      requires forall c {:trigger c in stale} :: c in stale ==> c.level >= q.level
      requires q.level > 0 && Child(q, i) in at && at[Child(q, i)] == w
      modifies this
      ensures InvBut(Now(), stale) == true && q in at && at[q] == t && Bare(Now(), q.root) == true
      ensures Without(s, Now(), Subtrees(s, q, i + 1), q) == true
      decreases q.level, 0
    {
      ghost var u, c := Now(), Child(q, i);
      StaleMore(u, stale, c);
      FreeWalk(c, w, stale + {c});
      ghost var x := Now();
      RoundDone(s, u, x, q, i, c, stale);
      pages := pages[t := pages[t][i := 0]];
      assert Now() == x.(pages := x.pages[x.at[q] := x.pages[x.at[q]][i := 0]]);
    }

    // ---------- address spaces ----------

    /** A new page v, as uvmalloc and uvmcopy make it: kalloc, fill with x, mappages, and kfree
        again if that fails. */
    method AddPage(root: nat, v: nat, flags: nat, x: Page) returns (ok: bool)
      requires Inv(Now()) == true && Place(root, 2, 0) in at && v < 0x400_0000 && !IsValid(Pte(Now(), root, v))
      requires IsValid(flags) && IsLeaf(flags) && flags < 1024
      modifies this
      ensures ok ==> Extended(old(Now()), Now(), root, v, 1) == true && Has(Now(), root, v, Want(flags, x)) == true
      ensures !ok ==> Walked(old(Now()), Now(), root) == true && |old(free)| < 3
      ensures |free| + 3 >= |old(free)|
    {
      ghost var s := Now();
      var mem := Kalloc();
      if mem.None? {
        WalkedNone(s, root);
        return false;
      }
      var f := mem.value;
      pages := pages[f := x];
      ghost var t := Now();
      assert t == Take(s, x);
      TakeOk(s, x, {});
      assert Pte(t, root, v) == Pte(s, root, v);
      ok := MapPage(root, v, f, flags);
      if ok {
        GainedOne(s, t, Now(), root, v, f, flags, x);
        role := role[f := Frame(Slot(root, v))];
      } else {
        TakenAndPut(s, t, Now(), root, f, x, Filled(0x0101_0101_0101_0101));
        Kfree(f);
      }
    }

    method UvmDealloc(root: nat, oldsz: nat, newsz: nat) returns (r: nat)
      requires Inv(Now()) && Place(root, 2, 0) in at && oldsz <= MAXVA
      requires newsz < oldsz ==> forall v: nat {:trigger Present(Now(), root, v, true)} ::
                 Up(newsz) <= v < Up(oldsz) ==> Present(Now(), root, v, true)
      modifies this
      ensures newsz >= oldsz ==> r == oldsz && Now() == old(Now())
      ensures newsz < oldsz ==>
                r == newsz && Unmapped(old(Now()), Now(), root, Up(newsz), Between(newsz, oldsz), true) == true
    {
      if newsz >= oldsz {
        return oldsz;
      }
      UpMonotone(newsz, oldsz);
      if Up(newsz) < Up(oldsz) {
        UvmUnmap(root, Up(newsz), Between(newsz, oldsz), true);
      } else {
        UnmappedNone(Now(), root, Up(newsz), true);
      }
      return newsz;
    }

    /** uvmalloc's way out: uvmdealloc back to where it began. */
    method Undo(ghost s: Memory, root: nat, v0: nat, ghost wants: seq<Want>, n: nat)
      requires Gained(s, Now(), root, v0, wants) == true && n == |wants| && v0 + n <= 0x400_0000
      requires Place(root, 2, 0) in at
      requires Unused(s, root, v0, n) == true
      modifies this
      ensures Walked(s, Now(), root) == true
    {
      ghost var t := Now();
      forall v: nat | v0 <= v < v0 + n
        ensures Present(t, root, v, true)
      {
        GainedPresent(s, t, root, v0, wants, v);
      }
      UnmappedNone(t, root, v0, true);
      var lo, hi := v0 * 4096, (v0 + n) * 4096;
      assert Up(lo) == v0 && Up(hi) == v0 + n && Between(lo, hi) == n;
      var r := UvmDealloc(root, hi, lo);
      RolledBack(s, t, Now(), root, v0, wants, n);
    }

    /** The loop of uvmalloc. */
    method AllocRange(root: nat, v0: nat, end: nat, ghost all: nat) returns (ok: bool)
      requires Inv(Now()) && Place(root, 2, 0) in at && end == v0 + all <= 0x400_0000
      requires Unused(Now(), root, v0, all)
      modifies this
      ensures ok ==> Gained(old(Now()), Now(), root, v0, Zeroed(all)) == true
      ensures !ok ==> Walked(old(Now()), Now(), root) == true && |old(free)| < 3 * all
    {
      ghost var s := Now();
      var v, n := v0, 0;
      GainedNone(s, root, v0);
      while v < end
        invariant v <= end && v == v0 + n && |free| + 3 * n >= |s.free|
        invariant Place(root, 2, 0) in at && Gained(s, Now(), root, v0, Zeroed(n)) == true
      {
        ghost var t := Now();
        NextPage(s, t, root, v0, Zeroed(n), v);
        ok := AddPage(root, v, 31, Filled(0));
        if !ok {
          GainedThenWalked(s, t, Now(), root, v0, Zeroed(n), n);
          NextPage(s, Now(), root, v0, Zeroed(n), v);
          UnusedLess(s, root, v0, all, n);
          Undo(s, root, v0, Zeroed(n), n);
          return;
        }
        GainedMore(s, t, Now(), root, v0, Zeroed(n), n, v, Want(31, Filled(0)));
        ZeroedNext(n);
        n, v := n + 1, v + 1;
      }
      return true;
    }

    /** uvmalloc: all the new pages zeroed, or none of them. */
    method UvmAlloc(root: nat, oldsz: nat, newsz: nat) returns (r: nat)
      requires Inv(Now()) && Place(root, 2, 0) in at && newsz <= MAXVA
      requires Unused(Now(), root, Up(oldsz), Between(oldsz, newsz))
      modifies this
      ensures newsz < oldsz ==> r == oldsz && Now() == old(Now())
      ensures newsz >= oldsz && r == newsz ==>
                Between(oldsz, newsz) >= 0 &&
                      Gained(old(Now()), Now(), root, Up(oldsz), Zeroed(Between(oldsz, newsz))) == true
      ensures newsz >= oldsz && r != newsz ==>
                r == 0 && Walked(old(Now()), Now(), root) == true && |old(free)| < 3 * Between(oldsz, newsz)
    {
      if newsz < oldsz {
        return oldsz;
      }
      UpMonotone(oldsz, newsz);
      var ok := AllocRange(root, Up(oldsz), Up(newsz), Between(oldsz, newsz));
      return if ok then newsz else 0;
    }

    /** uvmcopy's way out. */
    method UndoCopy(ghost s: Memory, root: nat, ghost wants: seq<Want>, n: nat)
      requires Gained(s, Now(), root, 0, wants) == true && n == |wants| <= 0x400_0000
      requires Place(root, 2, 0) in at && Unused(s, root, 0, n) == true
      modifies this
      ensures Walked(s, Now(), root) == true
    {
      ghost var t := Now();
      forall v: nat | 0 <= v < 0 + n
        ensures Present(t, root, v, true)
      {
        GainedPresent(s, t, root, 0, wants, v);
      }
      UvmUnmap(root, 0, n, true);
      RolledBack(s, t, Now(), root, 0, wants, n);
    }

    /** The loop of uvmcopy. */
    method CopyRange(from: nat, to: nat, end: nat) returns (ok: bool)
      requires Inv(Now()) && Place(from, 2, 0) in at && Place(to, 2, 0) in at && from != to && end <= 0x400_0000
      requires Copyable(Now(), from, end) && Unused(Now(), to, 0, end)
      modifies this
      ensures ok ==> Gained(old(Now()), Now(), to, 0, Copies(old(Now()), from, end)) == true
      ensures !ok ==> Walked(old(Now()), Now(), to) == true && |old(free)| < 3 * end
    {
      ghost var s := Now();
      var n := 0;
      GainedNone(s, to, 0);
      assert Copies(s, from, 0) == [];
      while n < end
        invariant n <= end && |free| + 3 * n >= |s.free| && Place(from, 2, 0) in at && Place(to, 2, 0) in at
        invariant Gained(s, Now(), to, 0, Copies(s, from, n)) == true
      {
        ghost var t := Now();
        NextPage(s, t, to, 0, Copies(s, from, n), n);
        NextCopy(s, t, from, to, n, end);
        var r := Walk(from, n, false);
        var w := pages[r.value][n % 512];
        ok := AddPage(to, n, w % 1024, pages[w / 1024]);
        if !ok {
          GainedThenWalked(s, t, Now(), to, 0, Copies(s, from, n), n);
          NextPage(s, Now(), to, 0, Copies(s, from, n), n);
          UnusedLess(s, to, 0, end, n);
          UndoCopy(s, to, Copies(s, from, n), n);
          return;
        }
        GainedMore(s, t, Now(), to, 0, Copies(s, from, n), n, n, CopyOf(s, from, n));
        n := n + 1;
      }
      return true;
    }

    /** uvmcopy: every page of the parent in a page of the child's own, with the same flags and
        contents, or none of them. */
    method UvmCopy(from: nat, to: nat, sz: nat) returns (ok: bool)
      requires Inv(Now()) && Place(from, 2, 0) in at && Place(to, 2, 0) in at && from != to && sz <= MAXVA
      requires Copyable(Now(), from, Up(sz)) && Unused(Now(), to, 0, Up(sz))
      modifies this
      ensures ok ==> Gained(old(Now()), Now(), to, 0, Copies(old(Now()), from, Up(sz))) == true
      ensures !ok ==> Walked(old(Now()), Now(), to) == true && |old(free)| < 3 * Up(sz)
    {
      UpMonotone(sz, sz);
      ok := CopyRange(from, to, Up(sz));
    }

    /** uvmcreate. */
    method UvmCreate() returns (r: Option<nat>)
      requires Inv(Now())
      modifies this
      ensures r.None? ==> Now() == old(Now()) && free == []
      ensures r.Some? ==>
                Life(old(Now()), Now(), r.value) == true && Place(r.value, 2, 0) in at &&
                |free| + 1 == |old(free)|
      ensures r.Some? ==> Empty(Now(), r.value) == true
    {
      ghost var s := Now();
      r := Kalloc();
      if r.Some? {
        var n := r.value;
        pages := pages[n := Filled(0)];
        ghost var l := Now();
        assert l == Take(s, Filled(0));
        LifeBegins(s, n);
        PlantOk(l, n);
        ghost var u := Plant(l, n);
        at, role := u.at, u.role;
        assert Now() == u;
      }
    }

    /** freewalk of a whole tree. */
    method FreeTree(root: nat)
      requires Inv(Now()) && Place(root, 2, 0) in at && Bare(Now(), root)
      modifies this
      ensures Removed(old(Now()), Now(), root) == true
    {
      ghost var s := Now();
      FreeWalk(Place(root, 2, 0), root, {});
      RemovedAll(s, Now(), root);
    }

    /** uvmfree. */
    method UvmFree(root: nat, sz: nat)
      requires Inv(Now()) && Place(root, 2, 0) in at && sz <= MAXVA && UserOnly(Now(), root, Up(sz))
      modifies this
      ensures Dismantled(old(Now()), Now(), root) == true
    {
      ghost var s := Now();
      UpMonotone(sz, sz);
      if sz > 0 {
        UvmUnmap(root, 0, Up(sz), true);
      } else {
        UnmappedNone(s, root, 0, true);
      }
      ghost var u := Now();
      assert Empty(u, root);
      BareWhenUnmapped(u, root);
      FreeTree(root);
      TornDown(s, u, Now(), root, Up(sz));
    }

    /** proc_freepagetable. */
    method ProcFreePagetable(root: nat, sz: nat)
      requires Inv(Now()) && Place(root, 2, 0) in at && sz <= MAXVA && Process(Now(), root, Up(sz))
      modifies this
      ensures Dismantled(old(Now()), Now(), root) == true
    {
      ghost var s := Now();
      UvmUnmap(root, TRAMPOLINE, 1, false);
      ghost var t := Now();
      StillBorrowed(s, t, root, TRAMPOLINE, TRAPFRAME);
      UvmUnmap(root, TRAPFRAME, 1, false);
      ghost var u := Now();
      OnlyItsOwn(s, t, u, root, Up(sz));
      UvmFree(root, sz);
      UnmappedFirst(t, u, Now(), root, TRAPFRAME);
      UnmappedFirst(s, t, Now(), root, TRAMPOLINE);
    }

    /** mappages for a single page: it is mapped, or no translation has changed. */
    method MapTop(ghost s: Memory, root: nat, v: nat, ppn: nat, perm: nat) returns (ok: bool)
      requires Life(s, Now(), root) == true && Place(root, 2, 0) in at && v < 0x400_0000
      requires IsLeaf(perm) && perm < 1024 && ppn < |pages| && Vacant(Now(), root, v) == true
      modifies this
      ensures Life(s, Now(), root) == true && Place(root, 2, 0) in at && |pages| == |old(pages)|
      ensures ok ==> Mapped(old(Now()), Now(), root, v, 1, ppn, Or1(perm)) == true && |free| + 2 >= |old(free)|
      ensures !ok ==> Mapped(old(Now()), Now(), root, v, 0, ppn, Or1(perm)) == true && |old(free)| <= 1
    {
      ghost var u := Now();
      ghost var done;
      assert Pages(v * 4096, 4096) == 1 && v * 4096 / 4096 == v && ppn * 4096 / 4096 == ppn;
      ok, done := Mappages(root, v * 4096, 4096, ppn * 4096, perm);
      LifeMapped(s, u, Now(), root, v, done, ppn, Or1(perm));
    }

    /** The way out of proc_pagetable: uvmfree of a tree without mappings. */
    method Abandon(ghost s: Memory, root: nat)
      requires Life(s, Now(), root) == true && Place(root, 2, 0) in at && Empty(Now(), root) == true
      modifies this
      ensures Restored(s, Now()) == true
    {
      ghost var u := Now();
      UvmFree(root, 0);
      LifeEnds(s, u, Now(), root);
    }

    /** The way out of proc_pagetable with the trampoline mapped. */
    method AbandonTop(ghost s: Memory, ghost a: Memory, ghost b: Memory, root: nat, ghost tramp: nat, ghost frame: nat)
      requires Life(s, Now(), root) == true && Place(root, 2, 0) in at
      requires Empty(a, root) == true && Mapped(a, b, root, TRAMPOLINE, 1, tramp, 11) == true
      requires Mapped(b, Now(), root, TRAPFRAME, 0, frame, 7) == true
      modifies this
      ensures Restored(s, Now()) == true
    {
      ghost var c := Now();
      HalfMade(a, b, c, root, tramp, frame);
      UvmUnmap(root, TRAMPOLINE, 1, false);
      LifeUnmapped(s, c, Now(), root, TRAMPOLINE, 1, false);
      HalfUnmade(a, b, c, Now(), root, tramp, frame);
      Abandon(s, root);
    }

    /** The second half of proc_pagetable, with the trampoline mapped. */
    method MapTrapframe(ghost s: Memory, ghost a: Memory, root: nat, ghost tramp: nat, frame: nat) returns (ok: bool)
      requires Life(s, Now(), root) == true && Place(root, 2, 0) in at && frame < |pages|
      requires Empty(a, root) == true && Mapped(a, Now(), root, TRAMPOLINE, 1, tramp, 11) == true
      requires Vacant(Now(), root, TRAPFRAME) == true
      modifies this
      ensures ok ==> Life(s, Now(), root) == true && NewProcess(Now(), root, tramp, frame) == true
      ensures !ok ==> Restored(s, Now()) == true && |old(free)| <= 1
      ensures ok ==> |free| + 2 >= |old(free)|
    {
      ghost var b := Now();
      ok := MapTop(s, root, TRAPFRAME, frame, 6);
      if ok {
        ProcessMade(a, b, Now(), root, tramp, frame);
      } else {
        AbandonTop(s, a, b, root, tramp, frame);
      }
    }

    /** proc_pagetable: a process without memory, or everything is as before. */
    method ProcPagetable(tramp: nat, frame: nat) returns (r: Option<nat>)
      requires Inv(Now()) && tramp < |pages| && frame < |pages|
      modifies this
      ensures r.Some? ==> Life(old(Now()), Now(), r.value) == true && NewProcess(Now(), r.value, tramp, frame) == true
      ensures r.None? ==> Restored(old(Now()), Now()) == true && |old(free)| < 5
      ensures r.Some? ==> |free| + 5 >= |old(free)|
    {
      ghost var s := Now();
      r := UvmCreate();
      if r.None? {
        return;
      }
      var root := r.value;
      ghost var a := Now();
      var ok := MapTop(s, root, TRAMPOLINE, tramp, 10);
      if !ok {
        StillEmpty(a, Now(), root, TRAMPOLINE, tramp, 11);
        Abandon(s, root);
        return None;
      }
      OneTop(a, Now(), root, tramp);
      ok := MapTrapframe(s, a, root, tramp, frame);
      if !ok {
        return None;
      }
    }
  }
}
