/** Names and link counts as create, sys_link, sys_unlink and iput change them. The inodes of the disk
    and the rows of the inode table are one sequence. What one process does while it has an inode
    locked is one method: a link is made in two, between which others may run. */
module Sysfile {
  import opened Options
  import opened Links
  import opened LinkSteps

  /** What create comes to: a new inode, one that was there, nothing, or a panic. */
  datatype Outcome = New(inum: nat) | Found(inum: nat) | Refused | NoInodes | NoType

  /** The first entry from k on that is in use and has this name. */
  function IndexFrom(es: seq<Dirent>, name: string, k: nat): (r: Option<nat>)
    requires k <= |es|
    ensures r.Some? ==> k <= r.value < |es| && es[r.value].inum != 0 && es[r.value].name == name
    ensures forall j :: k <= j < (if r.Some? then r.value else |es|) && es[j].inum != 0 ==> es[j].name != name
    decreases |es| - k
  {
    if k == |es| then None else if es[k].inum != 0 && es[k].name == name then Some(k) else IndexFrom(es, name, k + 1)
  }

  function IndexOf(es: seq<Dirent>, name: string): (r: Option<nat>) {
    IndexFrom(es, name, 0)
  }

  /** The first slot from k on that is not in use, or the end. */
  function SlotFrom(es: seq<Dirent>, k: nat): (r: nat)
    requires k <= |es|
    ensures k <= r <= |es| && (r < |es| ==> es[r].inum == 0) && forall j :: k <= j < r ==> es[j].inum != 0
    decreases |es| - k
  {
    if k < |es| && es[k].inum != 0 then SlotFrom(es, k + 1) else k
  }

  function SlotOf(es: seq<Dirent>): (r: nat) {
    SlotFrom(es, 0)
  }

  /** The loop of dirlookup. */
  method FindName(es: seq<Dirent>, name: string) returns (r: Option<nat>)
    ensures r == IndexOf(es, name)
  {
    var k := 0;
    while k < |es|
      invariant 0 <= k <= |es| && IndexFrom(es, name, k) == IndexOf(es, name)
    {
      if es[k].inum != 0 && es[k].name == name {
        return Some(k);
      }
      k := k + 1;
    }
    r := None;
  }

  /** The loop of dirlink. */
  method FindSlot(es: seq<Dirent>) returns (k: nat)
    ensures k == SlotOf(es)
  {
    k := 0;
    while k < |es| && es[k].inum != 0
      invariant 0 <= k <= |es| && SlotFrom(es, k) == SlotOf(es)
    {
      k := k + 1;
    }
  }

  /** isdirempty */
  method IsDirEmpty(es: seq<Dirent>) returns (empty: bool)
    ensures empty == Vacant(es)
  {
    var k := 2;
    while k < |es|
      invariant 2 <= k && forall j :: 2 <= j < k && j < |es| ==> es[j].inum == 0
    {
      if es[k].inum != 0 {
        return false;
      }
      k := k + 1;
    }
    empty := true;
  }

  /** A directory's entries with one more in the first free slot. */
  function Entered(es: seq<Dirent>, name: string, i: nat): (r: seq<Dirent>) {
    Added(es, SlotOf(es), Dirent(name, i))
  }

  /** The name is new in a directory, and the slot found is not one of the first two. */
  lemma FitsThere(es: seq<Dirent>, d: nat, n: nat, name: string, i: nat)
    requires DirOk(es, d, n) && d >= 1 && IndexOf(es, name).None?
    ensures Fits(es, SlotOf(es), Dirent(name, i))
  {
    assert es[0].inum != 0 && es[1].inum != 0;
  }

  /** What dirlookup finds. */
  function Lookup(es: seq<Dirent>, name: string): (r: Option<nat>) {
    var k := IndexOf(es, name);
    if k.None? then None else Some(es[k.value].inum)
  }

  /** After dirlink the name leads to the inode, and every other name to where it led. */
  lemma LinkThenLookup(es: seq<Dirent>, name: string, i: nat, other: string)
    requires IndexOf(es, name).None? && i != 0
    ensures Lookup(Entered(es, name, i), other) == if other == name then Some(i) else Lookup(es, other)
  {
    var k, r := SlotOf(es), Entered(es, name, i);
    assert r[k] == Dirent(name, i);
    assert forall j :: 0 <= j < |es| && j != k ==> r[j] == es[j];
  }

  /** After an entry has been cleared its name leads nowhere, and every other to where it led. */
  lemma UnlinkThenLookup(es: seq<Dirent>, k: nat, d: nat, n: nat, other: string)
    requires DirOk(es, d, n) && d != 0 && 2 <= k < |es| && es[k].inum != 0
    ensures Lookup(es[k := NOBODY], other) == if other == es[k].name then None else Lookup(es, other)
  {
    var r := es[k := NOBODY];
    assert forall j :: 0 <= j < |es| && j != k ==> r[j] == es[j];
    assert es[k].name !in [".", ".."];
  }

  /** The state after a new inode has been given a name. */
  function Born(t: seq<Inode>, d: nat, n: nat, name: string, kind: Kind): (r: seq<Inode>)
    requires d < |t| && n < |t|
  {
    if kind == Directory then Made(t, d, n, SlotOf(t[d].entries), Dirent(name, n))
    else t[n := Inode(kind, 1, [], t[n].ref + 1, true)][d := t[d].(entries := Entered(t[d].entries, name, n))]
  }

  /** What is then there: one link to an inode of the kind asked for, which the name leads to and no
      other name is disturbed by, and in a new directory `.` and `..`. */
  lemma BornIs(t: seq<Inode>, d: nat, n: nat, name: string, kind: Kind, other: string)
    requires d < |t| && 1 <= n < |t| && n != d && IndexOf(t[d].entries, name).None?
    ensures var r := Born(t, d, n, name, kind);
            && |r| == |t| && r[n].kind == kind && r[n].nlink == 1 && r[n].ref == t[n].ref + 1 && r[n].valid
            && r[n].entries == (if kind == Directory then [Dirent(".", n), Dirent("..", d)] else [])
            && Lookup(r[d].entries, other) == (if other == name then Some(n) else Lookup(t[d].entries, other))
            && r[d].nlink == t[d].nlink + (if kind == Directory then 1 else 0)
            && r[d].kind == t[d].kind && r[d].ref == t[d].ref && r[d].valid == t[d].valid
            && forall j :: 0 <= j < |t| && j != d && j != n ==> r[j] == t[j]
  {
    LinkThenLookup(t[d].entries, name, n, other);
    assert Born(t, d, n, name, kind)[d].entries == Entered(t[d].entries, name, n);
  }

  /** A new inode with a name leaves the counts right if and only if the directory has a link. */
  lemma BornIff(t: seq<Inode>, p: seq<nat>, d: nat, n: nat, name: string, kind: Kind)
    requires LinksOk(t, p) == true && 1 <= d < |t| && t[d].kind == Directory && 1 <= n < |t| && t[n].kind == Free
    requires kind != Free && IndexOf(t[d].entries, name).None?
    ensures LinksOk(Born(t, d, n, name, kind), p) == true <==> t[d].nlink > 0
  {
    var e := Dirent(name, n);
    ShapeAt(t, d);
    ShapeAt(t, n);
    FitsThere(t[d].entries, d, |t|, name, n);
    if kind == Directory {
      MkdirIff(t, p, d, n, SlotOf(t[d].entries), e);
    } else {
      Unnamed(t, p, n);
      var x := Inode(kind, 1, [], t[n].ref + 1, true);
      LeafOk(t, p, n, x, 1);
      AddIff(t[n := x], p[n := 1], d, SlotOf(t[d].entries), e);
      assert p[n := 1][n := 0] == p;
    }
  }

  /** The same when the caller has let go of the directory, which may free it. */
  lemma BornPutIff(t: seq<Inode>, p: seq<nat>, d: nat, n: nat, name: string, kind: Kind)
    requires LinksOk(t, p) == true && 1 <= d < |t| && t[d].kind == Directory && 1 <= n < |t| && t[n].kind == Free
    requires kind != Free && IndexOf(t[d].entries, name).None? && t[d].ref > 0
    ensures var u := Born(t, d, n, name, kind); LinksOk(u[d := Put(u[d])], p) == true <==> t[d].nlink > 0
  {
    var u := Born(t, d, n, name, kind);
    var w := u[d := Put(u[d])];
    BornIff(t, p, d, n, name, kind);
    if t[d].nlink > 0 {
      PutOk(u, p, d);
    } else if kind == Directory {
      assert w[d := u[d]] == u;
      if LinksOk(w, p) {
        RefsOk(w, p, d, u[d]);
      }
    } else {
      ShapeAt(t, n);
      Unnamed(t, p, n);
      Miscounted(t, p, w, p, d, n);
    }
  }

  /** A counted link goes into directory d, and the caller lets go of the directory and the inode. */
  function Entering(t: seq<Inode>, d: nat, name: string, i: nat): (r: seq<Inode>)
    requires d < |t| && i < |t| && i != d && t[d].ref > 0 && t[i].ref > 0
  {
    t[d := Put(t[d].(entries := Entered(t[d].entries, name, i)))][i := Put(t[i])]
  }

  lemma EnteringIff(t: seq<Inode>, p: seq<nat>, d: nat, name: string, i: nat)
    requires LinksOk(t, p) == true && 1 <= d < |t| && t[d].kind == Directory && IndexOf(t[d].entries, name).None?
    requires 1 <= i < |t| && i < |p| && t[i].kind != Directory && p[i] > 0 && t[d].ref > 0 && t[i].ref > 0
    ensures LinksOk(Entering(t, d, name, i), p[i := p[i] - 1]) == true <==> t[d].nlink > 0
  {
    var q := p[i := p[i] - 1];
    var u := t[d := t[d].(entries := Entered(t[d].entries, name, i))];
    var w := Entering(t, d, name, i);
    ShapeAt(t, d);
    ShapeAt(t, i);
    CountAt(t, p, i);
    FitsThere(t[d].entries, d, |t|, name, i);
    AddIff(t, p, d, SlotOf(t[d].entries), Dirent(name, i));
    if t[d].nlink > 0 {
      PutOk(u, q, d);
      PutOk(u[d := Put(u[d])], q, i);
      assert w == u[d := Put(u[d])][i := Put(u[i])];
    } else {
      Miscounted(t, p, w, q, d, i);
    }
  }

  /** The entry that sys_unlink takes away, if it may. */
  function Doomed(t: seq<Inode>, d: nat, name: string): (r: Option<nat>)
    requires d < |t|
  {
    var k := IndexOf(t[d].entries, name);
    if name in [".", ".."] || k.None? then None
    else
      var i := t[d].entries[k.value].inum;
      if i < |t| && t[i].kind == Directory && !Vacant(t[i].entries) then None else k
  }

  /** Entry k is in use, has the name, and is not that of a directory with anything in it. */
  predicate Clearable(t: seq<Inode>, d: nat, k: nat, name: string)
    requires d < |t|
  {
    && k < |t[d].entries| && t[d].entries[k].inum != 0 && t[d].entries[k].name == name
    && var i := t[d].entries[k].inum;
    i < |t| && t[i].kind == Directory ==> forall j :: 2 <= j < |t[i].entries| ==> t[i].entries[j].inum == 0
  }

  lemma DoomedIff(t: seq<Inode>, p: seq<nat>, d: nat, name: string)
    requires LinksOk(t, p) == true && 1 <= d < |t| && t[d].kind == Directory
    ensures Doomed(t, d, name).Some? <==> name !in [".", ".."] && exists k: nat :: Clearable(t, d, k, name)
    ensures Doomed(t, d, name).Some? ==> Clearable(t, d, Doomed(t, d, name).value, name)
  {
    ShapeAt(t, d);
    if Doomed(t, d, name).Some? {
      assert Clearable(t, d, Doomed(t, d, name).value, name);
    }
    if name !in [".", ".."] && exists k: nat :: Clearable(t, d, k, name) {
      var k: nat :| Clearable(t, d, k, name);
      assert IndexOf(t[d].entries, name) == Some(k);
    }
  }

  /** The state after that, but for references. */
  function Gone(t: seq<Inode>, d: nat, k: nat): (r: seq<Inode>)
    requires d < |t| && k < |t[d].entries| && t[d].entries[k].inum < |t|
    requires t[d].nlink >= 1 && t[t[d].entries[k].inum].nlink >= 1
  {
    var i := t[d].entries[k].inum;
    if t[i].kind == Directory then Unmade(t, d, i, k)
    else t[d := t[d].(entries := t[d].entries[k := NOBODY])][i := t[i].(nlink := t[i].nlink - 1)]
  }

  /** The entry found by another name than `.` and `..` is in a linked directory and names an inode that
      has links. */
  lemma Live(t: seq<Inode>, p: seq<nat>, d: nat, name: string)
    requires LinksOk(t, p) == true && 1 <= d < |t| && t[d].kind == Directory
    requires name !in [".", ".."] && IndexOf(t[d].entries, name).Some?
    ensures Linked(t[d])
    ensures var k := IndexOf(t[d].entries, name).value;
            var i := t[d].entries[k].inum;
            2 <= k && 1 <= i < |t| && i != d && t[i].kind != Free && t[i].nlink >= 1
  {
    var k := IndexOf(t[d].entries, name).value;
    var i := t[d].entries[k].inum;
    ShapeAt(t, d);
    ShapeAt(t, i);
    assert Upward(t, d, k);
    Counted(t, d, k, i);
    CountAt(t, p, i);
  }

  lemma GoneOk(t: seq<Inode>, p: seq<nat>, d: nat, k: nat)
    requires LinksOk(t, p) == true && 1 <= d < |t| && Linked(t[d]) && 2 <= k < |t[d].entries|
    requires var i := t[d].entries[k].inum;
             1 <= i < |t| && i != d && t[i].nlink >= 1 && (t[i].kind == Directory ==> Vacant(t[i].entries))
    ensures LinksOk(Gone(t, d, k), p) == true && Gone(t, d, k)[d].nlink >= 1
  {
    var i := t[d].entries[k].inum;
    if t[i].kind == Directory {
      RmdirFacts(t, p, d, i, k);
      RmdirOk(t, p, d, i, k);
    } else {
      EraseOk(t, p, d, k);
      var t' := t[d := t[d].(entries := t[d].entries[k := NOBODY])];
      ShapeAt(t, i);
      LeafOk(t', p[i := p[i] + 1], i, t[i].(nlink := t[i].nlink - 1), p[i]);
      assert p[i := p[i] + 1][i := p[i]] == p;
    }
  }

  /** create of a name that is that of inode i: a file or device is opened as a file, a free inode is a
      panic, and anything else is refused; the reference to d is given back, and the one taken to i,
      unless it is opened. */
  ghost predicate Opened(t: seq<Inode>, t': seq<Inode>, d: nat, i: nat, kind: Kind, r: Outcome) {
    && |t'| == |t| && d < |t| && 1 <= i < |t| && t[d].ref > 0
    && (r == NoType <==> t[i].kind == Free)
    && (r == Found(i) <==> kind == File && t[i].kind in {File, Device})
    && r in {NoType, Found(i), Refused}
    && (r != NoType ==>
          var x := t[i].(ref := t[i].ref + 1, valid := true);
          && t'[d] == Put(t[d])
          && (i != d ==> t'[i] == if r == Refused then Put(x) else x)
          && forall j :: 0 <= j < |t| && j != d && j != i ==> t'[j] == t[j])
  }

  /** An entry in use leads to an inode that is not free, unless it is the `..` of a directory without
      links. */
  lemma Reached(t: seq<Inode>, p: seq<nat>, d: nat, k: nat)
    requires LinksOk(t, p) == true && 1 <= d < |t| && t[d].kind == Directory
    requires k < |t[d].entries| && t[d].entries[k].inum != 0
    ensures 1 <= t[d].entries[k].inum < |t|
    ensures t[t[d].entries[k].inum].kind == Free ==> k == 1 && t[d].nlink == 0
    ensures k != 0 && t[t[d].entries[k].inum].nlink == 0 ==> k == 1 && t[d].nlink == 0
  {
    var i := t[d].entries[k].inum;
    ShapeAt(t, d);
    ShapeAt(t, i);
    if k > 0 && t[d].nlink > 0 {
      Counted(t, d, k, i);
      CountAt(t, p, i);
    }
  }

  /** Only the reference to d has gone. */
  ghost predicate RefsOnly(t: seq<Inode>, t': seq<Inode>, d: nat) {
    && |t'| == |t| && d < |t| && t[d].ref > 0 && t'[d] == Put(t[d])
    && forall j :: 0 <= j < |t| && j != d ==> SameLinks(t'[j], t[j])
  }

  /** Entry k of directory d is cleared, and the inode it named, which may have been the last reference to
      it, has one link less; so has d, if it was the parent. */
  ghost predicate TakenAway(t: seq<Inode>, t': seq<Inode>, d: nat, k: nat) {
    && |t'| == |t| && d < |t| && t[d].nlink >= 1 && t[d].ref > 0 && k < |t[d].entries|
    && var i := t[d].entries[k].inum;
    && 1 <= i < |t| && i != d && t[i].nlink >= 1
    && t'[d] == Put(t[d].(nlink := if t[i].kind == Directory then t[d].nlink - 1 else t[d].nlink,
                          entries := t[d].entries[k := NOBODY]))
    && t'[i] == Put(t[i].(nlink := t[i].nlink - 1, ref := t[i].ref + 1, valid := true))
    && forall j :: 0 <= j < |t| && j != d && j != i ==> t'[j] == t[j]
  }

  lemma TakenFrom(t: seq<Inode>, u: seq<Inode>, d: nat, k: nat, i: nat)
    requires d < |t| && 1 <= i < |t| && i != d && t[d].nlink >= 1 && t[d].ref > 0 && t[i].nlink >= 1
    requires k < |t[d].entries| && t[d].entries[k].inum == i
    requires u == t[i := t[i].(ref := t[i].ref + 1, valid := true)]
    ensures var v := Gone(u, d, k); TakenAway(t, v[d := Put(v[d])][i := Put(v[i])], d, k) == true
  {
  }

  class FileTree {
    var inodes: seq<Inode>
    /** For each inode, the links to it that have been counted but are not in a directory yet. */
    ghost var pending: seq<nat>

    ghost predicate Valid()
      reads this
    {
      LinksOk(inodes, pending) == true
    }

    /** A file system with nothing but its root directory. */
    constructor (n: nat)
      requires n > ROOT
      ensures Valid() && inodes == Fresh(n) && pending == seq(n, i => 0)
    {
      inodes, pending := Fresh(n), seq(n, i => 0);
      new;
      FreshOk(n);
    }

    /** The caller has a reference to i, and i has been read by ilock. */
    ghost predicate Held(i: nat)
      reads this
    {
      1 <= i < |inodes| && inodes[i].ref > 0 && inodes[i].kind != Free && inodes[i].valid
    }

    /** iput: an inode without links is freed with the last reference to it. */
    method Iput(i: nat)
      requires 1 <= i < |inodes| && inodes[i].ref > 0
      modifies this`inodes
      ensures inodes == old(inodes)[i := Put(old(inodes[i]))]
      ensures inodes[i].ref == old(inodes[i].ref) - 1
      ensures if old(inodes[i].ref == 1 && inodes[i].valid && inodes[i].nlink == 0) then inodes[i].kind == Free
              else SameLinks(inodes[i], old(inodes[i])) && inodes[i].valid == old(inodes[i].valid)
      ensures old(Valid()) ==> Valid()
    {
      ghost var t := inodes;
      if inodes[i].ref == 1 && inodes[i].valid && inodes[i].nlink == 0 {
        inodes := inodes[i := Inode(Free, 0, [], 1, false)];
      }
      inodes := inodes[i := inodes[i].(ref := inodes[i].ref - 1)];
      assert inodes == t[i := Put(t[i])];
      if LinksOk(t, pending) {
        PutOk(t, pending, i);
      }
    }

    /** iget: one more reference. */
    method Iget(i: nat)
      requires 1 <= i < |inodes|
      modifies this`inodes
      ensures inodes == old(inodes)[i := old(inodes[i]).(ref := old(inodes[i].ref) + 1,
                                                         valid := old(inodes[i].ref > 0 && inodes[i].valid))]
      ensures old(Valid()) ==> Valid()
    {
      ghost var t := inodes;
      if inodes[i].ref == 0 {
        inodes := inodes[i := inodes[i].(valid := false)];
      }
      inodes := inodes[i := inodes[i].(ref := inodes[i].ref + 1)];
      assert inodes == t[i := inodes[i]];
      if LinksOk(t, pending) {
        RefsOk(t, pending, i, inodes[i]);
      }
    }

    /** ilock reads the inode, if it is not free. */
    method Ilock(i: nat)
      requires 1 <= i < |inodes| && inodes[i].ref > 0 && inodes[i].kind != Free
      modifies this`inodes
      ensures inodes == old(inodes)[i := old(inodes[i]).(valid := true)]
      ensures old(Valid()) ==> Valid()
    {
      var x := inodes[i].(valid := true);
      if LinksOk(inodes, pending) {
        RefsOk(inodes, pending, i, x);
      }
      inodes := inodes[i := x];
    }

    method GetLocked(i: nat)
      requires Valid() && 1 <= i < |inodes| && inodes[i].kind != Free
      modifies this`inodes
      ensures Valid() && inodes == old(inodes)[i := old(inodes[i]).(ref := old(inodes[i].ref) + 1, valid := true)]
    {
      Iget(i);
      Ilock(i);
    }

    /** ialloc: the first free inode gets a type. */
    method Ialloc(kind: Kind) returns (r: Option<nat>)
      requires |inodes| >= 1
      modifies this`inodes
      ensures r.None? ==> inodes == old(inodes) && forall j :: 1 <= j < |inodes| ==> inodes[j].kind != Free
      ensures r.Some? ==> 1 <= r.value < |old(inodes)| && old(inodes)[r.value].kind == Free
      ensures r.Some? ==> forall j :: 1 <= j < r.value ==> old(inodes)[j].kind != Free
      ensures r.Some? ==> inodes == old(inodes)[r.value := Inode(kind, 0, [], old(inodes)[r.value].ref + 1, false)]
    {
      var n := 1;
      while n < |inodes|
        invariant 1 <= n <= |inodes| && inodes == old(inodes)
        invariant forall j :: 1 <= j < n ==> inodes[j].kind != Free
      {
        if inodes[n].kind == Free {
          inodes := inodes[n := Inode(kind, 0, [], inodes[n].ref + 1, false)];
          return Some(n);
        }
        n := n + 1;
      }
      r := None;
    }

    /** The first half of sys_link: the new link is counted before it is in any directory. */
    method LinkBegin(i: nat) returns (ok: bool)
      requires Valid() && Held(i)
      modifies this
      ensures Valid() && ok == (old(inodes[i].kind) != Directory)
      ensures ok ==> inodes == old(inodes)[i := old(inodes[i]).(nlink := old(inodes[i].nlink) + 1)]
      ensures ok ==> i < |old(pending)| && pending == old(pending)[i := old(pending[i]) + 1]
      ensures !ok ==> inodes == old(inodes)[i := Put(old(inodes[i]))] && pending == old(pending)
    {
      if inodes[i].kind == Directory {
        Iput(i);
        return false;
      }
      ShapeAt(inodes, i);
      var x := inodes[i].(nlink := inodes[i].nlink + 1);
      LeafOk(inodes, pending, i, x, pending[i] + 1);
      inodes, pending := inodes[i := x], pending[i := pending[i] + 1];
      ok := true;
    }

    /** dirlink: write an entry if there is none of that name. */
    method DirLink(d: nat, name: string, i: nat) returns (ok: bool)
      requires d < |inodes|
      modifies this`inodes
      ensures ok == IndexOf(old(inodes[d].entries), name).None?
      ensures ok ==>
                inodes == old(inodes)[d := old(inodes[d]).(entries := Entered(old(inodes[d].entries), name, i))]
      ensures !ok ==> inodes == old(inodes)
    {
      var es := inodes[d].entries;
      var there := FindName(es, name);
      if there.Some? {
        return false;
      }
      var k := FindSlot(es);
      inodes := inodes[d := inodes[d].(entries := Added(es, k, Dirent(name, i)))];
      ok := true;
    }

    /** The link is given up. */
    method Uncount(i: nat)
      requires Valid() && Held(i) && i < |pending| && pending[i] > 0 && inodes[i].kind != Directory
      modifies this
      ensures Valid() && old(inodes[i].nlink) > 0 && pending == old(pending)[i := old(pending[i]) - 1]
      ensures inodes == old(inodes)[i := old(inodes[i]).(nlink := old(inodes[i].nlink) - 1)]
    {
      ShapeAt(inodes, i);
      CountAt(inodes, pending, i);
      var x := inodes[i].(nlink := inodes[i].nlink - 1);
      LeafOk(inodes, pending, i, x, pending[i] - 1);
      inodes, pending := inodes[i := x], pending[i := pending[i] - 1];
    }

    /** The second half: the link goes into directory d, or is given up. */
    method LinkEnd(i: nat, d: Option<nat>, name: string) returns (ok: bool)
      requires Valid() && Held(i) && i < |pending| && pending[i] > 0
      requires d.Some? ==> Held(d.value) && inodes[d.value].kind == Directory
      modifies this
      ensures ok <==> d.Some? && IndexOf(old(inodes[d.value].entries), name).None?
      ensures pending == old(pending)[i := old(pending[i]) - 1]
      ensures Valid() <==> !ok || old(inodes[d.value].nlink) > 0
      ensures |inodes| == |old(inodes)|
      ensures ok ==> inodes[i] == Put(old(inodes[i])) && inodes[i].nlink == old(inodes[i].nlink)
      ensures ok ==> inodes[d.value] == Put(old(inodes[d.value]).(
                                              entries := Entered(old(inodes[d.value].entries), name, i)))
      ensures !ok ==> old(inodes[i].nlink) > 0 &&
                      inodes[i] == Put(old(inodes[i]).(nlink := old(inodes[i].nlink) - 1))
      ensures !ok && d.Some? ==> inodes[d.value] == Put(old(inodes[d.value]))
      ensures forall j :: 0 <= j < |inodes| && j != i && Some(j) != d ==> inodes[j] == old(inodes[j])
    {
      ghost var t, p := inodes, pending;
      ShapeAt(t, i);
      CountAt(t, p, i);
      ok := false;
      if d.Some? {
        ShapeAt(t, d.value);
        ok := DirLink(d.value, name, i);
        if ok {
          EnteringIff(t, p, d.value, name, i);
          pending := p[i := p[i] - 1];
        }
        Iput(d.value);
      }
      if !ok {
        Uncount(i);
      }
      Iput(i);
      assert ok ==> inodes == Entering(t, d.value, name, i);
    }

    /** sys_unlink from where the entry is cleared. */
    method Remove(d: nat, k: nat, i: nat)
      requires Valid() && Held(d) && Held(i) && i != d && Linked(inodes[d]) && 2 <= k < |inodes[d].entries|
      requires inodes[d].entries[k].inum == i && inodes[i].nlink >= 1
      requires inodes[i].kind == Directory ==> Vacant(inodes[i].entries)
      modifies this`inodes
      ensures Valid()
      ensures var v := Gone(old(inodes), d, k);
              v[d].ref > 0 && v[i].ref > 0 && inodes == v[d := Put(v[d])][i := Put(v[i])]
    {
      ghost var v := Gone(inodes, d, k);
      GoneOk(inodes, pending, d, k);
      PutOk(v, pending, d);
      inodes := inodes[d := inodes[d].(entries := inodes[d].entries[k := NOBODY])];
      if inodes[i].kind == Directory {
        inodes := inodes[d := inodes[d].(nlink := inodes[d].nlink - 1)];
      }
      Iput(d);
      inodes := inodes[i := inodes[i].(nlink := inodes[i].nlink - 1)];
      assert inodes == v[d := Put(v[d])];
      Iput(i);
    }

    /** sys_unlink, when the name is there. */
    method RemoveUnlessFull(d: nat, k: nat, i: nat) returns (ok: bool)
      requires Valid() && Held(d) && Linked(inodes[d]) && 2 <= k < |inodes[d].entries|
      requires inodes[d].entries[k].inum == i && 1 <= i < |inodes| && i != d && inodes[i].kind != Free &&
                inodes[i].nlink >= 1
      modifies this`inodes
      ensures Valid() && ok == !(old(inodes[i].kind) == Directory && !Vacant(old(inodes[i].entries)))
      ensures |inodes| == |old(inodes)|
      ensures !ok ==> RefsOnly(old(inodes), inodes, d) == true
      ensures ok ==> TakenAway(old(inodes), inodes, d, k) == true
    {
      ghost var t := inodes;
      GetLocked(i);
      var empty := IsDirEmpty(inodes[i].entries);
      if inodes[i].kind == Directory && !empty {
        Iput(i);
        Iput(d);
        return false;
      }
      TakenFrom(t, inodes, d, k, i);
      Remove(d, k, i);
      ok := true;
    }

    /** sys_unlink */
    method Unlink(d: nat, name: string) returns (ok: bool)
      requires Valid() && Held(d) && inodes[d].kind == Directory
      modifies this`inodes
      ensures Valid() && |inodes| == |old(inodes)|
      ensures ok <==> name !in [".", ".."] && exists k: nat :: Clearable(old(inodes), d, k, name)
      ensures ok == Doomed(old(inodes), d, name).Some?
      ensures !ok ==> RefsOnly(old(inodes), inodes, d) == true
      ensures ok ==> TakenAway(old(inodes), inodes, d, Doomed(old(inodes), d, name).value) == true
      ensures ok ==> Clearable(old(inodes), d, Doomed(old(inodes), d, name).value, name)
    {
      DoomedIff(inodes, pending, d, name);
      var es := inodes[d].entries;
      var found := FindName(es, name);
      if name == "." || name == ".." || found.None? {
        Iput(d);
        return false;
      }
      Live(inodes, pending, d, name);
      ok := RemoveUnlessFull(d, found.value, es[found.value].inum);
    }

    /** A new inode for create, with its links counted and its own entries, and its name. */
    method Bear(d: nat, name: string, kind: Kind) returns (r: Option<nat>)
      requires Valid() && Held(d) && inodes[d].kind == Directory && kind != Free
      requires IndexOf(inodes[d].entries, name).None?
      modifies this`inodes
      ensures r.None? ==> inodes == old(inodes)
      ensures r.None? <==> forall j :: 1 <= j < |old(inodes)| ==> old(inodes)[j].kind != Free
      ensures r.Some? ==> 1 <= r.value < |old(inodes)| && old(inodes)[r.value].kind == Free
      ensures r.Some? ==> forall j :: 1 <= j < r.value ==> old(inodes)[j].kind != Free
      ensures r.Some? ==> inodes == Born(old(inodes), d, r.value, name, kind)
      ensures r.Some? ==> (Valid() <==> old(inodes[d].nlink) > 0)
    {
      ghost var t := inodes;
      r := Ialloc(kind);
      if r.None? {
        return;
      }
      var n := r.value;
      inodes := inodes[n := inodes[n].(nlink := 1, valid := true)];
      if kind == Directory {
        inodes := inodes[d := inodes[d].(nlink := inodes[d].nlink + 1)];
        var dot := DirLink(n, ".", n);
        var dots := DirLink(n, "..", d);
        assert inodes[n].entries == [Dirent(".", n), Dirent("..", d)];
      }
      var named := DirLink(d, name, n);
      assert inodes == Born(t, d, n, name, kind);
      BornIff(t, pending, d, n, name, kind);
    }

    /** create */
    method Create(d: nat, name: string, kind: Kind) returns (r: Outcome)
      requires Valid() && Held(d) && inodes[d].kind == Directory && kind != Free
      modifies this`inodes
      ensures |inodes| == |old(inodes)|
      ensures (r.New? || r.NoInodes?) == IndexOf(old(inodes[d].entries), name).None?
      ensures r.NoInodes? ==> inodes == old(inodes) && forall j :: 1 <= j < |inodes| ==> inodes[j].kind != Free
      ensures r.NoType? ==> old(inodes[d].nlink) == 0 && name == ".."
      ensures r.New? ==> 1 <= r.inum < |old(inodes)| && old(inodes)[r.inum].kind == Free && r.inum != d
      ensures r.New? ==> forall j :: 1 <= j < r.inum ==> old(inodes)[j].kind != Free
      ensures r.New? ==> var t := Born(old(inodes), d, r.inum, name, kind); inodes == t[d := Put(t[d])]
      ensures Valid() <==> !r.New? || old(inodes[d].nlink) > 0
      ensures IndexOf(old(inodes[d].entries), name).Some? ==>
                var k := IndexOf(old(inodes[d].entries), name).value;
                Opened(old(inodes), inodes, d, old(inodes[d].entries)[k].inum, kind, r) == true
    {
      var found := FindName(inodes[d].entries, name);
      if found.Some? {
        ShapeAt(inodes, d);
        r := Existing(d, found.value, kind);
        return;
      }
      ghost var t := inodes;
      var n := Bear(d, name, kind);
      if n.None? {
        return NoInodes;
      }
      BornPutIff(t, pending, d, n.value, name, kind);
      Iput(d);
      r := New(n.value);
    }

    /** create, when the name is there. */
    method Existing(d: nat, k: nat, kind: Kind) returns (r: Outcome)
      requires Valid() && Held(d) && inodes[d].kind == Directory && k < |inodes[d].entries|
      requires inodes[d].entries[k].inum != 0
      modifies this`inodes
      ensures Valid() && |inodes| == |old(inodes)| && (r.Found? || r.Refused? || r.NoType?)
      ensures r.NoType? ==> old(inodes[d].nlink) == 0 && k == 1
      ensures Opened(old(inodes), inodes, d, old(inodes[d].entries)[k].inum, kind, r) == true
    {
      ghost var t := inodes;
      var i := inodes[d].entries[k].inum;
      Reached(t, pending, d, k);
      Iget(i);
      Iput(d);
      if inodes[i].kind == Free {
        return NoType;
      }
      Ilock(i);
      if kind == File && (inodes[i].kind == File || inodes[i].kind == Device) {
        return Found(i);
      }
      Iput(i);
      r := Refused;
    }
  }

  // ---------- a name that is lost ----------

  const UNUSED := Inode(Free, 0, [], 0, false)
  const DOTS := [Dirent(".", ROOT), Dirent("..", ROOT)]

  /** A directory is made, and removed again while a process is in it. */
  method RemoveUsed() returns (f: FileTree)
    ensures fresh(f) && f.Valid() && f.pending == [0, 0, 0, 0]
    ensures f.inodes == [UNUSED, Inode(Directory, 1, DOTS + [NOBODY], 0, true),
                         Inode(Directory, 0, [Dirent(".", 2), Dirent("..", ROOT)], 1, true), UNUSED]
  {
    f := new FileTree(4);
    f.GetLocked(ROOT);
    assert f.inodes == [UNUSED, Inode(Directory, 1, DOTS, 1, true), UNUSED, UNUSED];
    NotThere(DOTS, "d");
    ghost var t := f.inodes;
    assert t[ROOT].kind != Free && t[2].kind == Free;
    var made := f.Create(ROOT, "d", Directory);
    assert made == New(2);
    assert f.inodes[2].entries == [Dirent(".", 2), Dirent("..", ROOT)];
    assert f.inodes[ROOT].entries == DOTS + [Dirent("d", 2)];
    assert f.inodes == [UNUSED, Inode(Directory, 2, DOTS + [Dirent("d", 2)], 0, true),
                        Inode(Directory, 1, [Dirent(".", 2), Dirent("..", ROOT)], 1, true), UNUSED];
    f.GetLocked(ROOT);
    assert f.inodes == [UNUSED, Inode(Directory, 2, DOTS + [Dirent("d", 2)], 1, true),
                        Inode(Directory, 1, [Dirent(".", 2), Dirent("..", ROOT)], 1, true), UNUSED];
    OnlyThere(DOTS, "d", 2);
    ghost var u := f.inodes;
    assert Doomed(u, ROOT, "d") == Some(2);
    var removed := f.Unlink(ROOT, "d");
    assert (DOTS + [Dirent("d", 2)])[2 := NOBODY] == DOTS + [NOBODY];
    assert f.inodes[0] == u[0] && f.inodes[3] == u[3];
  }

  lemma NotThere(es: seq<Dirent>, name: string)
    requires forall j :: 0 <= j < |es| ==> es[j].inum != 0 && es[j].name != name
    ensures IndexOf(es, name) == None && SlotOf(es) == |es|
  {
  }

  lemma OnlyThere(es: seq<Dirent>, name: string, i: nat)
    requires i != 0 && forall j :: 0 <= j < |es| ==> es[j].name != name
    ensures IndexOf(es + [Dirent(name, i)], name) == Some(|es|)
  {
    assert (es + [Dirent(name, i)])[|es|] == Dirent(name, i);
  }

  /** A process that stays in a directory while it is removed, and makes a file there, leaves an inode
      that has a link but no name anywhere. */
  method LoseName() returns (f: FileTree)
    ensures fresh(f) && !f.Valid() && |f.inodes| == 4 && f.pending == [0, 0, 0, 0]
    ensures f.inodes[2].kind == Free && f.inodes[3].kind == File && f.inodes[3].nlink == 1 && f.inodes[3].ref == 0
    ensures Names(f.inodes, 3) == 0
  {
    f := RemoveUsed();
    f.GetLocked(2);
    NotThere(f.inodes[2].entries, "x");
    ghost var t := f.inodes;
    assert t[ROOT].kind != Free && t[2].kind != Free && t[3].kind == Free;
    var lost := f.Create(2, "x", File);
    assert lost == New(3);
    f.Iput(3);
    f.Iput(2);
    NoneIn(f.inodes[ROOT].entries, 3);
    SumZero(Rows(f.inodes, 3));
    SumZero(Ups(f.inodes, 3));
    assert f.inodes[3].nlink != Names(f.inodes, 3) + Dots(f.inodes, 3) + f.pending[3];
  }
}
