/** The memory of processes from proc_pagetable to proc_freepagetable: any number of them that are
    made, grow, shrink, fork and end in any order. */
module Processes {
  import opened Options
  import opened Sv39
  import opened Spaces
  import opened Lives
  import opened Families
  import opened Vm

  /** The process with this root has sz bytes, an unsigned int. */
  ghost predicate Alive(u: Memory, root: nat, sz: nat) {
    Inv(u) && Place(root, 2, 0) in u.at && sz < 0x1_0000_0000 && Process(u, root, Up(sz)) == true
  }

  ghost predicate AllAlive(u: Memory, sizes: map<nat, nat>) {
    forall r {:trigger sizes[r]} :: r in sizes ==> Alive(u, r, sizes[r]) == true
  }

  /** The processes of the table, and nothing else, have come into being since s. */
  ghost predicate Household(s: Memory, u: Memory, sizes: map<nat, nat>) {
    Others(s, u, sizes.Keys) == true && AllAlive(u, sizes) == true
  }

  lemma HouseholdStart(s: Memory)
    requires Inv(s)
    ensures Household(s, s, map[])
  {
  }

  /** One process, or a new one, changes. */
  lemma HouseholdStep(s: Memory, u: Memory, w: Memory, sizes: map<nat, nat>, root: nat, sz: nat)
    requires Household(s, u, sizes) && OnlyRoot(u, w, root) == true && Alive(w, root, sz) == true
    requires root in sizes || NewRoot(s, root) == true
    ensures Household(s, w, sizes[root := sz]) == true
  {
    OthersMore(s, u, w, sizes, root, sz);
    AliveStep(u, w, sizes, root, sz);
  }

  lemma OthersMore(s: Memory, u: Memory, w: Memory, sizes: map<nat, nat>, root: nat, sz: nat)
    requires Others(s, u, sizes.Keys) == true && OnlyRoot(u, w, root) == true
    requires root in sizes || NewRoot(s, root) == true
    ensures Others(s, w, sizes[root := sz].Keys) == true
  {
    OthersStep(s, u, w, sizes.Keys, root);
    assert sizes[root := sz].Keys == sizes.Keys + {root};
  }

  lemma AliveStep(u: Memory, w: Memory, sizes: map<nat, nat>, root: nat, sz: nat)
    requires AllAlive(u, sizes) && OnlyRoot(u, w, root) == true && Alive(w, root, sz) == true
    ensures AllAlive(w, sizes[root := sz]) == true
  {
    var more := sizes[root := sz];
    forall r | r in more
      ensures Alive(w, r, more[r]) == true
    {
      if r != root {
        AliveStays(u, w, root, r, sizes[r]);
      }
    }
  }

  lemma AliveStays(u: Memory, w: Memory, root: nat, r: nat, sz: nat)
    requires OnlyRoot(u, w, root) == true && r != root && Alive(u, r, sz) == true
    ensures Alive(w, r, sz) == true
  {
    ProcessStays(u, w, root, r, Up(sz));
    assert Place(r, 2, 0) in w.at;
  }

  lemma HouseholdEnd(s: Memory, u: Memory, w: Memory, sizes: map<nat, nat>, root: nat)
    requires Household(s, u, sizes) && root in sizes && Dismantled(u, w, root) == true
    ensures Household(s, w, sizes - {root}) == true
  {
    OthersEnd(s, u, w, sizes.Keys, root);
    assert (sizes - {root}).Keys == sizes.Keys - {root};
    AliveEnd(u, w, sizes, root);
  }

  lemma AliveEnd(u: Memory, w: Memory, sizes: map<nat, nat>, root: nat)
    requires AllAlive(u, sizes) && Dismantled(u, w, root) == true
    ensures AllAlive(w, sizes - {root}) == true
  {
    EndedOnly(u, w, root);
    forall r | r in sizes - {root}
      ensures Alive(w, r, sizes[r]) == true
    {
      AliveStays(u, w, root, r, sizes[r]);
    }
  }

  /** A root that has just come into being is not one that was there at first. */
  lemma BornNew(s: Memory, u: Memory, w: Memory, sizes: map<nat, nat>, root: nat)
    requires Household(s, u, sizes) && Life(u, w, root) == true
    ensures NewRoot(s, root) == true && root !in sizes
  {
    assert SameAt(s.at, u.at, sizes.Keys);
    assert AllAlive(u, sizes);
    if root in sizes {
      RootAlive(u, sizes, root);
    }
  }

  lemma RootAlive(u: Memory, sizes: map<nat, nat>, root: nat)
    requires root in sizes && Alive(u, root, sizes[root]) == true
    ensures Place(root, 2, 0) in u.at
  {
  }

  /** uvmalloc, or uvmcopy into a process without memory. */
  lemma AliveGained(u: Memory, w: Memory, root: nat, sz: nat, wants: seq<Want>, newsz: nat)
    requires Alive(u, root, sz) == true && Gained(u, w, root, Up(sz), wants) == true
    requires newsz < 0x1_0000_0000 && Up(newsz) == Up(sz) + |wants|
    ensures OnlyRoot(u, w, root) == true && Alive(w, root, newsz) == true
  {
    GainedOnly(u, w, root, Up(sz), wants);
    ProcessGained(u, w, root, Up(sz), wants);
  }

  lemma AliveFilled(u: Memory, w: Memory, root: nat, wants: seq<Want>, newsz: nat)
    requires Alive(u, root, 0) == true && Gained(u, w, root, 0, wants) == true
    requires newsz < 0x1_0000_0000 && Up(newsz) == |wants|
    ensures OnlyRoot(u, w, root) == true && Alive(w, root, newsz) == true
  {
    assert Up(0) == 0;
    AliveGained(u, w, root, 0, wants, newsz);
  }

  lemma AliveWalked(u: Memory, w: Memory, root: nat, sz: nat)
    requires Alive(u, root, sz) == true && Walked(u, w, root) == true
    ensures OnlyRoot(u, w, root) == true && Alive(w, root, sz) == true
  {
    WalkedOnly(u, w, root);
    ProcessWalked(u, w, root, Up(sz));
  }

  lemma AliveUnmapped(u: Memory, w: Memory, root: nat, sz: nat, newsz: nat, k: nat)
    requires Alive(u, root, sz) == true && newsz <= sz && Unmapped(u, w, root, Up(newsz), k, true) == true
    requires Up(newsz) + k == Up(sz)
    ensures OnlyRoot(u, w, root) == true && Alive(w, root, newsz) == true
  {
    UnmappedOnly(u, w, root, Up(newsz), k);
    ProcessUnmapped(u, w, root, Up(sz), Up(newsz), k);
  }

  /** Above a process, up to any size as an unsigned int, nothing is mapped. */
  lemma AliveRoom(u: Memory, root: nat, sz: nat, newsz: nat)
    requires Alive(u, root, sz) == true && newsz < 0x1_0000_0000
    ensures TreesOk(u) && Unused(u, root, Up(sz), Between(sz, newsz)) == true
  {
    assert Process(u, root, Up(sz));
  }

  /** Below, everything is. */
  lemma AliveMapped(u: Memory, root: nat, sz: nat, newsz: nat)
    requires Alive(u, root, sz) == true
    ensures TreesOk(u) && Copyable(u, root, Up(sz)) == true
    ensures forall v: nat {:trigger Present(u, root, v, true)} :: Up(newsz) <= v < Up(sz) ==> Present(u, root, v, true)
  {
    assert Process(u, root, Up(sz));
    ProcessCopyable(u, root, Up(sz));
  }

  /** A process of sz bytes can be reached at exactly the addresses below sz and in the rest of its last
      page, up to the two pages at the top; every one of its pages is its own. */
  lemma AliveBytes(u: Memory, root: nat, sz: nat, a: nat)
    requires Alive(u, root, sz) && a < 4096 * TRAPFRAME
    ensures var w := Translate(u.pages, root, a / 4096);
            && (IsValid(w) <==> 4096 * (a / 4096) < sz)
            && (a < sz ==> w / 1024 < |u.role| && u.role[w / 1024] == Frame(Slot(root, a / 4096)))
  {
    PageOf(a, sz);
    TranslateIsPte(u, root, a / 4096);
    assert Process(u, root, Up(sz));
  }

  /** After fork parent and child have the same contents and permissions at each address below sz, in
      different pages of memory. */
  lemma ForkBytes(u: Memory, parent: nat, child: nat, sz: nat, a: nat)
    requires Alive(u, parent, sz) && Alive(u, child, sz) && Twins(u, parent, child, Up(sz)) && a < sz
    ensures var p, c := Translate(u.pages, parent, a / 4096), Translate(u.pages, child, a / 4096);
            && p / 1024 < |u.pages| && c / 1024 < |u.pages| && p / 1024 != c / 1024
            && p % 1024 == c % 1024 && u.pages[p / 1024] == u.pages[c / 1024]
  {
    UpMonotone(sz, sz);
    PageOf(a, sz);
    AliveBytes(u, parent, sz, a);
    AliveBytes(u, child, sz, a);
    TranslateIsPte(u, parent, a / 4096);
    TranslateIsPte(u, child, a / 4096);
    assert CopyOf(u, child, a / 4096) == CopyOf(u, parent, a / 4096);
  }

  // ---------- the table of processes ----------

  // ---------- what is in the pages of processes ----------

  /** The first n pages of an address space have the flags and the contents they had. */
  ghost predicate SpaceKept(u: Memory, w: Memory, r: nat, n: nat) {
    && TreesOk(u) && TreesOk(w)
    && forall v: nat {:trigger CopyOf(w, r, v)} :: v < n ==> CopyOf(w, r, v) == CopyOf(u, r, v)
  }

  /** So have those of all processes, as far as they had them and have them still. */
  ghost predicate AllKept(u: Memory, w: Memory, before: map<nat, nat>, after: map<nat, nat>) {
    forall r {:trigger r in after} :: r in before && r in after ==>
      SpaceKept(u, w, r, if before[r] <= after[r] then Up(before[r]) else Up(after[r])) == true
  }

  /** New pages are zeros, for the user to read, write and execute. */
  ghost predicate Zeros(w: Memory, r: nat, v0: nat, v1: nat) {
    TreesOk(w) && forall v: nat {:trigger CopyOf(w, r, v)} :: v0 <= v < v1 ==> CopyOf(w, r, v) == Want(31, Filled(0))
  }

  lemma GainedZeros(u: Memory, w: Memory, root: nat, v0: nat, n: nat)
    requires Gained(u, w, root, v0, Zeroed(n)) == true
    ensures Zeros(w, root, v0, v0 + n) == true
  {
    forall v: nat | v0 <= v < v0 + n
      ensures CopyOf(w, root, v) == Want(31, Filled(0))
    {
      assert WantAt(Zeroed(n), v0, v) == Want(31, Filled(0));
      assert Has(w, root, v, Want(31, Filled(0)));
    }
  }

  lemma PageKept(u: Memory, w: Memory, r: nat, n: nat, v: nat)
    requires Inv(u) && Inv(w) && Process(u, r, n) && v < n && Pte(w, r, v) == Pte(u, r, v) && |w.pages| == |u.pages|
    requires forall m: nat :: m < |u.role| && u.role[m] == Frame(Slot(r, v)) ==> w.pages[m] == u.pages[m]
    ensures CopyOf(w, r, v) == CopyOf(u, r, v)
  {
    assert Present(u, r, v, true);
  }

  lemma OtherKept(u: Memory, w: Memory, root: nat, r: nat, sz: nat)
    requires OnlyRoot(u, w, root) == true && r != root && Alive(u, r, sz) == true
    ensures SpaceKept(u, w, r, Up(sz)) == true
  {
    forall v: nat | v < Up(sz)
      ensures CopyOf(w, r, v) == CopyOf(u, r, v)
    {
      assert Pte(w, r, v) == Pte(u, r, v);
      PageKept(u, w, r, Up(sz), v);
    }
  }

  lemma GainedKept(u: Memory, w: Memory, root: nat, sz: nat, wants: seq<Want>)
    requires Alive(u, root, sz) == true && Gained(u, w, root, Up(sz), wants) == true
    ensures SpaceKept(u, w, root, Up(sz)) == true
  {
    forall v: nat | v < Up(sz)
      ensures CopyOf(w, root, v) == CopyOf(u, root, v)
    {
      assert Pte(w, root, v) == Pte(u, root, v);
      PageKept(u, w, root, Up(sz), v);
    }
  }

  lemma WalkedKept(u: Memory, w: Memory, root: nat, r: nat, sz: nat)
    requires Alive(u, r, sz) == true && Walked(u, w, root) == true
    ensures SpaceKept(u, w, r, Up(sz)) == true
  {
    forall v: nat | v < Up(sz)
      ensures CopyOf(w, r, v) == CopyOf(u, r, v)
    {
      assert Pte(w, r, v) == Pte(u, r, v);
      PageKept(u, w, r, Up(sz), v);
    }
  }

  lemma UnmappedKept(u: Memory, w: Memory, root: nat, sz: nat, newsz: nat, k: nat)
    requires Alive(u, root, sz) == true && Unmapped(u, w, root, Up(newsz), k, true) == true && newsz <= sz
    ensures SpaceKept(u, w, root, Up(newsz)) == true
  {
    UpMonotone(newsz, sz);
    forall v: nat | v < Up(newsz)
      ensures CopyOf(w, root, v) == CopyOf(u, root, v)
    {
      assert Pte(w, root, v) == Pte(u, root, v);
      PageKept(u, w, root, Up(sz), v);
    }
  }

  lemma RestoredKept(u: Memory, w: Memory, sizes: map<nat, nat>)
    requires AllAlive(u, sizes) == true && Restored(u, w) == true
    ensures AllKept(u, w, sizes, sizes) == true
  {
    forall r | r in sizes
      ensures SpaceKept(u, w, r, Up(sizes[r])) == true
    {
      assert Alive(u, r, sizes[r]) == true;
      RestoredSpace(u, w, r, sizes[r]);
    }
  }

  lemma RestoredSpace(u: Memory, w: Memory, r: nat, sz: nat)
    requires Alive(u, r, sz) == true && Restored(u, w) == true
    ensures SpaceKept(u, w, r, Up(sz)) == true
  {
    forall v: nat | v < Up(sz)
      ensures CopyOf(w, r, v) == CopyOf(u, r, v)
    {
      assert Pte(w, r, v) == Pte(u, r, v);
      PageKept(u, w, r, Up(sz), v);
    }
  }

  lemma AllGone(s: Memory, u: Memory)
    requires Household(s, u, map[])
    ensures Restored(s, u) == true
  {
    var none: map<nat, nat> := map[];
    assert none.Keys == {};
    AllEnded(s, u);
  }

  /** Only root has changed, and kept what it has of its pages. */
  lemma RootKept(u: Memory, w: Memory, sizes: map<nat, nat>, root: nat, sz: nat)
    requires AllAlive(u, sizes) == true && OnlyRoot(u, w, root) == true
    requires root in sizes ==> SpaceKept(u, w, root, if sizes[root] <= sz then Up(sizes[root]) else Up(sz)) == true
    ensures AllKept(u, w, sizes, sizes[root := sz]) == true
  {
    forall r | r in sizes && r != root
      ensures SpaceKept(u, w, r, Up(sizes[r])) == true
    {
      assert Alive(u, r, sizes[r]) == true;
      OtherKept(u, w, root, r, sizes[r]);
    }
  }

  lemma EndKept(u: Memory, w: Memory, sizes: map<nat, nat>, root: nat)
    requires AllAlive(u, sizes) == true && OnlyRoot(u, w, root) == true
    ensures AllKept(u, w, sizes, sizes - {root}) == true
  {
    forall r | r in sizes && r != root
      ensures SpaceKept(u, w, r, Up(sizes[r])) == true
    {
      assert Alive(u, r, sizes[r]) == true;
      OtherKept(u, w, root, r, sizes[r]);
    }
  }

  /** A child is made, and then gets its memory or is ended. */
  lemma ForkKept(a: Memory, b: Memory, c: Memory, before: map<nat, nat>, child: nat, last: map<nat, nat>)
    requires child !in before && (last == before || (child in last && last == before[child := last[child]]))
    requires AllKept(a, b, before, before[child := 0]) == AllKept(b, c, before[child := 0], last) == true
    ensures AllKept(a, c, before, last) == true
  {
    forall r | r in before
      ensures SpaceKept(a, c, r, Up(before[r])) == true
    {
      assert r in before[child := 0] && r in last;
      SpaceTwice(a, b, c, r, Up(before[r]));
    }
  }

  lemma KeptThrough(a: Memory, b: Memory, c: Memory, mid: map<nat, nat>, last: map<nat, nat>)
    requires AllKept(a, b, mid, mid) == AllKept(b, c, mid, last) == true
    requires forall r :: r in last ==> r in mid && mid[r] == last[r]
    ensures AllKept(a, c, mid, last) == true
  {
    forall r | r in last
      ensures SpaceKept(a, c, r, Up(last[r])) == true
    {
      assert r in mid;
      SpaceTwice(a, b, c, r, Up(last[r]));
    }
  }

  lemma NothingKept(u: Memory, sizes: map<nat, nat>)
    requires AllAlive(u, sizes) == true
    ensures AllKept(u, u, sizes, sizes) == true
  {
    forall r | r in sizes
      ensures SpaceKept(u, u, r, Up(sizes[r])) == true
    {
      assert Alive(u, r, sizes[r]);
    }
  }

  lemma NoPages(u: Memory, w: Memory, r: nat)
    requires TreesOk(u) && TreesOk(w)
    ensures SpaceKept(u, w, r, Up(0)) == true
  {
  }

  lemma SpaceTwice(a: Memory, b: Memory, c: Memory, r: nat, n: nat)
    requires SpaceKept(a, b, r, n) && SpaceKept(b, c, r, n)
    ensures SpaceKept(a, c, r, n) == true
  {
    forall v: nat | v < n
      ensures CopyOf(c, r, v) == CopyOf(a, r, v)
    {
      assert CopyOf(b, r, v) == CopyOf(a, r, v);
    }
  }

  /** What happens to processes: made with a trap frame, grown or shrunk by a signed number of bytes,
      forked, ended. */
  datatype Job = Make(frame: nat) | Grow(root: nat, n: int) | Fork(root: nat, frame: nat) | End(root: nat)

  /** The sum as an unsigned int. */
  function Sum32(sz: nat, n: int): (r: nat)
    ensures r < 0x1_0000_0000 && (sz + n - r) % 0x1_0000_0000 == 0
  {
    (sz + n) % 0x1_0000_0000
  }

  /** The size that growproc gives a process of sz bytes if there is memory: with a sum that wraps round
      nothing happens. */
  function Grown(sz: nat, n: int): (r: nat) {
    if 0 <= sz + n < 0x1_0000_0000 then sz + n else sz
  }

  lemma GrownIs(sz: nat, n: int)
    requires sz < 0x1_0000_0000 && -0x8000_0000 <= n < 0x8000_0000
    ensures n > 0 ==> Grown(sz, n) == if Sum32(sz, n) >= sz then Sum32(sz, n) else sz
    ensures n < 0 ==> Grown(sz, n) == if Sum32(sz, n) <= sz then Sum32(sz, n) else sz
  {
  }

  /** Memory and the processes in it. */
  datatype Moment = Moment(mem: Memory, sizes: map<nat, nat>)

  ghost predicate Added(before: map<nat, nat>, after: map<nat, nat>, r: nat, sz: nat) {
    r !in before && after == before[r := sz]
  }

  /** What a job has done: a process is made, has its new size, is copied, or is gone; or memory was short. The
      pages of all processes are what they were. */
  ghost predicate JobDone(a: Moment, job: Job, b: Moment) {
    && (AllKept(a.mem, b.mem, a.sizes, b.sizes) == true || b == a)
    && match job
       case Make(frame) =>
         if frame >= |a.mem.pages| then b == a
         else (b.sizes == a.sizes && |a.mem.free| < 5) || exists r: nat :: Added(a.sizes, b.sizes, r, 0)
       case Grow(root, n) =>
         if root !in a.sizes || a.sizes[root] >= 0x1_0000_0000 || n < -0x8000_0000 || n >= 0x8000_0000 then b == a
         else
           var sz := a.sizes[root];
           || (b.sizes == a.sizes[root := Grown(sz, n)] && Zeros(b.mem, root, Up(sz), Up(Grown(sz, n))))
           || (b.sizes == a.sizes && n > 0 && |a.mem.free| < 3 * Between(sz, Grown(sz, n)))
       case Fork(root, frame) =>
         if root !in a.sizes || frame >= |a.mem.pages| then b == a
         else
           var sz := a.sizes[root];
           || (b.sizes == a.sizes && |a.mem.free| < 5 + 3 * Up(sz))
           || exists r: nat :: Added(a.sizes, b.sizes, r, sz) && Twins(b.mem, root, r, Up(sz))
       case End(root) => if root !in a.sizes then b == a else b.sizes == a.sizes - {root}
  }

  lemma GrowDone(a: Moment, b: Moment, root: nat, n: int, ok: bool)
    requires root in a.sizes && a.sizes[root] < 0x1_0000_0000 && -0x8000_0000 <= n < 0x8000_0000
    requires AllKept(a.mem, b.mem, a.sizes, b.sizes) == true
    requires b.sizes == a.sizes[root := if ok then Grown(a.sizes[root], n) else a.sizes[root]]
    requires !ok ==> n > 0 && |a.mem.free| < 3 * Between(a.sizes[root], Grown(a.sizes[root], n))
    requires ok ==> Zeros(b.mem, root, Up(a.sizes[root]), Up(Grown(a.sizes[root], n))) == true
    ensures JobDone(a, Grow(root, n), b) == true
  {
    SetSame(a.sizes, root);
  }

  lemma ForkDone(a: Moment, b: Moment, root: nat, frame: nat, r: Option<nat>)
    requires root in a.sizes && frame < |a.mem.pages| && AllKept(a.mem, b.mem, a.sizes, b.sizes) == true
    requires r.None? ==> b.sizes == a.sizes && |a.mem.free| < 5 + 3 * Up(a.sizes[root])
    requires r.Some? ==> r.value !in a.sizes && b.sizes == a.sizes[r.value := a.sizes[root]]
    requires r.Some? ==> Twins(b.mem, root, r.value, Up(a.sizes[root])) == true
    ensures JobDone(a, Fork(root, frame), b) == true
  {
    if r.Some? {
      assert Added(a.sizes, b.sizes, r.value, a.sizes[root]);
    }
  }

  /** The moments of a run: each of its jobs so far has been done. */
  ghost predicate History(jobs: seq<Job>, ms: seq<Moment>) {
    |ms| <= |jobs| + 1 && forall i :: 0 <= i < |ms| - 1 ==> JobDone(ms[i], jobs[i], ms[i + 1]) == true
  }

  lemma HistoryMore(jobs: seq<Job>, ms: seq<Moment>, m: Moment)
    requires History(jobs, ms) && 1 <= |ms| <= |jobs| && JobDone(ms[|ms| - 1], jobs[|ms| - 1], m) == true
    ensures History(jobs, ms + [m]) == true
  {
  }

  class Table {
    const mem: PhysicalMemory
    const tramp: nat
    ghost const start: Memory
    var sizes: map<nat, nat>    // the root page of each process, and p->sz

    ghost predicate Valid()
      reads this, mem
    {
      Household(start, mem.Now(), sizes) == true && Inv(mem.Now()) == true && tramp < |mem.pages|
    }

    constructor (mem: PhysicalMemory, tramp: nat)
      requires Inv(mem.Now()) && tramp < |mem.pages|
      ensures Valid() && this.mem == mem && start == mem.Now() && sizes == map[]
    {
      this.mem, this.tramp, start, sizes := mem, tramp, mem.Now(), map[];
      new;
      HouseholdStart(start);
    }

    /** proc_pagetable */
    method Made(frame: nat) returns (r: Option<nat>)
      requires Valid() == true && frame < |mem.pages|
      modifies this`sizes, mem
      ensures Valid() == true && |mem.pages| == |old(mem.pages)|
      ensures r.None? ==> sizes == old(sizes) && |old(mem.free)| < 5
      ensures r.Some? ==> r.value !in old(sizes) && sizes == old(sizes)[r.value := 0]
      ensures r.Some? ==> |mem.free| + 5 >= |old(mem.free)|
      ensures AllKept(old(mem.Now()), mem.Now(), old(sizes), sizes) == true
    {
      ghost var u := mem.Now();
      r := mem.ProcPagetable(tramp, frame);
      if r.Some? {
        BornNew(start, u, mem.Now(), sizes, r.value);
        BornOnly(u, mem.Now(), r.value);
        HouseholdStep(start, u, mem.Now(), sizes, r.value, 0);
        RootKept(u, mem.Now(), sizes, r.value, 0);
        sizes := sizes[r.value := 0];
      } else {
        HouseholdSame(start, u, mem.Now(), sizes);
        RestoredKept(u, mem.Now(), sizes);
      }
    }

    /** growproc */
    method Grows(root: nat, n: int) returns (ok: bool)
      requires Valid() == true && root in sizes && sizes[root] < 0x1_0000_0000 && -0x8000_0000 <= n < 0x8000_0000
      modifies this`sizes, mem
      ensures Valid() == true &&
                sizes == old(sizes)[root := if ok then Grown(old(sizes)[root], n) else old(sizes)[root]]
      ensures |mem.pages| == |old(mem.pages)|
      ensures !ok ==> n > 0 && |old(mem.free)| < 3 * Between(old(sizes)[root], Grown(old(sizes)[root], n))
      ensures ok ==> Zeros(mem.Now(), root, Up(old(sizes)[root]), Up(Grown(old(sizes)[root], n))) == true
      ensures AllKept(old(mem.Now()), mem.Now(), old(sizes), sizes) == true
    {
      ok := true;
      GrownIs(sizes[root], n);
      if n > 0 {
        ok := Widens(root, Sum32(sizes[root], n));
      } else if n < 0 {
        Narrows(root, Sum32(sizes[root], n));
      } else {
        NothingKept(mem.Now(), sizes);
      }
    }

    method Widens(root: nat, newsz: nat) returns (ok: bool)
      requires Valid() == true && root in sizes && newsz < 0x1_0000_0000
      modifies this`sizes, mem
      ensures Valid() == true && |mem.pages| == |old(mem.pages)|
      ensures sizes == old(sizes)[root := if ok && newsz >= old(sizes)[root] then newsz else old(sizes)[root]]
      ensures !ok ==> newsz > old(sizes)[root] && |old(mem.free)| < 3 * Between(old(sizes)[root], newsz)
      ensures ok ==> Zeros(mem.Now(), root, Up(old(sizes)[root]), Up(newsz)) == true
      ensures AllKept(old(mem.Now()), mem.Now(), old(sizes), sizes) == true
    {
      ghost var u := mem.Now();
      var sz := sizes[root];
      assert Alive(u, root, sz) == true by { assert AllAlive(u, sizes); }
      AliveRoom(u, root, sz, newsz);
      var r := mem.UvmAlloc(root, sz, newsz);
      ok := r != 0 || newsz == sz;
      if newsz < sz {
        SetSame(sizes, root);
        NothingKept(u, sizes);
        UpMonotone(newsz, sz);
      } else if r == newsz {
        AliveGained(u, mem.Now(), root, sz, Zeroed(Between(sz, newsz)), newsz);
        HouseholdStep(start, u, mem.Now(), sizes, root, newsz);
        GainedKept(u, mem.Now(), root, sz, Zeroed(Between(sz, newsz)));
        GainedZeros(u, mem.Now(), root, Up(sz), Between(sz, newsz));
        RootKept(u, mem.Now(), sizes, root, newsz);
        sizes := sizes[root := newsz];
      } else {
        AliveWalked(u, mem.Now(), root, sz);
        HouseholdStep(start, u, mem.Now(), sizes, root, sz);
        WalkedKept(u, mem.Now(), root, root, sz);
        RootKept(u, mem.Now(), sizes, root, sz);
        SetSame(sizes, root);
      }
    }

    method Narrows(root: nat, newsz: nat)
      requires Valid() == true && root in sizes && newsz < 0x1_0000_0000
      modifies this`sizes, mem
      ensures Valid() == true && |mem.pages| == |old(mem.pages)|
      ensures sizes == old(sizes)[root := if newsz <= old(sizes)[root] then newsz else old(sizes)[root]]
      ensures AllKept(old(mem.Now()), mem.Now(), old(sizes), sizes) == true
    {
      ghost var u := mem.Now();
      var sz := sizes[root];
      assert Alive(u, root, sz) == true by { assert AllAlive(u, sizes); }
      AliveMapped(u, root, sz, newsz);
      var r := mem.UvmDealloc(root, sz, newsz);
      if newsz < sz {
        UpMonotone(newsz, sz);
        AliveUnmapped(u, mem.Now(), root, sz, newsz, Between(newsz, sz));
        HouseholdStep(start, u, mem.Now(), sizes, root, newsz);
        UnmappedKept(u, mem.Now(), root, sz, newsz, Between(newsz, sz));
        RootKept(u, mem.Now(), sizes, root, newsz);
        sizes := sizes[root := newsz];
      } else {
        SetSame(sizes, root);
        NothingKept(u, sizes);
      }
    }

    /** proc_freepagetable */
    method Ends(root: nat)
      requires Valid() == true && root in sizes
      modifies this`sizes, mem
      ensures Valid() == true && sizes == old(sizes) - {root} && |mem.pages| == |old(mem.pages)|
      ensures AllKept(old(mem.Now()), mem.Now(), old(sizes), sizes) == true
    {
      ghost var u := mem.Now();
      assert Alive(u, root, sizes[root]) == true by { assert AllAlive(u, sizes); }
      mem.ProcFreePagetable(root, sizes[root]);
      HouseholdEnd(start, u, mem.Now(), sizes, root);
      EndedOnly(u, mem.Now(), root);
      EndKept(u, mem.Now(), sizes, root);
      sizes := sizes - {root};
    }

    /** The memory part of fork: a new process with a copy of every page, or none. */
    method Forks(root: nat, frame: nat) returns (r: Option<nat>)
      requires Valid() == true && root in sizes && frame < |mem.pages|
      modifies this`sizes, mem
      ensures Valid() == true && |mem.pages| == |old(mem.pages)|
      ensures r.None? ==> sizes == old(sizes) && |old(mem.free)| < 5 + 3 * Up(old(sizes)[root])
      ensures r.Some? ==> r.value !in old(sizes) && sizes == old(sizes)[r.value := old(sizes)[root]]
      ensures r.Some? ==> Twins(mem.Now(), root, r.value, Up(old(sizes)[root])) == true
      ensures AllKept(old(mem.Now()), mem.Now(), old(sizes), sizes) == true
    {
      ghost var u := mem.Now();
      r := Made(frame);
      if r.Some? {
        ghost var w := mem.Now();
        var copied := CopyOrEnd(root, r.value, old(sizes));
        ForkKept(u, w, mem.Now(), old(sizes), r.value, sizes);
        if !copied {
          return None;
        }
      }
    }

    /** A copy of every page, or the end of the new process. */
    method CopyOrEnd(root: nat, child: nat, ghost before: map<nat, nat>) returns (ok: bool)
      requires Valid() == true && root in before && child !in before && sizes == before[child := 0]
      modifies this`sizes, mem
      ensures Valid() == true && |mem.pages| == |old(mem.pages)|
      ensures sizes == if ok then before[child := before[root]] else before
      ensures !ok ==> |old(mem.free)| < 3 * Up(before[root])
      ensures ok ==> Twins(mem.Now(), root, child, Up(before[root])) == true
      ensures AllKept(old(mem.Now()), mem.Now(), old(sizes), sizes) == true
    {
      ghost var u := mem.Now();
      ok := Copies(root, child);
      if ok {
        SetTwice(before, child, before[root]);
      } else {
        ghost var w, mid := mem.Now(), sizes;
        Ends(child);
        Undone(before, child);
        KeptThrough(u, w, mem.Now(), mid, before);
      }
    }

    method Copies(root: nat, child: nat) returns (ok: bool)
      requires Valid() == true && root in sizes && child in sizes && child != root && sizes[child] == 0
      modifies this`sizes, mem
      ensures Valid() == true && |mem.pages| == |old(mem.pages)|
      ensures sizes == if ok then old(sizes)[child := old(sizes)[root]] else old(sizes)
      ensures !ok ==> |old(mem.free)| < 3 * Up(old(sizes)[root])
      ensures ok ==> Twins(mem.Now(), root, child, Up(old(sizes)[root])) == true
      ensures AllKept(old(mem.Now()), mem.Now(), old(sizes), sizes) == true
    {
      ghost var u := mem.Now();
      var sz := sizes[root];
      assert Alive(u, root, sz) == true && Alive(u, child, 0) == true by { assert AllAlive(u, sizes); }
      AliveMapped(u, root, sz, 0);
      AliveRoom(u, child, 0, sz);
      ok := mem.UvmCopy(root, child, sz);
      if ok {
        AliveFilled(u, mem.Now(), child, Spaces.Copies(u, root, Up(sz)), sz);
        HouseholdStep(start, u, mem.Now(), sizes, child, sz);
        TwinsOk(u, mem.Now(), root, child, Up(sz), Spaces.Copies(u, root, Up(sz)));
        NoPages(u, mem.Now(), child);
        RootKept(u, mem.Now(), sizes, child, sz);
        sizes := sizes[child := sz];
      } else {
        AliveWalked(u, mem.Now(), child, 0);
        HouseholdStep(start, u, mem.Now(), sizes, child, 0);
        NoPages(u, mem.Now(), child);
        RootKept(u, mem.Now(), sizes, child, 0);
        SetSame(sizes, child);
      }
    }

    ghost function Here(): (m: Moment)
      reads this, mem
    {
      Moment(mem.Now(), sizes)
    }

    method Work(job: Job)
      requires Valid() == true
      modifies this`sizes, mem
      ensures Valid() == true && JobDone(old(Here()), job, Here()) == true
    {
      match job
      case Make(frame) => Makes(job, frame);
      case Grow(root, n) => GrowsBy(job, root, n);
      case Fork(root, frame) => ForksOff(job, root, frame);
      case End(root) => EndsThere(job, root);
    }

    method GrowsBy(ghost job: Job, root: nat, n: int)
      requires Valid() == true && job == Grow(root, n)
      modifies this`sizes, mem
      ensures Valid() == true && JobDone(old(Here()), job, Here()) == true
    {
      ghost var a := Here();
      if root in sizes && sizes[root] < 0x1_0000_0000 && -0x8000_0000 <= n < 0x8000_0000 {
        var ok := Grows(root, n);
        GrowDone(a, Here(), root, n, ok);
      }
    }

    method EndsThere(ghost job: Job, root: nat)
      requires Valid() == true && job == End(root)
      modifies this`sizes, mem
      ensures Valid() == true && JobDone(old(Here()), job, Here()) == true
    {
      if root in sizes {
        Ends(root);
      }
    }

    method Makes(ghost job: Job, frame: nat)
      requires Valid() == true && job == Make(frame)
      modifies this`sizes, mem
      ensures Valid() == true && JobDone(old(Here()), job, Here()) == true
    {
      if frame < |mem.pages| {
        var r := Made(frame);
        assert r.Some? ==> Added(old(sizes), sizes, r.value, 0);
      }
    }

    method ForksOff(ghost job: Job, root: nat, frame: nat)
      requires Valid() == true && job == Fork(root, frame)
      modifies this`sizes, mem
      ensures Valid() == true && JobDone(old(Here()), job, Here()) == true
    {
      ghost var a := Here();
      if root in sizes && frame < |mem.pages| {
        var r := Forks(root, frame);
        ForkDone(a, Here(), root, frame, r);
      }
    }

    method Jobs(jobs: seq<Job>) returns (ghost ms: seq<Moment>)
      requires Valid() == true
      modifies this`sizes, mem
      ensures Valid() == true && History(jobs, ms) == true
      ensures |ms| == |jobs| + 1 && ms[0] == old(Here()) && ms[|jobs|] == Here()
    {
      ghost var m, first := Here(), Here();
      ms := [m];
      for i := 0 to |jobs|
        invariant Valid() == true && m == Here() && History(jobs, ms) == true
        invariant |ms| == i + 1 && ms[0] == first && ms[i] == m
      {
        Work(jobs[i]);
        m := Here();
        HistoryMore(jobs, ms, m);
        ms := ms + [m];
      }
    }

    /** Whatever processes are made, grow, shrink, fork and end: each job is done as JobDone says, or fails for
        want of memory, in which case it changes nothing that a process can see; and when there are no
        processes left, every page has the role and the contents it had, and so has every address space that
        was there before. */
    method Run(jobs: seq<Job>) returns (ghost ms: seq<Moment>)
      requires Valid()
      modifies this`sizes, mem
      ensures Valid() == true && (sizes == map[] ==> Restored(start, mem.Now()) == true)
      ensures |ms| == |jobs| + 1 && ms[0] == old(Here()) && ms[|jobs|] == Here()
      ensures History(jobs, ms) == true
    {
      ms := Jobs(jobs);
      if sizes == map[] {
        AllGone(start, mem.Now());
      }
    }
  }

  lemma SetSame(sizes: map<nat, nat>, root: nat)
    requires root in sizes
    ensures sizes[root := sizes[root]] == sizes
  {
  }

  lemma SetTwice(sizes: map<nat, nat>, root: nat, sz: nat)
    ensures sizes[root := 0][root := sz] == sizes[root := sz]
  {
  }

  lemma Undone(sizes: map<nat, nat>, root: nat)
    requires root !in sizes
    ensures sizes[root := 0] - {root} == sizes
  {
  }

  /** Memory that is as it was. */
  lemma HouseholdSame(s: Memory, u: Memory, w: Memory, sizes: map<nat, nat>)
    requires Household(s, u, sizes) && Restored(u, w) == true
    ensures Household(s, w, sizes) == true
  {
    RolesSame(s, u, w, sizes.Keys);
    PtesSame(s, u, w, sizes.Keys);
    forall r | r in sizes
      ensures Alive(w, r, sizes[r]) == true
    {
      assert Walked(u, w, r);
      AliveWalked(u, w, r, sizes[r]);
    }
  }

  lemma RolesSame(s: Memory, u: Memory, w: Memory, rs: set<nat>)
    requires SameRoles(s, u, rs) && w.role == u.role && SameData(u, w)
    ensures SameRoles(s, w, rs) == true
  {
    forall m: nat | m < |s.role| && IsData(s.role[m])
      ensures w.pages[m] == s.pages[m]
    {
      assert w.role[m] == u.role[m] && u.pages[m] == s.pages[m];
    }
  }

  lemma PtesSame(s: Memory, u: Memory, w: Memory, rs: set<nat>)
    requires SamePtes(s, u, rs) == true && TreesOk(u) && TreesOk(w) && SameMaps(u, w)
    ensures SamePtes(s, w, rs) == true
  {
    forall r: nat, v: nat | r !in rs
      ensures Pte(w, r, v) == Pte(s, r, v)
    {
      assert Pte(w, r, v) == Pte(u, r, v) && Pte(u, r, v) == Pte(s, r, v);
    }
  }

  /** Two processes have the same bytes and flags in their first n pages, in different frames. */
  ghost predicate Twins(s: Memory, a: nat, b: nat, n: nat) {
    TreesOk(s) && forall v: nat {:trigger CopyOf(s, b, v)} :: v < n ==>
      CopyOf(s, b, v) == CopyOf(s, a, v) && Pte(s, b, v) / 1024 != Pte(s, a, v) / 1024
  }

  lemma TwinsOk(u: Memory, w: Memory, from: nat, to: nat, n: nat, all: seq<Want>)
    requires Inv(u) && Copyable(u, from, n) && Unused(u, to, 0, n) && from != to
    requires all == Copies(u, from, n) && Gained(u, w, to, 0, all) == true
    ensures Twins(w, from, to, n) == true
  {
    forall v: nat | v < n
      ensures CopyOf(w, to, v) == CopyOf(w, from, v) && Pte(w, to, v) / 1024 != Pte(w, from, v) / 1024
    {
      TwinPage(u, w, from, to, n, all, v);
    }
  }

  lemma TwinPage(u: Memory, w: Memory, from: nat, to: nat, n: nat, all: seq<Want>, v: nat)
    requires Inv(u) && Copyable(u, from, n) && Unused(u, to, 0, n) && from != to
    requires all == Copies(u, from, n) && Gained(u, w, to, 0, all) == true
    requires v < n
    ensures TreesOk(w) && CopyOf(w, to, v) == CopyOf(w, from, v) && Pte(w, to, v) / 1024 != Pte(w, from, v) / 1024
  {
    assert Has(w, to, v, WantAt(all, 0, v)) && WantAt(all, 0, v) == CopyOf(u, from, v);
    assert Pte(w, from, v) == Pte(u, from, v);
    var f := Pte(u, from, v) / 1024;
    assert w.role[f] == u.role[f] && w.pages[f] == u.pages[f];
    FrameElsewhere(u, to, v, f);
  }

  lemma FrameElsewhere(u: Memory, root: nat, v: nat, f: nat)
    requires Inv(u) && f < |u.role| && !IsValid(Pte(u, root, v))
    ensures u.role[f] != Frame(Slot(root, v))
  {
  }
}
