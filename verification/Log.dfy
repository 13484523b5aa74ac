/** log.c on top of the buffer cache: admission of operations, log_write with absorption,
    group commit and recovery, with other processes reading through the cache all the while. */
module Log {
  import opened Options
  import opened Blocks
  import opened Counting
  import opened RedoLog
  import opened Bio
  import Lru

  // ---------- sums of the units reserved by open operations ----------

  ghost function Sum(m: map<nat, nat>): (t: nat)
    decreases |m|
  {
    if m == map[] then 0
    else var k :| k in m; m[k] + Sum(m - {k})
  }

  lemma {:induction false} SumWithout(m: map<nat, nat>, k: nat)
    requires k in m
    ensures Sum(m) == m[k] + Sum(m - {k})
    decreases |m|
  {
    var c :| c in m && Sum(m) == m[c] + Sum(m - {c});
    if c != k {
      SumWithout(m - {c}, k);
      SumWithout(m - {k}, c);
      assert m - {c} - {k} == m - {k} - {c};
    }
  }

  lemma SumSet(m: map<nat, nat>, k: nat, v: nat)
    ensures Sum(m[k := v]) == v + Sum(m - {k})
  {
    SumWithout(m[k := v], k);
    assert m[k := v] - {k} == m - {k};
  }

  lemma {:induction false} SumBound(m: map<nat, nat>)
    requires forall k :: k in m ==> m[k] <= MAXOPBLOCKS
    ensures Sum(m) <= |m| * MAXOPBLOCKS
    decreases |m|
  {
    if m != map[] {
      var k :| k in m;
      SumWithout(m, k);
      SumBound(m - {k});
      assert m == (m - {k})[k := m[k]];
    }
  }

  // ---------- the two decisions taken under log.lock ----------

  /** begin_op lets an operation in if, with every open operation using its full
      reservation, the log still cannot overflow. */
  predicate Admits(n: nat, outstanding: nat, committing: bool) {
    !committing && n + (outstanding + 1) * MAXOPBLOCKS <= LOGSIZE
  }

  datatype LogResult = Ok(homes: seq<nat>) | TooBig | OutsideOfTrans

  /** log_write on the list of logged blocks: a block already listed is absorbed. The size
      test comes first. */
  function LogAppend(homes: seq<nat>, size: nat, outstanding: nat, bno: nat): (r: LogResult) {
    if |homes| >= LOGSIZE || |homes| + 1 >= size then TooBig
    else if outstanding < 1 then OutsideOfTrans
    else if bno in homes then Ok(homes)
    else Ok(homes + [bno])
  }

  // ---------- what other processes cannot disturb ----------

  /** A buffer with contents that neither the disk nor the log has. */
  ghost predicate Dirty(s: Snap, b: nat)
    requires Inv(s) && b < NBUF
  {
    assert BufOk(s, b);
    s.bufs[b].valid && s.pins[b] == 0 && s.bufs[b].data != s.blocks[s.bufs[b].blockno]
  }

  ghost predicate Idle(s: Snap, me: nat) {
    forall b: nat :: b < |s.users| ==> s.users[b][me] == 0
  }

  /** From process `me`'s point of view nothing happened to buffer b that matters: it keeps
      its references and its lock, and a buffer it references or the log has pinned still
      holds the same block. */
  ghost predicate CalmBuf(s: Snap, t: Snap, me: nat, b: nat)
    requires Inv(s) && Inv(t) && b < NBUF
  {
    && t.users[b][me] == s.users[b][me]
    && (t.bufs[b].owner == me <==> s.bufs[b].owner == me)
    && (s.users[b][me] > 0 || s.pins[b] > 0 ==>
          && t.bufs[b].dev == s.bufs[b].dev && t.bufs[b].blockno == s.bufs[b].blockno
          && (s.bufs[b].valid ==> t.bufs[b].valid))
  }

  ghost predicate Calm(s: Snap, t: Snap, me: nat)
    requires Inv(s) && Inv(t)
  {
    && t.view == s.view && t.blocks == s.blocks && t.pins == s.pins
    && (forall b: nat :: b < NBUF ==> CalmBuf(s, t, me, b))
  }

  lemma CalmTransitive(s: Snap, t: Snap, u: Snap, me: nat)
    requires Inv(s) && Inv(t) && Inv(u) && Calm(s, t, me) && Calm(t, u, me)
    ensures Calm(s, u, me)
  {
    forall b: nat | b < NBUF
      ensures CalmBuf(s, u, me, b)
    {
      assert CalmBuf(s, t, me, b) && CalmBuf(t, u, me, b);
    }
  }

  /** A change to one buffer only, that makes nothing dirty. */
  lemma CalmChange(s: Snap, t: Snap, me: nat, b: nat)
    requires Inv(s) && Inv(t) && b < NBUF && CalmBuf(s, t, me, b)
    requires t.view == s.view && t.blocks == s.blocks && t.pins == s.pins
    requires forall c: nat :: c < NBUF && c != b ==> t.bufs[c] == s.bufs[c] && t.users[c] == s.users[c]
    requires OnlyDirty(s, {}) && !Dirty(t, b)
    ensures Calm(s, t, me) && OnlyDirty(t, {})
  {
    forall c: nat | c < NBUF && Dirty(t, c)
      ensures c == b || Dirty(s, c)
    {
    }
  }

  /** The log's pins are exactly one reference on the buffer of each listed block. */
  ghost predicate PinsOk(s: Snap, homes: seq<nat>)
    requires Inv(s)
  {
    && (forall b: nat :: b < NBUF && s.pins[b] > 0 ==>
          s.pins[b] == 1 && s.bufs[b].dev != 0 && s.bufs[b].blockno in homes)
    && (forall bno: nat :: bno in homes ==> Pinned(s, bno))
  }

  ghost predicate Pinned(s: Snap, bno: nat)
    requires Inv(s)
  {
    exists b: nat :: b < NBUF && s.pins[b] > 0 && Holds(s.bufs[b], bno)
  }

  ghost predicate LogAreaOnDisk(L: Layout, s: Snap)
    requires Inv(s)
  {
    forall i: nat {:trigger InLog(L, i)} :: i < |s.view| && InLog(L, i) ==> s.view[i] == s.blocks[i]
  }

  ghost predicate OnlyDirty(s: Snap, who: set<nat>)
    requires Inv(s)
  {
    forall b: nat :: b < NBUF && Dirty(s, b) ==> s.bufs[b].owner in who
  }

  /** Outside the listed blocks and the buffers being changed, the view is on disk. */
  lemma ViewOnDisk(s: Snap, homes: seq<nat>, bno: nat)
    requires Inv(s) && PinsOk(s, homes) && OnlyDirty(s, {}) && bno < |s.view| && bno !in homes
    ensures s.view[bno] == s.blocks[bno]
  {
    if Cached(s, bno) {
      var b: nat :| b < |s.bufs| && Holds(s.bufs[b], bno) && s.bufs[b].valid;
      assert BufOk(s, b);
      assert !Dirty(s, b);
    }
  }

  /** The listed blocks, as they stand in the cache, are exactly what the disk is missing. */
  lemma OverlayIsView(L: Layout, s: Snap, homes: seq<nat>, vals: seq<Block>)
    requires Inv(s) && PinsOk(s, homes) && OnlyDirty(s, {}) && Distinct(homes) && |vals| == |homes|
    requires forall i :: 0 <= i < |homes| ==> homes[i] < |s.view| && vals[i] == s.view[homes[i]]
    ensures SameHome(L, Overlay(s.blocks, homes, vals), s.view)
  {
    OverlayContents(s.blocks, homes, vals);
    forall h: nat | h < |s.view|
      ensures Overlay(s.blocks, homes, vals)[h] == s.view[h]
    {
      if h in homes {
        var i :| 0 <= i < |homes| && homes[i] == h;
      } else {
        ViewOnDisk(s, homes, h);
      }
    }
  }

  /** The buffer of a listed block is the pinned one, so log_write can absorb. */
  lemma ListedIsPinned(s: Snap, homes: seq<nat>, b: nat)
    requires Inv(s) && PinsOk(s, homes) && b < NBUF && s.bufs[b].valid && s.bufs[b].blockno in homes
    ensures s.pins[b] > 0
  {
    assert BufOk(s, b);
    assert Pinned(s, s.bufs[b].blockno);
  }

  /** bpin on the buffer of a block that is not listed yet. */
  lemma PinsAppended(s: Snap, t: Snap, homes: seq<nat>, b: nat, who: set<nat>)
    requires Inv(s) && Inv(t) && PinsOk(s, homes) && OnlyDirty(s, who) && b < NBUF && s.bufs[b].valid
    requires s.bufs[b].blockno !in homes
    requires t == s.(bufs := s.bufs[b := s.bufs[b].(refcnt := s.bufs[b].refcnt + 1)],
                     pins := s.pins[b := s.pins[b] + 1])
    ensures PinsOk(t, homes + [s.bufs[b].blockno]) && OnlyDirty(t, who) && !Dirty(t, b)
  {
    assert BufOk(s, b);
    var more := homes + [s.bufs[b].blockno];
    forall h: nat | h in more
      ensures Pinned(t, h)
    {
      if h in homes {
        assert Pinned(s, h);
        var x: nat :| x < NBUF && s.pins[x] > 0 && Holds(s.bufs[x], h);
        assert Holds(t.bufs[x], h) && t.pins[x] > 0;
      } else {
        assert Holds(t.bufs[b], h) && t.pins[b] > 0;
      }
    }
    forall x: nat | x < NBUF && Dirty(t, x)
      ensures Dirty(s, x)
    {
    }
  }

  ghost predicate OthersKept(s: Snap, t: Snap, b: nat) {
    |t.bufs| == |s.bufs| && forall c: nat :: c < |s.bufs| && c != b ==> t.bufs[c] == s.bufs[c]
  }

  /** A change to one buffer that keeps its pin keeps all pins, and every other change is still in the
      hands of who makes it. */
  lemma BufferChange(L: Layout, s: Snap, t: Snap, homes: seq<nat>, who: set<nat>, b: nat)
    requires Inv(s) && Inv(t) && PinsOk(s, homes) && OnlyDirty(s, who) && LogAreaOnDisk(L, s) && b < NBUF
    requires t.pins == s.pins && t.blocks == s.blocks && |t.view| == |s.view|
    requires forall c: nat :: c < NBUF && c != b ==> t.bufs[c] == s.bufs[c]
    requires s.pins[b] > 0 ==> t.bufs[b].dev == s.bufs[b].dev && t.bufs[b].blockno == s.bufs[b].blockno
    requires Dirty(t, b) ==> t.bufs[b].owner in who
    requires forall i: nat {:trigger InLog(L, i)} :: i < |s.view| && InLog(L, i) ==> t.view[i] == s.view[i]
    ensures PinsOk(t, homes) && OnlyDirty(t, who) && LogAreaOnDisk(L, t)
  {
    forall h: nat | h in homes
      ensures Pinned(t, h)
    {
      assert Pinned(s, h);
      var x: nat :| x < NBUF && s.pins[x] > 0 && Holds(s.bufs[x], h);
      assert t.pins[x] > 0 && Holds(t.bufs[x], h);
    }
    forall x: nat | x < NBUF && Dirty(t, x)
      ensures t.bufs[x].owner in who
    {
      if x != b {
        assert Dirty(s, x);
      }
    }
  }

  lemma AllOnDisk(s: Snap)
    requires Inv(s) && PinsOk(s, []) && OnlyDirty(s, {})
    ensures s.view == s.blocks
  {
    forall h: nat | h < |s.view|
      ensures s.view[h] == s.blocks[h]
    {
      ViewOnDisk(s, [], h);
    }
  }

  /** The transaction that commits the listed blocks as they stand in the view. */
  ghost function TxnOf(homes: seq<nat>, view: seq<Block>): (t: Txn)
    requires forall i :: 0 <= i < |homes| ==> homes[i] < |view|
  {
    Txn(homes, seq(|homes|, i requires 0 <= i < |homes| => view[homes[i]]))
  }

  /** What a crash after a block write of a commit leaves for recovery: the home blocks as
      they were at the last commit, or as they stand in the cache now. */
  lemma CommitCrashes(L: Layout, s: Snap, t: Txn, durable: Image, tr0: seq<Image>, tr: seq<Image>, k: nat)
    requires Inv(s) && PinsOk(s, t.homes) && OnlyDirty(s, {}) && Quiet(L, s.blocks) && GoodTxn(L, s.blocks, t)
    requires SameHome(L, s.blocks, durable) && CommitTrace(L, s.blocks, t, tr0, tr, k)
    requires forall i :: 0 <= i < |t.homes| ==> t.vals[i] == s.view[t.homes[i]]
    ensures forall i :: |tr0| <= i < |tr| ==> RecoversTo(L, tr[i], if i - |tr0| < |t.homes| then durable else s.view)
  {
    OverlayIsView(L, s, t.homes, t.vals);
    TraceCrashes(L, s.blocks, s.view, t, durable, tr0, tr, k);
  }

  lemma TraceCrashes(L: Layout, d: Image, view: Image, t: Txn, durable: Image, tr0: seq<Image>, tr: seq<Image>, k: nat)
    requires Quiet(L, d) && GoodTxn(L, d, t) && CommitTrace(L, d, t, tr0, tr, k) == true
    requires SameHome(L, d, durable) == true && SameHome(L, Overlay(d, t.homes, t.vals), view) == true
    ensures forall i :: |tr0| <= i < |tr| ==> RecoversTo(L, tr[i], if i - |tr0| < |t.homes| then durable else view)
  {
    forall i | |tr0| <= i < |tr|
      ensures RecoversTo(L, tr[i], if i - |tr0| < |t.homes| then durable else view)
    {
      TraceCrash(L, d, view, t, durable, tr0, tr, k, i, i - |tr0| + 1);
    }
  }

  lemma TraceCrash(L: Layout, d: Image, view: Image, t: Txn, durable: Image, tr0: seq<Image>, tr: seq<Image>, k: nat,
                   i: nat, j: nat)
    requires Quiet(L, d) && GoodTxn(L, d, t) && CommitTrace(L, d, t, tr0, tr, k)
    requires SameHome(L, d, durable) == true && SameHome(L, Overlay(d, t.homes, t.vals), view) == true
    requires |tr0| <= i < |tr| && j == i - |tr0| + 1
    ensures RecoversTo(L, tr[i], if i - |tr0| < |t.homes| then durable else view) == true
  {
    assert tr[i] == CommitState(L, d, t, j);
    CommitCrash(L, d, view, t, durable, j);
  }

  lemma CommitCrash(L: Layout, d: Image, view: Image, t: Txn, durable: Image, j: nat)
    requires Quiet(L, d) == GoodTxn(L, d, t) == true && 1 <= j <= CommitLength(t)
    requires SameHome(L, d, durable) == SameHome(L, Overlay(d, t.homes, t.vals), view) == true
    ensures RecoversTo(L, CommitState(L, d, t, j), if j <= |t.homes| then durable else view) == true
  {
    CommitAtomic(L, d, t, j);
  }

  ghost predicate RecoversTo(L: Layout, d: Image, e: Image) {
    WellFormed(L, d) && SameHome(L, Recovered(L, d), e)
  }

  /** Process me has got buffer b, locked and filled with block bno. */
  ghost predicate Got(s: Snap, t: Snap, me: nat, b: nat, bno: nat)
    requires Inv(s) && Inv(t)
  {
    && b < NBUF && Holds(t.bufs[b], bno) && t.bufs[b].owner == me && t.bufs[b].valid
    && t.view == s.view && t.blocks == s.blocks && t.pins == s.pins
    && t.users[b][me] == s.users[b][me] + 1
    && (s.users[b][me] > 0 || s.pins[b] > 0 ==> Holds(s.bufs[b], bno))
    && (forall c: nat :: c < NBUF && c != b ==> CalmBuf(s, t, me, c))
  }

  /** Taking a reference makes nothing dirty. */
  lemma CleanReference(s: Snap, t: Snap, b: nat)
    requires Inv(s) && Inv(t) && b < NBUF && OnlyDirty(s, {}) && t.blocks == s.blocks && t.pins == s.pins
    requires forall c: nat :: c < NBUF && c != b ==> t.bufs[c] == s.bufs[c]
    requires t.bufs[b].valid ==> t.bufs[b] == s.bufs[b].(refcnt := t.bufs[b].refcnt)
    ensures OnlyDirty(t, {})
  {
    forall c: nat | c < NBUF
      ensures !Dirty(t, c)
    {
      assert BufOk(s, c) && BufOk(t, c) && !Dirty(s, c);
    }
  }

  /** bread in four steps: take a reference, wait while others read, lock, fill. */
  lemma GotIt(s: Snap, s1: Snap, s2: Snap, t: Snap, me: nat, b: nat, bno: nat)
    requires Referenced(s, s1, s2, me, b, bno) && Inv(t) && bno < |s.view| && OnlyDirty(s2, {})
    requires t == s2.(bufs := s2.bufs[b := s2.bufs[b].(owner := me, valid := true, data := s.view[bno])])
    requires !s2.bufs[b].valid ==> s.view[bno] == s.blocks[bno]
    ensures Got(s, t, me, b, bno) && OnlyDirty(t, {})
  {
    assert BufOk(s, b) && CalmBuf(s1, s2, me, b) && BufOk(s2, b);
    forall c: nat | c < NBUF
      ensures !Dirty(t, c) && (c != b ==> CalmBuf(s, t, me, c))
    {
      assert CalmBuf(s1, s2, me, c) && !Dirty(s2, c) && BufOk(t, c);
    }
  }

  /** Process me holds exactly the two buffers b and c, and nothing else has changed since s
      that the log depends on. */
  ghost predicate TwoHeld(s: Snap, t: Snap, me: nat, b: nat, bno: nat, c: nat, cno: nat)
    requires Inv(s) && Inv(t)
  {
    && b < NBUF && Holds(t.bufs[b], bno) && t.bufs[b].owner == me && t.bufs[b].valid && t.users[b][me] == 1
    && c < NBUF && Holds(t.bufs[c], cno) && t.bufs[c].owner == me && t.bufs[c].valid && t.users[c][me] == 1
    && b != c && t.view == s.view && t.blocks == s.blocks && t.pins == s.pins
    && (forall x: nat :: x < NBUF && x != b && x != c ==> t.users[x][me] == 0)
    && (forall x: nat :: x < NBUF && s.pins[x] > 0 ==>
          t.bufs[x].dev == s.bufs[x].dev && t.bufs[x].blockno == s.bufs[x].blockno)
  }

  lemma HeldBoth(s0: Snap, s1: Snap, s2: Snap, me: nat, b: nat, bno: nat, c: nat, cno: nat)
    requires Inv(s0) && Inv(s1) && Inv(s2) && me != 0 && Idle(s0, me) && bno != cno
    requires Got(s0, s1, me, b, bno) && Got(s1, s2, me, c, cno)
    ensures TwoHeld(s0, s2, me, b, bno, c, cno)
  {
    assert BufOk(s1, b) && BufOk(s2, c) && BufOk(s1, c);
    assert b != c;
    assert CalmBuf(s1, s2, me, b) && CalmBuf(s0, s1, me, c);
    forall x: nat | x < NBUF && x != b && x != c
      ensures s2.users[x][me] == 0
    {
      assert CalmBuf(s0, s1, me, x) && CalmBuf(s1, s2, me, x);
    }
    forall x: nat | x < NBUF && s0.pins[x] > 0
      ensures s2.bufs[x].dev == s0.bufs[x].dev && s2.bufs[x].blockno == s0.bufs[x].blockno
    {
      assert x != b ==> CalmBuf(s0, s1, me, x);
      assert x != c ==> CalmBuf(s1, s2, me, x);
      assert BufOk(s0, x);
    }
  }

  /** The two buffers after b has been filled with data, written, perhaps unpinned, and both
      have been released. */
  ghost function WrittenBack(t: Snap, me: nat, b: nat, c: nat, data: Block, unpin: bool): (u: Snap)
    requires Inv(t) && b < NBUF && c < NBUF && b != c && t.bufs[b].blockno < |t.view|
    requires t.bufs[c].refcnt > 0 && t.bufs[b].refcnt > (if unpin then 1 else 0)
    requires unpin ==> t.pins[b] > 0
  {
    var bno, k := t.bufs[b].blockno, if unpin then 1 else 0;
    Snap(t.bufs[b := t.bufs[b].(data := data, owner := 0, refcnt := t.bufs[b].refcnt - 1 - k)]
               [c := t.bufs[c].(owner := 0, refcnt := t.bufs[c].refcnt - 1)],
         t.blocks[bno := data], t.view[bno := data],
         t.users[b := t.users[b] - multiset{me}][c := t.users[c] - multiset{me}],
         t.pins[b := t.pins[b] - k])
  }

  lemma WrittenBackClean(L: Layout, s: Snap, t: Snap, me: nat, b: nat, bno: nat, c: nat, cno: nat,
                         data: Block, unpin: bool)
    requires Inv(s) && Inv(t) && TwoHeld(s, t, me, b, bno, c, cno) && OnlyDirty(t, {})
    requires LogAreaOnDisk(L, s) && bno < |t.view|
    requires t.bufs[c].refcnt > 0 && t.bufs[b].refcnt > (if unpin then 1 else 0)
    requires unpin ==> t.pins[b] > 0
    requires Inv(WrittenBack(t, me, b, c, data, unpin))
    ensures var u := WrittenBack(t, me, b, c, data, unpin);
            Idle(u, me) && OnlyDirty(u, {}) && LogAreaOnDisk(L, u)
  {
    var u := WrittenBack(t, me, b, c, data, unpin);
    forall x: nat | x < NBUF
      ensures !Dirty(u, x)
    {
      assert BufOk(u, x) && !Dirty(t, x) && BufOk(t, x);
      if x != b && u.bufs[x].valid {
        assert u.bufs[x].dev != 0 && t.bufs[x].dev != 0;
        assert u.bufs[x].blockno != bno;
      }
    }
  }

  /** Pins move with their buffers: without bunpin the log's list stays pinned, with it the
      written block leaves the list. */
  lemma WrittenBackPins(s: Snap, t: Snap, me: nat, b: nat, bno: nat, c: nat, cno: nat,
                        data: Block, unpin: bool, homes: seq<nat>)
    requires Inv(s) && Inv(t) && TwoHeld(s, t, me, b, bno, c, cno) && PinsOk(s, homes) && bno < |t.view|
    requires t.bufs[c].refcnt > 0 && t.bufs[b].refcnt > (if unpin then 1 else 0)
    requires unpin ==> t.pins[b] > 0 && Distinct(homes) && |homes| > 0 && homes[0] == bno
    requires Inv(WrittenBack(t, me, b, c, data, unpin))
    ensures PinsOk(WrittenBack(t, me, b, c, data, unpin), if unpin then homes[1..] else homes)
  {
    var u := WrittenBack(t, me, b, c, data, unpin);
    var rest := if unpin then homes[1..] else homes;
    forall h: nat | h in rest
      ensures Pinned(u, h)
    {
      assert h in homes && Pinned(s, h) && (unpin ==> h != bno);
      var x: nat :| x < NBUF && s.pins[x] > 0 && Holds(s.bufs[x], h);
      assert Holds(u.bufs[x], h);
    }
  }

  /** A buffer held for a listed block is the pinned one. */
  lemma PinnedIs(s: Snap, t: Snap, me: nat, b: nat, bno: nat, c: nat, cno: nat, homes: seq<nat>)
    requires Inv(s) && Inv(t) && TwoHeld(s, t, me, b, bno, c, cno) && PinsOk(s, homes) && bno in homes
    ensures t.pins[b] > 0
  {
    assert Pinned(s, bno);
    var x: nat :| x < NBUF && s.pins[x] > 0 && Holds(s.bufs[x], bno);
    assert Holds(t.bufs[x], bno);
  }

  /** A buffer filled with data, written and released. */
  ghost function Written(t: Snap, me: nat, b: nat, data: Block): (u: Snap)
    requires Inv(t) && b < NBUF && t.bufs[b].blockno < |t.view| && t.bufs[b].refcnt > 0
  {
    var bno := t.bufs[b].blockno;
    Snap(t.bufs[b := t.bufs[b].(data := data, owner := 0, refcnt := t.bufs[b].refcnt - 1)],
         t.blocks[bno := data], t.view[bno := data],
         t.users[b := t.users[b] - multiset{me}], t.pins)
  }

  lemma WrittenClean(L: Layout, s: Snap, t: Snap, me: nat, b: nat, bno: nat, data: Block, homes: seq<nat>)
    requires Inv(s) && Inv(t) && Got(s, t, me, b, bno) && OnlyDirty(t, {}) && Idle(s, me)
    requires LogAreaOnDisk(L, s) && PinsOk(s, homes) && bno < |t.view| && t.bufs[b].refcnt > 0
    requires Inv(Written(t, me, b, data))
    ensures var u := Written(t, me, b, data);
            Idle(u, me) && OnlyDirty(u, {}) && LogAreaOnDisk(L, u) && PinsOk(u, homes)
  {
    var u := Written(t, me, b, data);
    forall x: nat | x < NBUF
      ensures !Dirty(u, x) && u.users[x][me] == 0
      ensures s.pins[x] > 0 ==> u.bufs[x].dev == s.bufs[x].dev && u.bufs[x].blockno == s.bufs[x].blockno
    {
      assert BufOk(u, x) && !Dirty(t, x) && BufOk(t, x) && BufOk(s, x);
      if x != b {
        assert CalmBuf(s, t, me, x);
        if u.bufs[x].valid {
          assert u.bufs[x].dev != 0 && t.bufs[x].dev != 0;
          assert u.bufs[x].blockno != bno;
        }
      }
    }
    forall h: nat | h in homes
      ensures Pinned(u, h)
    {
      assert Pinned(s, h);
      var x: nat :| x < NBUF && s.pins[x] > 0 && Holds(s.bufs[x], h);
      assert Holds(u.bufs[x], h);
    }
  }

  /** The block writes since tr0 are the first k writes of commit() for t on disk d. */
  ghost predicate CommitTrace(L: Layout, d: Image, t: Txn, tr0: seq<Image>, tr: seq<Image>, k: nat)
    requires Fits(L, d) && GoodTxn(L, d, t)
  {
    && k <= CommitLength(t) && |tr| == |tr0| + k && tr[..|tr0|] == tr0
    && (forall i :: |tr0| <= i < |tr| ==> tr[i] == CommitState(L, d, t, i - |tr0| + 1))
  }

  lemma CommitTraceStep(L: Layout, d: Image, t: Txn, tr0: seq<Image>, tr: seq<Image>, k: nat, e: Image)
    requires Fits(L, d) && GoodTxn(L, d, t) && CommitTrace(L, d, t, tr0, tr, k) && k < CommitLength(t)
    requires e == CommitState(L, d, t, k + 1)
    ensures CommitTrace(L, d, t, tr0, tr + [e], k + 1)
  {
  }

  /** The block writes since tr0 are the first k writes of install_trans on disk e. */
  ghost predicate InstallTrace(L: Layout, e: Image, homes: seq<nat>, tr0: seq<Image>, tr: seq<Image>, k: nat)
    requires Fits(L, e) && GoodHomes(L, e, homes)
  {
    && k <= |homes| && |tr| == |tr0| + k && tr[..|tr0|] == tr0
    && (forall i :: |tr0| <= i < |tr| ==> tr[i] == Install(L, e, homes, i - |tr0| + 1))
  }

  /** The log block that is installed next is as it was. */
  lemma LogBlockKept(L: Layout, e: Image, homes: seq<nat>, k: nat)
    requires Fits(L, e) && GoodHomes(L, e, homes) && k < |homes|
    ensures L.start + k + 1 < |e| && InLog(L, L.start + k + 1)
    ensures Install(L, e, homes, k)[L.start + k + 1] == e[L.start + k + 1]
  {
    InstallKeepsLog(L, e, homes, k);
  }

  lemma InstallTraceStep(L: Layout, e: Image, homes: seq<nat>, tr0: seq<Image>, tr: seq<Image>, k: nat, f: Image)
    requires Fits(L, e) && GoodHomes(L, e, homes) && InstallTrace(L, e, homes, tr0, tr, k) && k < |homes|
    requires f == Install(L, e, homes, k + 1)
    ensures InstallTrace(L, e, homes, tr0, tr + [f], k + 1)
  {
  }

  /** The installing part of a commit, after the header write. */
  lemma CommitTraceInstall(L: Layout, d: Image, t: Txn, tr0: seq<Image>, tr1: seq<Image>, tr: seq<Image>, k: nat)
    requires Fits(L, d) && GoodTxn(L, d, t) && CommitTrace(L, d, t, tr0, tr1, |t.homes| + 1)
    requires InstallTrace(L, HeadWritten(L, d, t), t.homes, tr1, tr, k)
    ensures CommitTrace(L, d, t, tr0, tr, |t.homes| + 1 + k)
  {
    var m := |t.homes| + 1;
    assert tr[..|tr0|] == tr1[..|tr0|];
    forall i | |tr0| <= i < |tr|
      ensures tr[i] == CommitState(L, d, t, i - |tr0| + 1)
    {
      if i < |tr1| {
        assert tr[i] == tr[..|tr1|][i];
      } else {
        assert tr[i] == Install(L, HeadWritten(L, d, t), t.homes, i - |tr1| + 1);
      }
    }
  }

  /** The cache as the committing process leaves it between two block writes: it holds no
      buffer, nothing is dirty, and exactly the blocks in homes are pinned. */
  ghost predicate Steady(L: Layout, s: Snap, me: nat, homes: seq<nat>)
    requires Inv(s)
  {
    me != 0 && LogAreaOnDisk(L, s) && OnlyDirty(s, {}) && Idle(s, me) && PinsOk(s, homes)
  }

  // ---------- when there is no buffer ----------

  /** bget has no buffer for block bno: no buffer holds it, and all are referenced. */
  ghost predicate NoBuffer(s: Snap, bno: nat) {
    forall b: nat {:trigger s.bufs[b]} :: b < |s.bufs| ==> !Holds(s.bufs[b], bno) && s.bufs[b].refcnt > 0
  }

  /** A process other than me has the buffer of block bno locked. */
  ghost predicate Elsewhere(s: Snap, bno: nat, me: nat) {
    exists b: nat {:trigger s.bufs[b]} :: b < |s.bufs| && Holds(s.bufs[b], bno) && s.bufs[b].owner != 0
                                          && s.bufs[b].owner != me
  }

  /** The buffer of block bno is locked, by anyone, or by me. */
  ghost predicate Locked(s: Snap, bno: nat) {
    exists b: nat {:trigger s.bufs[b]} :: b < |s.bufs| && Holds(s.bufs[b], bno) && s.bufs[b].owner != 0
  }

  ghost predicate Mine(s: Snap, bno: nat, me: nat) {
    exists b: nat {:trigger s.bufs[b]} :: b < |s.bufs| && Holds(s.bufs[b], bno) && s.bufs[b].owner == me
  }

  /** Why me cannot have some block. */
  ghost predicate Stuck(s: Snap, me: nat) {
    exists bno: nat {:trigger NoBuffer(s, bno)} :: bno < |s.view| && (NoBuffer(s, bno) || Elsewhere(s, bno, me))
  }

  /** Nobody uses a buffer. */
  ghost predicate NoUsers(s: Snap) {
    forall b: nat {:trigger s.users[b]} :: b < |s.users| ==> s.users[b] == multiset{}
  }

  /** All buffers but b are referenced, and none of those holds block cno. */
  ghost predicate AllBut(s: Snap, b: nat, cno: nat) {
    forall c: nat {:trigger s.bufs[c]} :: c < |s.bufs| && c != b ==> !Holds(s.bufs[c], cno) && s.bufs[c].refcnt > 0
  }

  lemma NoneThere(s: Snap, me: nat, bno: nat)
    requires Inv(s) && bno < |s.view| && forall x :: x in s.bufs ==> !Holds(x, bno) && x.refcnt > 0
    ensures NoBuffer(s, bno) && Stuck(s, me) == true
  {
    assert forall b: nat :: b < |s.bufs| ==> s.bufs[b] in s.bufs;
  }

  /** bget's result tells that there was a buffer, and who had it locked. */
  lemma BufferGot(s: Snap, t: Snap, b: nat, bno: nat)
    requires Inv(s) && Inv(t) && b < NBUF && Holds(t.bufs[b], bno)
    requires if Holds(s.bufs[b], bno) then t.bufs[b].owner == s.bufs[b].owner
             else s.bufs[b].refcnt == 0 && t.bufs[b].owner == 0 && forall x :: x in s.bufs ==> !Holds(x, bno)
    ensures !NoBuffer(s, bno) && (Locked(s, bno) <==> t.bufs[b].owner != 0)
  {
    if Locked(s, bno) {
      var c: nat :| c < |s.bufs| && Holds(s.bufs[c], bno) && s.bufs[c].owner != 0;
      assert s.bufs[c] in s.bufs;
    }
  }

  /** From s, me has taken a reference to buffer b for block bno, in s1, and then waited, until s2. */
  ghost predicate Referenced(s: Snap, s1: Snap, s2: Snap, me: nat, b: nat, bno: nat) {
    && Inv(s) && Inv(s1) && Inv(s2) && b < NBUF
    && s1.view == s.view && s1.blocks == s.blocks && s1.pins == s.pins && Holds(s1.bufs[b], bno)
    && s1.users == s.users[b := s.users[b] + multiset{me}]
    && (forall c: nat :: c < NBUF && c != b ==> s1.bufs[c] == s.bufs[c])
    && (if Holds(s.bufs[b], bno) then s1.bufs[b].owner == s.bufs[b].owner
        else s.bufs[b].refcnt == 0 && s1.bufs[b].owner == 0)
    && Calm(s1, s2, me) && !NoBuffer(s, bno) && (Locked(s, bno) <==> s1.bufs[b].owner != 0)
  }

  /** A buffer that is found locked after waiting is not locked by the waiting process. */
  lemma LockedThere(s: Snap, s1: Snap, s2: Snap, me: nat, b: nat, bno: nat)
    requires Referenced(s, s1, s2, me, b, bno) && s2.bufs[b].owner != 0 && bno < |s2.view|
    ensures !Mine(s, bno, me) && me != 0 ==> Stuck(s2, me) == true
  {
    if !Mine(s, bno, me) && me != 0 {
      assert CalmBuf(s1, s2, me, b);
      assert s2.bufs[b].owner != me;
      assert Elsewhere(s2, bno, me);
      assert NoBuffer(s2, bno) || Elsewhere(s2, bno, me);
    }
  }

  lemma IdleNotMine(s: Snap, bno: nat, me: nat)
    requires Inv(s) && Idle(s, me) && me != 0
    ensures !Mine(s, bno, me)
  {
    forall b: nat | b < |s.bufs|
      ensures s.bufs[b].owner != me
    {
      assert BufOk(s, b);
    }
  }

  lemma NotLocked(s: Snap, bno: nat)
    requires Inv(s)
    ensures NoUsers(s) ==> !Locked(s, bno)
  {
    if NoUsers(s) {
      forall b: nat | b < |s.bufs|
        ensures s.bufs[b].owner == 0
      {
        assert BufOk(s, b);
      }
    }
  }

  /** The buffer that me has is not that of another block. */
  lemma SecondFree(s: Snap, s1: Snap, me: nat, b: nat, bno: nat, cno: nat)
    requires Inv(s) && Inv(s1) && Idle(s, me) && me != 0 && bno != cno && Got(s, s1, me, b, bno)
    ensures !Mine(s1, cno, me)
  {
    forall c: nat | c < |s1.bufs| && Holds(s1.bufs[c], cno)
      ensures s1.bufs[c].owner != me
    {
      if c != b {
        assert CalmBuf(s, s1, me, c) && BufOk(s1, c);
      }
    }
  }

  /** With me alone, the second bread fails only if all other buffers are taken. */
  lemma SecondNone(s: Snap, s1: Snap, me: nat, b: nat, bno: nat, cno: nat)
    requires Inv(s) && Inv(s1) && Got(s, s1, me, b, bno) && bno != cno
    ensures NoUsers(s) && OthersKept(s, s1, b) && (NoBuffer(s1, cno) || Locked(s1, cno)) ==> AllBut(s, b, cno)
  {
    if NoUsers(s) && OthersKept(s, s1, b) {
      forall c: nat | c < |s1.bufs| && Holds(s1.bufs[c], cno)
        ensures s1.bufs[c].owner == 0
      {
        assert c != b && s1.bufs[c] == s.bufs[c] && BufOk(s, c);
      }
    }
  }

  /** What a step that needs buffers came to: it stops only if me is stuck; and if me is alone, nobody uses a
      buffer, and there is room for what is needed, then it does not stop, and nobody uses one afterwards. */
  ghost predicate Served(s: Snap, t: Snap, me: nat, alone: bool, room: bool, ok: bool) {
    && (!ok ==> Stuck(t, me)) && (alone && NoUsers(s) && room ==> ok) && (alone && NoUsers(s) && ok ==> NoUsers(t))
  }

  lemma ServedTwice(s: Snap, t: Snap, u: Snap, me: nat, alone: bool, room: bool, ok: bool)
    requires Served(s, t, me, alone, room, true) == Served(t, u, me, alone, room, ok) == true
    ensures Served(s, u, me, alone, room, ok) == true
  {
  }

  lemma ServedMore(s: Snap, t: Snap, me: nat, alone: bool, room: bool, less: bool, ok: bool)
    requires Served(s, t, me, alone, room, ok) && (less ==> room)
    ensures Served(s, t, me, alone, less, ok) == true
  {
  }

  lemma TailOf(lh: seq<nat>, tail: nat)
    requires tail < |lh|
    ensures lh[tail..][1..] == lh[tail + 1..] && |lh[tail..]| == |lh| - tail && lh[tail..][0] == lh[tail]
    ensures lh[tail] in lh[tail..]
  {
  }

  lemma RoundRoom(s: Snap, me: nat, homes: seq<nat>, logno: nat, home: nat, alone: bool, ok: bool, b: nat)
    requires Inv(s) && PinsOk(s, homes)
    requires alone && NoUsers(s) ==> (ok ==> !NoBuffer(s, logno))
    requires alone && NoUsers(s) && !ok && !NoBuffer(s, logno) ==> b < NBUF && AllBut(s, b, home)
    ensures alone && NoUsers(s) && |homes| + (if home in homes then 0 else 1) < NBUF ==> ok
    ensures alone && NoUsers(s) && Distinct(homes) && |homes| >= NBUF && logno !in homes ==> !ok
  {
    if alone && NoUsers(s) {
      if |homes| < NBUF {
        Spare(s, homes, logno);
        if !ok && |homes| + (if home in homes then 0 else 1) < NBUF {
          SpareBut(s, homes, b, home);
        }
      } else if Distinct(homes) && logno !in homes {
        AllPinned(s, homes, logno);
      }
    }
  }

  /** What was taken has been given back. */
  lemma UsersBack(s: Snap, t: Snap, u: Snap, me: nat, b: nat, c: nat, alone: bool)
    requires |s.users| == |t.users| == NBUF && b < NBUF && c < NBUF && b != c
    requires alone ==> t.users == s.users[b := s.users[b] + multiset{me}][c := s.users[c] + multiset{me}]
    requires u.users == t.users[b := t.users[b] - multiset{me}][c := t.users[c] - multiset{me}]
             || u.users == t.users[c := t.users[c] - multiset{me}][b := t.users[b] - multiset{me}]
    ensures alone ==> u.users == s.users
  {
    assert s.users[b] + multiset{me} - multiset{me} == s.users[b];
    assert s.users[c] + multiset{me} - multiset{me} == s.users[c];
  }

  lemma OneBack(s: Snap, t: Snap, u: Snap, me: nat, b: nat, alone: bool)
    requires b < |s.users| == |t.users|
    requires alone ==> t.users == s.users[b := s.users[b] + multiset{me}]
    requires u.users == t.users[b := t.users[b] - multiset{me}]
    ensures alone ==> u.users == s.users
  {
    assert s.users[b] + multiset{me} - multiset{me} == s.users[b];
  }

  /** brelse of the header's block, which has only been read. */
  lemma HeadGivenBack(L: Layout, s: Snap, t: Snap, u: Snap, me: nat, b: nat, alone: bool)
    requires Inv(s) && Inv(t) && Inv(u) && Steady(L, s, me, []) && Got(s, t, me, b, L.start) && OnlyDirty(t, {})
    requires L.start < |t.view| && |s.users| == |t.users| && t.bufs[b].refcnt > 0
    requires alone ==> t.users == s.users[b := s.users[b] + multiset{me}]
    requires u == t.(bufs := t.bufs[b := t.bufs[b].(owner := 0, refcnt := t.bufs[b].refcnt - 1)],
                     users := t.users[b := t.users[b] - multiset{me}])
    ensures Steady(L, u, me, []) == true && Served(s, u, me, alone, true, true) == true
  {
    assert BufOk(t, b);
    assert u == Written(t, me, b, t.bufs[b].data);
    WrittenClean(L, s, t, me, b, L.start, t.bufs[b].data, []);
    OneBack(s, t, u, me, b, alone);
  }

  function Skipping(b: nat, i: nat): (c: nat) {
    if i < b then i else i + 1
  }

  /** The block numbers of all buffers but b. */
  ghost function BlocksBut(s: Snap, b: nat): (r: seq<nat>)
    requires |s.bufs| == NBUF
  {
    seq(NBUF - 1, i requires 0 <= i < NBUF - 1 => s.bufs[Skipping(b, i)].blockno)
  }

  /** With nobody using them, at least 29 blocks other than cno are in the log if all buffers but b are
      referenced. */
  lemma SpareBut(s: Snap, homes: seq<nat>, b: nat, cno: nat)
    requires Inv(s) && NoUsers(s) && PinsOk(s, homes) && b < NBUF
    requires |homes| + (if cno in homes then 0 else 1) < NBUF
    ensures !AllBut(s, b, cno)
  {
    if AllBut(s, b, cno) {
      var held := BlocksBut(s, b);
      forall i | 0 <= i < NBUF - 1
        ensures s.bufs[Skipping(b, i)].dev != 0 && held[i] in homes && held[i] != cno
      {
        assert BufOk(s, Skipping(b, i));
      }
      assert Distinct(held);
      CountSeq(held);
      CountAtMost(homes);
      Subset(Elements(held), Elements(homes) - {cno});
    }
  }

  lemma Spare(s: Snap, homes: seq<nat>, bno: nat)
    requires Inv(s) && NoUsers(s) && PinsOk(s, homes) && |homes| < NBUF
    ensures !NoBuffer(s, bno)
  {
    if NoBuffer(s, bno) {
      assert BufOk(s, 0) && s.pins[0] > 0 && s.bufs[0].dev != 0;
      assert AllBut(s, 0, s.bufs[0].blockno);
      SpareBut(s, homes, 0, s.bufs[0].blockno);
    }
  }

  /** A log of as many blocks as there are buffers leaves none for any other block. */
  lemma AllPinned(s: Snap, homes: seq<nat>, bno: nat)
    requires Inv(s) && PinsOk(s, homes) && Distinct(homes) && |homes| >= NBUF && bno !in homes
    ensures NoBuffer(s, bno)
  {
    forall b: nat | b < NBUF
      ensures s.pins[b] > 0
    {
      if s.pins[b] == 0 {
        forall h | h in Elements(homes)
          ensures h in Elements(BlocksBut(s, b))
        {
          assert Pinned(s, h);
          var x: nat :| x < NBUF && s.pins[x] > 0 && Holds(s.bufs[x], h);
          var i := if x < b then x else x - 1;
          assert BlocksBut(s, b)[i] == h;
        }
        CountSeq(homes);
        CountAtMost(BlocksBut(s, b));
        Subset(Elements(homes), Elements(BlocksBut(s, b)));
      }
    }
    forall b: nat | b < NBUF
      ensures !Holds(s.bufs[b], bno) && s.bufs[b].refcnt > 0
    {
      assert BufOk(s, b);
    }
  }

  /** One step of a process that only reads: take a reference, lock and read, or release. */
  datatype ReaderStep = Get(pid: nat, bno: nat) | Read(pid: nat, b: nat) | Release(pid: nat, b: nat)

  ghost predicate Refers(s: Snap, t: Snap, pid: nat, bno: nat, b: nat) {
    && b < |t.bufs| && b < |s.users| && Holds(t.bufs[b], bno)
    && t.users == s.users[b := s.users[b] + multiset{pid}]
  }

  /** What a step of a process other than me has done, if it could be done. */
  ghost predicate ReaderDone(s: Snap, x: ReaderStep, t: Snap, me: nat) {
    if x.pid == 0 || x.pid == me then t == s
    else
      match x
      case Get(pid, bno) =>
        if bno >= |s.blocks| || NoBuffer(s, bno) then t == s else exists b: nat :: Refers(s, t, pid, bno, b)
      case Read(pid, b) =>
        if b < |s.bufs| && b < |s.users| && s.bufs[b].owner == 0 && pid in s.users[b] then
          b < |t.bufs| && t.bufs[b].owner == pid && t.bufs[b].valid && t.users == s.users
        else t == s
      case Release(pid, b) =>
        if b < |s.bufs| && b < |s.users| && s.bufs[b].owner == pid then
          b < |t.bufs| && t.bufs[b].owner == 0 && t.users == s.users[b := s.users[b] - multiset{pid}]
        else t == s
  }

  ghost predicate ReadersDone(script: seq<ReaderStep>, ss: seq<Snap>, me: nat) {
    |ss| <= |script| + 1 && forall i :: 0 <= i < |ss| - 1 ==> ReaderDone(ss[i], script[i], ss[i + 1], me) == true
  }

  lemma ReadersMore(script: seq<ReaderStep>, ss: seq<Snap>, t: Snap, me: nat)
    requires ReadersDone(script, ss, me) && 1 <= |ss| <= |script| &&
              ReaderDone(ss[|ss| - 1], script[|ss| - 1], t, me) == true
    ensures ReadersDone(script, ss + [t], me) == true
  {
  }

  class WriteAheadLog {
    const L: Layout
    const cache: BCache
    var lh: seq<nat>                 // log.lh: its first n block numbers
    var outstanding: nat
    var committing: bool
    ghost var units: map<nat, nat>   // process with an open operation -> its unspent units
    ghost var durable: seq<Block>    // the view at the last commit

    constructor (disk: Disk, L: Layout)
      ensures this.L == L && cache.disk == disk && cache.Valid() && cache.view == disk.blocks
      ensures fresh(cache) && fresh(cache.buf) && fresh(cache.list) && fresh(cache.list.prev) && fresh(cache.list.next)
      ensures lh == [] && outstanding == 0 && !committing && units == map[] && NoUsers(cache.Now())
      ensures forall me: nat {:trigger Steady(L, cache.Now(), me, [])} :: me != 0 ==> Steady(L, cache.Now(), me, [])
    {
      this.L := L;
      cache := new BCache(disk);
      lh, outstanding, committing, units, durable := [], 0, false, map[], [];
      new;
      assert forall b: nat :: b < NBUF ==> BufOk(cache.Now(), b) && !Dirty(cache.Now(), b);
    }

    // ---------- readers ----------

    /** Any steps of other processes that read but do not write. */
    method Readers(me: nat, script: seq<ReaderStep>) returns (ghost ss: seq<Snap>)
      requires cache.Valid() && me != 0 && OnlyDirty(cache.Now(), {})
      modifies cache`users, cache`stamp, cache`clock, cache.buf, cache.list`order, cache.list.prev, cache.list.next
      ensures cache.Valid() && Calm(old(cache.Now()), cache.Now(), me) && OnlyDirty(cache.Now(), {})
      ensures |ss| == |script| + 1 && ss[0] == old(cache.Now()) && ss[|script|] == cache.Now()
      ensures ReadersDone(script, ss, me) == true
    {
      ghost var s := cache.Now();
      ss := [s];
      for i := 0 to |script|
        invariant cache.Valid() && Calm(s, cache.Now(), me) && OnlyDirty(cache.Now(), {})
        invariant |ss| == i + 1 && ss[0] == s && ss[i] == cache.Now() && ReadersDone(script, ss, me) == true
      {
        ghost var t := cache.Now();
        ReaderAction(me, script[i]);
        CalmTransitive(s, t, cache.Now(), me);
        ReadersMore(script, ss, cache.Now(), me);
        ss := ss + [cache.Now()];
      }
    }

    method ReaderAction(me: nat, step: ReaderStep)
      requires cache.Valid() && me != 0 && OnlyDirty(cache.Now(), {})
      modifies cache`users, cache`stamp, cache`clock, cache.buf, cache.list`order, cache.list.prev, cache.list.next
      ensures cache.Valid() && Calm(old(cache.Now()), cache.Now(), me) && OnlyDirty(cache.Now(), {})
      ensures ReaderDone(old(cache.Now()), step, cache.Now(), me) == true
    {
      if step.pid == 0 || step.pid == me {
        return;
      }
      match step
      case Get(pid, bno) => ReaderGet(me, pid, bno);
      case Read(pid, b) => ReaderRead(me, pid, b);
      case Release(pid, b) => ReaderRelease(me, pid, b);
    }

    method ReaderGet(me: nat, pid: nat, bno: nat)
      requires cache.Valid() && me != 0 && OnlyDirty(cache.Now(), {}) && pid != 0 && pid != me
      modifies cache`users, cache`stamp, cache`clock, cache.buf, cache.list`order, cache.list.prev, cache.list.next
      ensures cache.Valid() && Calm(old(cache.Now()), cache.Now(), me) && OnlyDirty(cache.Now(), {})
      ensures ReaderDone(old(cache.Now()), Get(pid, bno), cache.Now(), me) == true
    {
      ghost var s := cache.Now();
      if bno < |cache.disk.blocks| {
        var r := cache.Bget(pid, bno);
        if r.Some? {
          assert BufOk(s, r.value);
          CalmChange(s, cache.Now(), me, r.value);
          assert Refers(s, cache.Now(), pid, bno, r.value);
        } else {
          NoneThere(s, pid, bno);
        }
      }
    }

    method ReaderRead(me: nat, pid: nat, b: nat)
      requires cache.Valid() && me != 0 && OnlyDirty(cache.Now(), {}) && pid != 0 && pid != me
      modifies cache`users, cache`stamp, cache`clock, cache.buf, cache.list`order, cache.list.prev, cache.list.next
      ensures cache.Valid() && Calm(old(cache.Now()), cache.Now(), me) && OnlyDirty(cache.Now(), {})
      ensures ReaderDone(old(cache.Now()), Read(pid, b), cache.Now(), me) == true
    {
      ghost var s := cache.Now();
      if b < NBUF && cache.buf[b].owner == 0 && pid in cache.users[b] {
        assert BufOk(s, b);
        cache.Lock(pid, b);
        cache.Fill(pid, b);
        CalmChange(s, cache.Now(), me, b);
      }
    }

    method ReaderRelease(me: nat, pid: nat, b: nat)
      requires cache.Valid() && me != 0 && OnlyDirty(cache.Now(), {}) && pid != 0 && pid != me
      modifies cache`users, cache`stamp, cache`clock, cache.buf, cache.list`order, cache.list.prev, cache.list.next
      ensures cache.Valid() && Calm(old(cache.Now()), cache.Now(), me) && OnlyDirty(cache.Now(), {})
      ensures ReaderDone(old(cache.Now()), Release(pid, b), cache.Now(), me) == true
    {
      ghost var s := cache.Now();
      if b < NBUF && cache.buf[b].owner == pid {
        assert BufOk(s, b);
        assert !Dirty(s, b);
        cache.Brelse(pid, b);
        CalmChange(s, cache.Now(), me, b);
      }
    }

    // ---------- bread by the committing process ----------

    /** None if the cache is out of buffers (a panic) or another process never lets go of
        the buffer; in both cases the caller writes nothing more. If it is alone no other process does
        anything meanwhile. */
    method Bread(me: nat, bno: nat, alone: bool) returns (r: Option<nat>)
      requires cache.Valid() && me != 0 && OnlyDirty(cache.Now(), {}) && bno < |cache.view|
      modifies cache`users, cache`stamp, cache`clock, cache.buf, cache.list`order, cache.list.prev, cache.list.next
      ensures cache.Valid() && OnlyDirty(cache.Now(), {})
      ensures cache.view == old(cache.view)
      ensures r.Some? ==> Got(old(cache.Now()), cache.Now(), me, r.value, bno)
      ensures r.None? && !Mine(old(cache.Now()), bno, me) ==> Stuck(cache.Now(), me) == true
      ensures alone ==> (r.None? <==> NoBuffer(old(cache.Now()), bno) || Locked(old(cache.Now()), bno))
      ensures alone && r.Some? ==> OthersKept(old(cache.Now()), cache.Now(), r.value)
      ensures alone && r.Some? ==> cache.users == old(cache.users)[r.value := old(cache.users)[r.value] + multiset{me}]
    {
      ghost var s, s1 := cache.Now(), cache.Now();
      r, s1 := Reference(me, bno, alone);
      if r.None? {
        assert NoBuffer(s, bno) || Elsewhere(s, bno, me);
        return;
      }
      var b := r.value;
      ghost var s2 := cache.Now();
      assert CalmBuf(s1, s2, me, b);
      if cache.buf[b].owner != 0 {
        LockedThere(s, s1, s2, me, b, bno);
        return None;
      }
      cache.Lock(me, b);
      cache.Fill(me, b);
      GotIt(s, s1, s2, cache.Now(), me, b, bno);
    }

    /** bget, and the wait for the buffer. */
    method Reference(me: nat, bno: nat, alone: bool) returns (r: Option<nat>, ghost s1: Snap)
      requires cache.Valid() && me != 0 && OnlyDirty(cache.Now(), {}) && bno < |cache.view|
      modifies cache`users, cache`stamp, cache`clock, cache.buf, cache.list`order, cache.list.prev, cache.list.next
      ensures cache.Valid() && OnlyDirty(cache.Now(), {}) && cache.view == old(cache.view)
      ensures r.None? ==> NoBuffer(old(cache.Now()), bno) && cache.Now() == old(cache.Now())
      ensures r.Some? ==> Referenced(old(cache.Now()), s1, cache.Now(), me, r.value, bno)
      ensures r.Some? && alone ==> cache.Now() == s1
    {
      ghost var s := cache.Now();
      r := cache.Bget(me, bno);
      s1 := cache.Now();
      if r.None? {
        NoneThere(s, me, bno);
        return;
      }
      BufferGot(s, s1, r.value, bno);
      CleanReference(s, s1, r.value);
      if !alone {
        var script: seq<ReaderStep> := *;
        ghost var ss := Readers(me, script);
      }
    }

    /** The two bread calls that start a round of write_log or install_trans. */
    method BreadTwo(me: nat, bno: nat, cno: nat, alone: bool) returns (ok: bool, b: nat, c: nat)
      requires cache.Valid() && me != 0 && OnlyDirty(cache.Now(), {}) && Idle(cache.Now(), me)
      requires bno < |cache.view| && cno < |cache.view| && bno != cno
      modifies cache`users, cache`stamp, cache`clock, cache.buf, cache.list`order, cache.list.prev, cache.list.next
      ensures cache.Valid() && OnlyDirty(cache.Now(), {})
      ensures ok ==> TwoHeld(old(cache.Now()), cache.Now(), me, b, bno, c, cno)
      ensures !ok ==> Stuck(cache.Now(), me) == true
      ensures alone && NoUsers(old(cache.Now())) ==> (ok ==> !NoBuffer(old(cache.Now()), bno))
      ensures alone && NoUsers(old(cache.Now())) && !ok && !NoBuffer(old(cache.Now()), bno) ==>
                b < NBUF && AllBut(old(cache.Now()), b, cno)
      ensures alone && ok ==>
                && |old(cache.users)| == NBUF
                && cache.users == old(cache.users)[b := old(cache.users)[b] + multiset{me}]
                                                  [c := old(cache.users)[c] + multiset{me}]
    {
      ghost var s := cache.Now();
      b, c := 0, 0;
      IdleNotMine(s, bno, me);
      var first := Bread(me, bno, alone);
      if first.None? {
        NotLocked(s, bno);
        return false, 0, 0;
      }
      ghost var s1 := cache.Now();
      b := first.value;
      SecondFree(s, s1, me, b, bno, cno);
      var second := Bread(me, cno, alone);
      if second.None? {
        SecondNone(s, s1, me, b, bno, cno);
        return false, b, 0;
      }
      HeldBoth(s, s1, cache.Now(), me, b, bno, second.value, cno);
      return true, b, second.value;
    }

    /** memmove into the buffer, then bwrite. */
    method Store(me: nat, b: nat, data: Block)
      requires cache.Valid() && me != 0 && b < NBUF && cache.buf[b].owner == me && cache.buf[b].valid
      modifies cache`view, cache.buf, cache.disk
      ensures cache.Valid() && old(cache.buf[b].blockno) < |old(cache.view)|
      ensures cache.Now() == old(cache.Now()).(
                bufs := old(cache.buf[..])[b := old(cache.buf[b]).(data := data)],
                blocks := old(cache.disk.blocks)[old(cache.buf[b].blockno) := data],
                view := old(cache.view)[old(cache.buf[b].blockno) := data])
      ensures cache.disk.trace == old(cache.disk.trace) + [cache.disk.blocks]
    {
      cache.Modify(me, b, data);
      cache.Bwrite(me, b);
    }

    /** brelse on two clean buffers. */
    method ReleaseBoth(me: nat, b: nat, c: nat)
      requires cache.Valid() && me != 0 && b < NBUF && c < NBUF && b != c
      requires cache.buf[b].owner == me && cache.buf[c].owner == me
      requires !Dirty(cache.Now(), b) && !Dirty(cache.Now(), c)
      modifies cache`users, cache`stamp, cache`clock, cache.buf, cache.list`order, cache.list.prev, cache.list.next
      ensures cache.Valid() && old(cache.buf[b].refcnt) > 0 && old(cache.buf[c].refcnt) > 0
      ensures cache.Now() == old(cache.Now()).(
                bufs := old(cache.buf[..])
                        [b := old(cache.buf[b]).(owner := 0, refcnt := old(cache.buf[b].refcnt) - 1)]
                        [c := old(cache.buf[c]).(owner := 0, refcnt := old(cache.buf[c].refcnt) - 1)],
                users := old(cache.users)[b := old(cache.users[b]) - multiset{me}]
                                         [c := old(cache.users[c]) - multiset{me}])
    {
      assert BufOk(cache.Now(), b) && BufOk(cache.Now(), c);
      cache.Brelse(me, c);
      cache.Brelse(me, b);
    }

    /** Write data through b and, if asked for, give back its pin. */
    method StoreUnpin(me: nat, b: nat, data: Block, unpin: bool)
      requires cache.Valid() && me != 0 && b < NBUF && cache.buf[b].owner == me && cache.buf[b].valid
      requires unpin ==> cache.pins[b] > 0
      modifies cache`view, cache`pins, cache.buf, cache.disk
      ensures cache.Valid() && old(cache.buf[b].blockno) < |old(cache.view)|
      ensures old(cache.buf[b].refcnt) > (if unpin then 1 else 0)
      ensures cache.Now() == old(cache.Now()).(
                bufs := old(cache.buf[..])[b := old(cache.buf[b]).(
                          data := data, refcnt := old(cache.buf[b].refcnt) - (if unpin then 1 else 0))],
                blocks := old(cache.disk.blocks)[old(cache.buf[b].blockno) := data],
                view := old(cache.view)[old(cache.buf[b].blockno) := data],
                pins := if unpin then old(cache.pins)[b := old(cache.pins)[b] - 1] else old(cache.pins))
      ensures cache.disk.trace == old(cache.disk.trace) + [cache.disk.blocks]
    {
      assert BufOk(cache.Now(), b);
      Store(me, b, data);
      if unpin {
        cache.Bunpin(b);
      }
    }

    /** Fill b with data and write it to disk, then release c and b. */
    method WriteBack(me: nat, b: nat, c: nat, data: Block, unpin: bool)
      requires cache.Valid() && me != 0 && b < NBUF && c < NBUF && b != c
      requires cache.buf[b].owner == me && cache.buf[b].valid && cache.buf[c].owner == me && cache.buf[c].valid
      requires OnlyDirty(cache.Now(), {}) && (unpin ==> cache.pins[b] > 0)
      modifies cache, cache.buf, cache.list`order, cache.list.prev, cache.list.next, cache.disk
      ensures cache.Valid() && old(cache.buf[b].blockno) < |old(cache.view)| && old(cache.buf[c].refcnt) > 0
      ensures old(cache.buf[b].refcnt) > (if unpin then 1 else 0)
      ensures cache.Now() == WrittenBack(old(cache.Now()), me, b, c, data, unpin)
      ensures cache.disk.trace == old(cache.disk.trace) + [cache.disk.blocks]
    {
      ghost var t := cache.Now();
      assert BufOk(t, b) && BufOk(t, c) && !Dirty(t, c);
      assert t.bufs[b].blockno != t.bufs[c].blockno;
      StoreUnpin(me, b, data, unpin);
      ReleaseBoth(me, b, c);
    }

    // ---------- commit and recovery ----------

    /** What holds between two block writes of the committing or recovering process. */
    ghost predicate Working(me: nat, homes: seq<nat>)
      reads this, cache, cache.buf, cache.list, cache.list.prev, cache.list.next, cache.disk
    {
      && cache.Valid() && Steady(L, cache.Now(), me, homes)
      && Fits(L, cache.disk.blocks) && GoodHomes(L, cache.disk.blocks, lh)
    }

    /** The rest of a round: write data through b, then release both buffers. */
    method FinishRound(me: nat, b: nat, bno: nat, c: nat, cno: nat, data: Block, unpin: bool,
                       ghost s: Snap, ghost homes: seq<nat>)
      requires cache.Valid() && OnlyDirty(cache.Now(), {}) && Inv(s)
      requires TwoHeld(s, cache.Now(), me, b, bno, c, cno) && Steady(L, s, me, homes)
      requires unpin ==> Distinct(homes) && |homes| > 0 && homes[0] == bno
      modifies cache, cache.buf, cache.list`order, cache.list.prev, cache.list.next, cache.disk
      ensures cache.Valid() && bno < |s.view|
      ensures Steady(L, cache.Now(), me, if unpin then homes[1..] else homes)
      ensures cache.view == s.view[bno := data] && cache.disk.blocks == s.blocks[bno := data]
      ensures cache.disk.trace == old(cache.disk.trace) + [cache.disk.blocks]
      ensures c < |old(cache.users)| && b < |old(cache.users)|
      ensures cache.users == old(cache.users)[b := old(cache.users)[b] - multiset{me}]
                                             [c := old(cache.users)[c] - multiset{me}]
    {
      ghost var t := cache.Now();
      assert BufOk(t, b);
      if unpin {
        PinnedIs(s, t, me, b, bno, c, cno, homes);
      }
      WriteBack(me, b, c, data, unpin);
      WrittenBackClean(L, s, t, me, b, bno, c, cno, data, unpin);
      WrittenBackPins(s, t, me, b, bno, c, cno, data, unpin, homes);
    }

    /** One round of write_log or install_trans: copy between a log block and a home block. */
    method Round(me: nat, logno: nat, home: nat, toLog: bool, unpin: bool, ghost homes: seq<nat>, alone: bool)
      returns (ok: bool)
      requires cache.Valid() && Steady(L, cache.Now(), me, homes)
      requires logno < |cache.view| && home < |cache.view| && logno != home
      requires unpin ==> !toLog && Distinct(homes) && |homes| > 0 && homes[0] == home
      modifies cache, cache.buf, cache.list`order, cache.list.prev, cache.list.next, cache.disk
      ensures !ok ==> cache.disk.blocks == old(cache.disk.blocks) && cache.disk.trace == old(cache.disk.trace)
      ensures ok ==>
                var src, dst := if toLog then home else logno, if toLog then logno else home;
                && cache.Valid() && Steady(L, cache.Now(), me, if unpin then homes[1..] else homes)
                && cache.view == old(cache.view)[dst := old(cache.view)[src]]
                && cache.disk.blocks == old(cache.disk.blocks)[dst := old(cache.view)[src]]
                && cache.disk.trace == old(cache.disk.trace) + [cache.disk.blocks]
      ensures Served(old(cache.Now()), cache.Now(), me, alone,
                     |homes| + (if home in homes then 0 else 1) < NBUF, ok) == true
      ensures alone && NoUsers(old(cache.Now())) && Distinct(homes) && |homes| >= NBUF && logno !in homes ==> !ok
    {
      ghost var s := cache.Now();
      var lb, hb;
      ok, lb, hb := BreadTwo(me, logno, home, alone);
      ghost var t := cache.Now();
      RoundRoom(s, me, homes, logno, home, alone, ok, lb);
      if ok {
        assert BufOk(cache.Now(), lb) && BufOk(cache.Now(), hb);
        if toLog {
          FinishRound(me, lb, logno, hb, home, cache.buf[hb].data, false, s, homes);
        } else {
          FinishRound(me, hb, home, lb, logno, cache.buf[lb].data, unpin, s, homes);
        }
        UsersBack(s, t, cache.Now(), me, lb, hb, alone);
      }
    }

    /** write_log after `tail` rounds, as part of committing t on disk d. */
    ghost predicate Logging(me: nat, tail: nat, d: Image, t: Txn, tr0: seq<Image>)
      reads this, cache, cache.buf, cache.list, cache.list.prev, cache.list.next, cache.disk
    {
      && Working(me, lh) && Fits(L, d) && GoodTxn(L, d, t) && t.homes == lh && tail <= |lh|
      && |cache.view| == |d| && (forall i :: 0 <= i < |lh| ==> cache.view[lh[i]] == t.vals[i])
      && cache.disk.blocks == Logged(L, d, t.vals, tail)
      && CommitTrace(L, d, t, tr0, cache.disk.trace, tail)
    }

    method LogRound(me: nat, tail: nat, alone: bool, ghost d: Image, ghost t: Txn, ghost tr0: seq<Image>)
      returns (ok: bool)
      requires Logging(me, tail, d, t, tr0) && tail < |lh|
      modifies cache, cache.buf, cache.list`order, cache.list.prev, cache.list.next, cache.disk
      ensures !ok ==> cache.disk.trace == old(cache.disk.trace)
      ensures ok ==> Logging(me, tail + 1, d, t, tr0) && SameHome(L, cache.view, old(cache.view))
      ensures Served(old(cache.Now()), cache.Now(), me, alone, |lh| < NBUF, ok) == true
      ensures alone && NoUsers(old(cache.Now())) && Distinct(lh) && |lh| >= NBUF ==> !ok
    {
      ghost var tr := cache.disk.trace;
      assert InLog(L, L.start + tail + 1);
      ok := Round(me, L.start + tail + 1, lh[tail], true, false, lh, alone);
      if ok {
        CommitTraceStep(L, d, t, tr0, tr, tail, cache.disk.blocks);
      }
    }

    method WriteLog(me: nat, alone: bool, ghost d: Image, ghost t: Txn, ghost tr0: seq<Image>)
      returns (ok: bool, ghost k: nat)
      requires Logging(me, 0, d, t, tr0)
      modifies cache, cache.buf, cache.list`order, cache.list.prev, cache.list.next, cache.disk
      ensures k <= |lh| && CommitTrace(L, d, t, tr0, cache.disk.trace, k)
      ensures ok ==> k == |lh| && Logging(me, k, d, t, tr0) && SameHome(L, cache.view, old(cache.view))
      ensures Served(old(cache.Now()), cache.Now(), me, alone, |lh| < NBUF, ok) == true
      ensures alone && NoUsers(old(cache.Now())) && Distinct(lh) && |lh| >= NBUF ==> !ok && k == 0
    {
      for tail := 0 to |lh|
        invariant Logging(me, tail, d, t, tr0) && SameHome(L, cache.view, old(cache.view))
        invariant Served(old(cache.Now()), cache.Now(), me, alone, |lh| < NBUF, true) == true
        invariant tail > 0 ==> !(alone && NoUsers(old(cache.Now())) && Distinct(lh) && |lh| >= NBUF)
        invariant tail == 0 ==> cache.Now() == old(cache.Now())
      {
        ghost var s := cache.Now();
        ok := LogRound(me, tail, alone, d, t, tr0);
        ServedTwice(old(cache.Now()), s, cache.Now(), me, alone, |lh| < NBUF, ok);
        if !ok {
          return false, tail;
        }
      }
      return true, |lh|;
    }

    /** install_trans after `tail` rounds on a disk that was e. */
    ghost predicate Installing(me: nat, recovering: bool, tail: nat, e: Image, tr0: seq<Image>)
      reads this, cache, cache.buf, cache.list, cache.list.prev, cache.list.next, cache.disk
    {
      && tail <= |lh| && (!recovering ==> Distinct(lh)) && Working(me, if recovering then [] else lh[tail..])
      && Fits(L, e) && GoodHomes(L, e, lh) && cache.disk.blocks == Install(L, e, lh, tail)
      && (!recovering ==> forall i :: 0 <= i < |lh| ==> cache.view[lh[i]] == e[L.start + i + 1])
      && InstallTrace(L, e, lh, tr0, cache.disk.trace, tail)
    }

    method InstallRound(me: nat, recovering: bool, tail: nat, alone: bool, ghost e: Image, ghost tr0: seq<Image>)
      returns (ok: bool)
      requires Installing(me, recovering, tail, e, tr0) && tail < |lh|
      modifies cache, cache.buf, cache.list`order, cache.list.prev, cache.list.next, cache.disk
      ensures !ok ==> cache.disk.trace == old(cache.disk.trace)
      ensures ok ==> Installing(me, recovering, tail + 1, e, tr0)
      ensures ok && !recovering ==> cache.view == old(cache.view)
      ensures Served(old(cache.Now()), cache.Now(), me, alone, recovering || |lh| < NBUF, ok) == true
    {
      ghost var tr := cache.disk.trace;
      LogBlockKept(L, e, lh, tail);
      ok := CopyHome(me, recovering, tail, alone);
      if ok {
        InstallTraceStep(L, e, lh, tr0, tr, tail, cache.disk.blocks);
      }
    }

    /** A log block is copied to its home, which is then listed no more. */
    method CopyHome(me: nat, recovering: bool, tail: nat, alone: bool) returns (ok: bool)
      requires cache.Valid() && tail < |lh| && (!recovering ==> Distinct(lh))
      requires Steady(L, cache.Now(), me, if recovering then [] else lh[tail..])
      requires L.start + tail + 1 < |cache.view| && lh[tail] < |cache.view| && lh[tail] != L.start + tail + 1
      modifies cache, cache.buf, cache.list`order, cache.list.prev, cache.list.next, cache.disk
      ensures !ok ==> cache.disk.trace == old(cache.disk.trace)
      ensures ok ==>
                var x := old(cache.view)[L.start + tail + 1];
                && cache.Valid() && Steady(L, cache.Now(), me, if recovering then [] else lh[tail + 1..]) == true
                && cache.view == old(cache.view)[lh[tail] := x]
                && cache.disk.blocks == old(cache.disk.blocks)[lh[tail] := x]
                && cache.disk.trace == old(cache.disk.trace) + [cache.disk.blocks]
      ensures Served(old(cache.Now()), cache.Now(), me, alone, recovering || |lh| < NBUF, ok) == true
    {
      TailOf(lh, tail);
      ghost var homes, s := if recovering then [] else lh[tail..], cache.Now();
      ok := Round(me, L.start + tail + 1, lh[tail], false, !recovering, homes, alone);
      ServedMore(s, cache.Now(), me, alone, |homes| + (if lh[tail] in homes then 0 else 1) < NBUF,
                 recovering || |lh| < NBUF, ok);
    }

    method InstallTrans(me: nat, recovering: bool, alone: bool, ghost e: Image, ghost tr0: seq<Image>)
      returns (ok: bool, ghost k: nat)
      requires Installing(me, recovering, 0, e, tr0)
      modifies cache, cache.buf, cache.list`order, cache.list.prev, cache.list.next, cache.disk
      ensures InstallTrace(L, e, lh, tr0, cache.disk.trace, k)
      ensures ok ==> k == |lh| && Installing(me, recovering, k, e, tr0)
      ensures ok && !recovering ==> cache.view == old(cache.view)
      ensures Served(old(cache.Now()), cache.Now(), me, alone, recovering || |lh| < NBUF, ok) == true
    {
      for tail := 0 to |lh|
        invariant Installing(me, recovering, tail, e, tr0)
        invariant !recovering ==> cache.view == old(cache.view)
        invariant Served(old(cache.Now()), cache.Now(), me, alone, recovering || |lh| < NBUF, true) == true
      {
        ghost var s := cache.Now();
        ok := InstallRound(me, recovering, tail, alone, e, tr0);
        ServedTwice(old(cache.Now()), s, cache.Now(), me, alone, recovering || |lh| < NBUF, ok);
        if !ok {
          return false, tail;
        }
      }
      return true, |lh|;
    }

    /** The loop of write_head. */
    method FillHeader(b: Block) returns (r: Block)
      requires |lh| <= LOGSIZE && forall i :: 0 <= i < |lh| ==> lh[i] < 0x1_0000_0000
      ensures r == PutHeader(b, lh, |lh|)
    {
      r := PutWord(b, 0, |lh|);
      for i := 0 to |lh|
        invariant r == PutHeader(b, lh, i)
      {
        r := PutWord(r, i + 1, lh[i]);
      }
    }

    method WriteHead(me: nat, alone: bool, ghost homes: seq<nat>) returns (ok: bool)
      requires Working(me, homes)
      modifies cache, cache.buf, cache.list`order, cache.list.prev, cache.list.next, cache.disk
      ensures !ok ==> cache.disk.blocks == old(cache.disk.blocks) && cache.disk.trace == old(cache.disk.trace)
      ensures ok ==>
                var h := PutHeader(old(cache.disk.blocks)[L.start], lh, |lh|);
                && Working(me, homes)
                && cache.view == old(cache.view)[L.start := h]
                && cache.disk.blocks == old(cache.disk.blocks)[L.start := h]
                && cache.disk.trace == old(cache.disk.trace) + [cache.disk.blocks]
      ensures Served(old(cache.Now()), cache.Now(), me, alone, |homes| < NBUF, ok) == true
    {
      var r := BreadOne(me, L.start, alone, homes);
      if r.None? {
        return false;
      }
      ok := true;
      ghost var t := cache.Now();
      assert BufOk(t, r.value) && InLog(L, L.start);
      var h := FillHeader(cache.buf[r.value].data);
      PutAway(me, r.value, h);
      WrittenClean(L, old(cache.Now()), t, me, r.value, L.start, h, homes);
      OneBack(old(cache.Now()), t, cache.Now(), me, r.value, alone);
    }

    /** bread of one block by a process that has none. */
    method BreadOne(me: nat, bno: nat, alone: bool, ghost homes: seq<nat>) returns (r: Option<nat>)
      requires cache.Valid() && Steady(L, cache.Now(), me, homes) && bno < |cache.view|
      modifies cache`users, cache`stamp, cache`clock, cache.buf, cache.list`order, cache.list.prev, cache.list.next
      ensures cache.Valid() && OnlyDirty(cache.Now(), {}) && cache.view == old(cache.view)
      ensures r.Some? ==> Got(old(cache.Now()), cache.Now(), me, r.value, bno)
      ensures r.None? ==> Stuck(cache.Now(), me) == true
      ensures alone && NoUsers(old(cache.Now())) && |homes| < NBUF ==> r.Some?
      ensures alone && r.Some? ==>
                && r.value < |old(cache.users)|
                && cache.users == old(cache.users)[r.value := old(cache.users)[r.value] + multiset{me}]
    {
      ghost var s := cache.Now();
      IdleNotMine(s, bno, me);
      NotLocked(s, bno);
      r := Bread(me, bno, alone);
      if NoUsers(s) && |homes| < NBUF {
        Spare(s, homes, bno);
      }
    }

    method PutAway(me: nat, b: nat, data: Block)
      requires cache.Valid() && me != 0 && b < NBUF && cache.buf[b].owner == me && cache.buf[b].valid
      modifies cache, cache.buf, cache.list`order, cache.list.prev, cache.list.next, cache.disk
      ensures cache.Valid() && old(cache.buf[b].blockno) < |old(cache.view)| && old(cache.buf[b].refcnt) > 0
      ensures cache.Now() == Written(old(cache.Now()), me, b, data)
      ensures cache.disk.trace == old(cache.disk.trace) + [cache.disk.blocks]
    {
      assert BufOk(cache.Now(), b);
      Store(me, b, data);
      cache.Brelse(me, b);
    }

    // ---------- group commit ----------

    /** What holds whenever log.lock is free and no commit is under way. */
    ghost predicate Valid()
      reads this, cache, cache.buf, cache.list, cache.list.prev, cache.list.next, cache.disk
    {
      && cache.Valid() && OnlyDirty(cache.Now(), units.Keys)
      && PinsOk(cache.Now(), lh) && LogAreaOnDisk(L, cache.Now())
      && Quiet(L, cache.disk.blocks) && SameHome(L, cache.disk.blocks, durable)
      && GoodHomes(L, cache.disk.blocks, lh) && Distinct(lh)
      && Admission()
    }

    /** The reservations: no operation can be left without room for what it has been promised,
        and nothing is open while a commit runs. */
    ghost predicate Admission()
      reads this
    {
      && outstanding == |units| && (committing ==> outstanding == 0)
      && 0 !in units && (forall p :: p in units ==> units[p] <= MAXOPBLOCKS)
      && |lh| + Sum(units) <= LOGSIZE
    }

    lemma StartInstalling(me: nat, d: Image, t: Txn)
      requires Fits(L, d) && GoodTxn(L, d, t) && t.homes == lh && Working(me, lh)
      requires cache.disk.blocks == HeadWritten(L, d, t)
      requires forall i :: 0 <= i < |lh| ==> cache.view[lh[i]] == t.vals[i]
      ensures Installing(me, false, 0, HeadWritten(L, d, t), cache.disk.trace)
    {
      HeadHoldsVals(L, d, t);
      assert lh[0..] == lh;
    }

    /** The first write_head of commit(): from here on the transaction is committed. */
    method WriteCommitHead(me: nat, alone: bool, ghost d: Image, ghost t: Txn, ghost tr0: seq<Image>)
      returns (ok: bool)
      requires Logging(me, |lh|, d, t, tr0)
      modifies cache, cache.buf, cache.list`order, cache.list.prev, cache.list.next, cache.disk
      ensures !ok ==> cache.disk.trace == old(cache.disk.trace)
      ensures ok ==>
                && CommitTrace(L, d, t, tr0, cache.disk.trace, |lh| + 1)
                && Installing(me, false, 0, HeadWritten(L, d, t), cache.disk.trace)
                && SameHome(L, cache.view, old(cache.view))
      ensures Served(old(cache.Now()), cache.Now(), me, alone, |lh| < NBUF, ok) == true
    {
      ghost var tr := cache.disk.trace;
      ok := WriteHead(me, alone, lh);
      if ok {
        assert InLog(L, L.start);
        assert SameHome(L, cache.view, old(cache.view));
        CommitTraceStep(L, d, t, tr0, tr, |lh|, HeadWritten(L, d, t));
        StartInstalling(me, d, t);
      }
    }

    /** The end of commit(): forget the transaction and erase it from the log. */
    method EraseHead(me: nat, alone: bool, ghost d: Image, ghost t: Txn, ghost tr0: seq<Image>) returns (ok: bool)
      requires Fits(L, d) && GoodTxn(L, d, t) && t.homes == lh && Working(me, [])
      requires cache.disk.blocks == Install(L, HeadWritten(L, d, t), lh, |lh|)
      requires CommitTrace(L, d, t, tr0, cache.disk.trace, 2 * |lh| + 1)
      modifies this`lh, cache, cache.buf, cache.list`order, cache.list.prev, cache.list.next, cache.disk
      ensures !ok ==> cache.disk.trace == old(cache.disk.trace)
      ensures ok ==>
                && CommitTrace(L, d, t, tr0, cache.disk.trace, CommitLength(t)) && lh == [] && Working(me, [])
                && cache.disk.blocks == CommitState(L, d, t, CommitLength(t))
                && SameHome(L, cache.view, old(cache.view))
      ensures Served(old(cache.Now()), cache.Now(), me, alone, true, ok) == true
    {
      ghost var tr, m := cache.disk.trace, |lh|;
      LastCommitState(L, d, t, cache.disk.blocks);
      lh := [];
      ok := WriteHead(me, alone, []);
      if ok {
        CommitTraceStep(L, d, t, tr0, tr, 2 * m + 1, cache.disk.blocks);
        assert InLog(L, L.start);
      }
    }

    /** commit() when there is something to commit, by process me and with other processes
        reading. Whether or not it gets to the end, the block writes it makes are the first
        k writes of the commit of the listed blocks as they stand in the cache. */
    method CommitListed(me: nat, alone: bool, ghost d: Image, ghost t: Txn, ghost tr0: seq<Image>)
      returns (ok: bool, ghost k: nat)
      requires Logging(me, 0, d, t, tr0) && Distinct(lh)
      modifies this`lh, cache, cache.buf, cache.list`order, cache.list.prev, cache.list.next, cache.disk
      ensures CommitTrace(L, d, t, tr0, cache.disk.trace, k)
      ensures ok ==>
                && k == CommitLength(t) && lh == [] && Working(me, [])
                && cache.disk.blocks == CommitState(L, d, t, k) && SameHome(L, cache.view, old(cache.view))
      ensures Served(old(cache.Now()), cache.Now(), me, alone, |old(lh)| < NBUF, ok) == true
      ensures alone && NoUsers(old(cache.Now())) && |old(lh)| >= NBUF ==> !ok && k == 0
    {
      ghost var m, s, room := |lh|, cache.Now(), |lh| < NBUF;
      ok, k := WriteLog(me, alone, d, t, tr0);
      if ok {
        ghost var s1 := cache.Now();
        ok := WriteCommitHead(me, alone, d, t, tr0);
        ServedTwice(s, s1, cache.Now(), me, alone, room, ok);
      }
      if !ok {
        return;
      }
      ghost var tr1, s2 := cache.disk.trace, cache.Now();
      ok, k := InstallTrans(me, false, alone, HeadWritten(L, d, t), tr1);
      CommitTraceInstall(L, d, t, tr0, tr1, cache.disk.trace, k);
      ServedTwice(s, s2, cache.Now(), me, alone, room, ok);
      k := m + 1 + k;
      if ok {
        assert lh[m..] == [];
        ghost var s3 := cache.Now();
        ok := EraseHead(me, alone, d, t, tr0);
        ServedTwice(s, s3, cache.Now(), me, alone, room, ok);
        k := if ok then k + 1 else k;
      }
    }

    /** commit(): every disk state it passes through recovers to the last committed view up to
        the header write and to the current view from there on. No operation is open, so the
        current view holds whole operations only. It stops only for want of a buffer. If nobody else uses
        one, it comes to its end if and only if fewer blocks are logged than there are buffers. */
    method Commit(me: nat, alone: bool) returns (ok: bool)
      requires Valid() && committing && me != 0 && Idle(cache.Now(), me)
      modifies this`lh, this`durable, cache, cache.buf, cache.list`order, cache.list.prev, cache.list.next, cache.disk
      ensures var tr0 := |old(cache.disk.trace)|;
              && tr0 <= |cache.disk.trace| && cache.disk.trace[..tr0] == old(cache.disk.trace)
              && forall i :: tr0 <= i < |cache.disk.trace| ==>
                   RecoversTo(L, cache.disk.trace[i], if i - tr0 < |old(lh)| then old(durable) else old(cache.view))
      ensures ok ==> Valid() && lh == [] && durable == cache.view && SameHome(L, cache.view, old(cache.view))
      ensures ok ==> Idle(cache.Now(), me)
      ensures Served(old(cache.Now()), cache.Now(), me, alone, |old(lh)| < NBUF, ok) == true
      ensures alone && NoUsers(old(cache.Now())) && |old(lh)| >= NBUF ==>
                !ok && cache.disk.trace == old(cache.disk.trace)
    {
      ok := true;
      if |lh| > 0 {
        ghost var s, tr0 := cache.Now(), cache.disk.trace;
        ghost var t := TxnOf(lh, cache.view);
        ghost var k;
        ok, k := CommitListed(me, alone, cache.disk.blocks, t, tr0);
        CommitCrashes(L, s, t, durable, tr0, cache.disk.trace, k);
      }
      durable := cache.view;
      if ok {
        AllOnDisk(cache.Now());
      }
    }

    // ---------- recovery after a boot ----------

    /** The loop of read_head. */
    method ParseHeader(b: Block) returns (homes: seq<nat>)
      requires HeaderCount(b) <= LOGSIZE
      ensures homes == HeaderHomes(b)
    {
      homes := [];
      for i := 0 to GetWord(b, 0)
        invariant homes == HeaderHomes(b)[..i]
      {
        homes := homes + [GetWord(b, i + 1)];
      }
    }

    method ReadHead(me: nat, alone: bool) returns (ok: bool)
      requires cache.Valid() && Steady(L, cache.Now(), me, []) && WellFormed(L, cache.disk.blocks)
      modifies this`lh, cache`users, cache`stamp, cache`clock, cache.buf,
               cache.list`order, cache.list.prev, cache.list.next
      ensures ok ==> lh == HeaderHomes(cache.disk.blocks[L.start]) && Working(me, []) && cache.view == old(cache.view)
      ensures Served(old(cache.Now()), cache.Now(), me, alone, true, ok) == true
    {
      var r := BreadOne(me, L.start, alone, []);
      if r.None? {
        return false;
      }
      ghost var t := cache.Now();
      var b := r.value;
      assert BufOk(t, b) && InLog(L, L.start);
      lh := ParseHeader(cache.buf[b].data);
      cache.Brelse(me, b);
      HeadGivenBack(L, old(cache.Now()), t, cache.Now(), me, b, alone);
      return true;
    }

    /** recover_from_log(): whether or not it gets to the end, it goes through a prefix of the
        states of RedoLog.RecoverState; if it does, the machine is up with an empty log and
        the view is the recovered disk. */
    method RecoverFromLog(me: nat, alone: bool) returns (ok: bool)
      requires cache.Valid() && Steady(L, cache.Now(), me, []) && WellFormed(L, cache.disk.blocks)
      requires outstanding == 0 && !committing && units == map[]
      modifies this`lh, this`durable, cache, cache.buf, cache.list`order, cache.list.prev, cache.list.next, cache.disk
      ensures var d, tr0 := old(cache.disk.blocks), |old(cache.disk.trace)|;
              && tr0 <= |cache.disk.trace| <= tr0 + HeaderCount(d[L.start]) + 1
              && cache.disk.trace[..tr0] == old(cache.disk.trace)
              && (forall i :: tr0 <= i < |cache.disk.trace| ==> cache.disk.trace[i] == RecoverState(L, d, i - tr0 + 1))
              && (ok ==> |cache.disk.trace| == tr0 + HeaderCount(d[L.start]) + 1)
      ensures ok ==>
                Valid() && lh == [] &&
                durable == cache.view == cache.disk.blocks == Recovered(L, old(cache.disk.blocks))
      ensures ok ==> Idle(cache.Now(), me)
      ensures Served(old(cache.Now()), cache.Now(), me, alone, true, ok) == true
    {
      ghost var d, tr0, s := cache.disk.blocks, cache.disk.trace, cache.Now();
      ok := ReadHead(me, alone);
      if !ok {
        return;
      }
      ghost var k, s1 := 0, cache.Now();
      ok, k := InstallTrans(me, true, alone, d, tr0);
      ServedTwice(s, s1, cache.Now(), me, alone, true, ok);
      if !ok {
        return;
      }
      lh := [];
      ghost var s2 := cache.Now();
      ok := WriteHead(me, alone, []);
      ServedTwice(s, s2, cache.Now(), me, alone, true, ok);
      if ok {
        AllOnDisk(cache.Now());
        durable := cache.view;
        assert Sum(units) == 0;
      }
    }

    // ---------- operations ----------

    /** One pass of begin_op's loop; false means sleep and try again. */
    method BeginOp(pid: nat) returns (admitted: bool)
      requires Valid() && pid != 0 && pid !in units
      modifies this`outstanding, this`units
      ensures Valid() && admitted == Admits(|lh|, old(outstanding), committing)
      ensures units == if admitted then old(units)[pid := MAXOPBLOCKS] else old(units)
      ensures outstanding == |units|
    {
      if committing {
        return false;
      } else if |lh| + (outstanding + 1) * MAXOPBLOCKS > LOGSIZE {
        return false;
      } else {
        SumBound(units);
        SumSet(units, pid, MAXOPBLOCKS);
        assert units - {pid} == units;
        outstanding := outstanding + 1;
        units := units[pid := MAXOPBLOCKS];
        return true;
      }
    }

    /** The first critical section of end_op. The panic on log.committing cannot be reached by
        a process with an open operation. */
    method EndOp(pid: nat) returns (doCommit: bool)
      requires Valid() && pid in units
      requires forall b: nat :: b < NBUF && Dirty(cache.Now(), b) ==> cache.buf[b].owner != pid
      modifies this`outstanding, this`committing, this`units
      ensures Valid() && !old(committing)
      ensures units == old(units) - {pid} && doCommit == committing == (units == map[])
    {
      SumWithout(units, pid);
      assert |units| > 0 && |units - {pid}| == |units| - 1 by {
        assert units == (units - {pid})[pid := units[pid]];
      }
      outstanding := outstanding - 1;
      assert !committing;
      units := units - {pid};
      if outstanding == 0 {
        doCommit := true;
        committing := true;
      } else {
        doCommit := false;
      }
    }

    /** The second critical section of end_op. */
    method EndCommit()
      requires Valid() && committing
      modifies this`committing
      ensures Valid() && !committing
    {
      committing := false;
    }

    /** The search in log_write. */
    method Find(bno: nat) returns (i: nat)
      ensures i <= |lh| && bno !in lh[..i] && (i < |lh| ==> lh[i] == bno)
    {
      i := 0;
      while i < |lh|
        invariant i <= |lh| && bno !in lh[..i]
      {
        if lh[i] == bno {
          return;
        }
        i := i + 1;
      }
    }

    /** log_write by the holder of a buffer. An operation with a unit left never hits a
        panic; a block that is not listed yet costs it one unit. */
    method LogWrite(pid: nat, b: nat) returns (r: LogResult)
      requires Valid() && pid != 0 && b < NBUF && cache.buf[b].owner == pid && cache.buf[b].valid
      requires !InLog(L, cache.buf[b].blockno)
      requires pid in units || outstanding == 0
      requires pid in units && cache.buf[b].blockno !in lh ==> units[pid] > 0
      modifies this`lh, this`units, cache`pins, cache.buf
      ensures Valid() && r == LogAppend(old(lh), L.size, outstanding, cache.buf[b].blockno)
      ensures pid in old(units) && old(units)[pid] > 0 ==> r.Ok?
      ensures cache.view == old(cache.view) && cache.buf[b].blockno == old(cache.buf[b].blockno)
      ensures r.Ok? ==> lh == r.homes && !Dirty(cache.Now(), b)
      ensures r.Ok? ==> OthersKept(old(cache.Now()), cache.Now(), b) && cache.users == old(cache.users)
      ensures r.Ok? ==> cache.buf[b] == old(cache.buf[b]).(refcnt := cache.buf[b].refcnt)
      ensures r.Ok? ==> forall c: nat :: c < NBUF && c != b ==> cache.pins[c] == old(cache.pins[c])
      ensures units == if r.Ok? && lh != old(lh) then old(units)[pid := old(units)[pid] - 1] else old(units)
      ensures !r.Ok? ==> lh == old(lh) && cache.Now() == old(cache.Now())
    {
      if |lh| >= LOGSIZE || |lh| >= L.size - 1 {
        assert pid in units ==> units[pid] == 0 by {
          if pid in units {
            SumWithout(units, pid);
          }
        }
        return TooBig;
      }
      if outstanding < 1 {
        return OutsideOfTrans;
      }
      var i := Find(cache.buf[b].blockno);
      if i < |lh| {
        ListedIsPinned(cache.Now(), lh, b);
        return Ok(lh);
      }
      assert lh[..i] == lh;
      Append(pid, b);
      return Ok(lh);
    }

    // ---------- what operations and readers do to the cache ----------

    /** bread up to the sleep lock, by any process. */
    method OpGet(pid: nat, bno: nat) returns (r: Option<nat>)
      requires Valid() && pid != 0 && bno < |cache.view|
      modifies cache`users, cache.buf
      ensures Valid() && cache.view == old(cache.view) && cache.pins == old(cache.pins)
      ensures r.None? <==> forall x :: x in old(cache.buf[..]) ==> !Holds(x, bno) && x.refcnt > 0
      ensures r.None? ==> cache.Now() == old(cache.Now())
      ensures r.Some? ==> r.value < NBUF && Holds(cache.buf[r.value], bno)
      ensures r.Some? ==> cache.users == old(cache.users)[r.value := old(cache.users)[r.value] + multiset{pid}]
      ensures r.Some? ==> OthersKept(old(cache.Now()), cache.Now(), r.value)
      ensures r.Some? ==> cache.buf[r.value].owner == 0 || cache.buf[r.value].owner == old(cache.buf[..])[r.value].owner
      ensures r.Some? && Dirty(cache.Now(), r.value) ==> Dirty(old(cache.Now()), r.value)
    {
      ghost var s := cache.Now();
      r := cache.Bget(pid, bno);
      if r.Some? {
        assert BufOk(s, r.value);
        BufferChange(L, s, cache.Now(), lh, units.Keys, r.value);
      }
    }

    /** The rest of bread: what the process finds in the buffer is what was last written. */
    method OpTake(pid: nat, b: nat)
      requires Valid() && pid != 0 && b < NBUF && pid in cache.users[b] && cache.buf[b].owner == 0
      modifies cache.buf
      ensures Valid() && cache.view == old(cache.view) && cache.pins == old(cache.pins) &&
                cache.users == old(cache.users)
      ensures cache.buf[b].owner == pid && cache.buf[b].valid && cache.buf[b].blockno == old(cache.buf[b].blockno)
      ensures cache.buf[b].blockno < |cache.view| && cache.buf[b].data == cache.view[cache.buf[b].blockno]
      ensures OthersKept(old(cache.Now()), cache.Now(), b) && !Dirty(cache.Now(), b)
    {
      ghost var s := cache.Now();
      assert BufOk(s, b);
      cache.Lock(pid, b);
      cache.Fill(pid, b);
      BufferChange(L, s, cache.Now(), lh, units.Keys, b);
    }

    /** A store into a buffer that an open operation holds. */
    method OpModify(pid: nat, b: nat, data: Block)
      requires Valid() && pid in units && b < NBUF && cache.buf[b].owner == pid && cache.buf[b].valid
      requires !InLog(L, cache.buf[b].blockno)
      modifies cache`view, cache.buf
      ensures Valid() && cache.pins == old(cache.pins) && cache.users == old(cache.users)
      ensures cache.buf[..] == old(cache.buf[..])[b := old(cache.buf[b]).(data := data)]
      ensures cache.buf[b].blockno < |old(cache.view)|
      ensures cache.view == old(cache.view)[cache.buf[b].blockno := data]
    {
      ghost var s := cache.Now();
      cache.Modify(pid, b, data);
      BufferChange(L, s, cache.Now(), lh, units.Keys, b);
    }

    /** brelse by a process that has logged what it changed. */
    method OpRelease(pid: nat, b: nat)
      requires Valid() && pid != 0 && b < NBUF && cache.buf[b].owner == pid && !Dirty(cache.Now(), b)
      modifies cache`users, cache`stamp, cache`clock, cache.buf, cache.list`order, cache.list.prev, cache.list.next
      ensures Valid() && cache.view == old(cache.view) && cache.pins == old(cache.pins) && cache.buf[b].owner == 0
      ensures cache.users == old(cache.users)[b := old(cache.users)[b] - multiset{pid}]
      ensures OthersKept(old(cache.Now()), cache.Now(), b) && !Dirty(cache.Now(), b)
    {
      ghost var s := cache.Now();
      assert BufOk(s, b);
      cache.Brelse(pid, b);
      BufferChange(L, s, cache.Now(), lh, units.Keys, b);
    }

    /** The end of log_write for a block that is not listed yet. */
    method Append(pid: nat, b: nat)
      requires Valid() && pid != 0 && b < NBUF && cache.buf[b].owner == pid && cache.buf[b].valid
      requires !InLog(L, cache.buf[b].blockno) && cache.buf[b].blockno !in lh
      requires pid in units && units[pid] > 0 && |lh| < LOGSIZE
      modifies this`lh, this`units, cache`pins, cache.buf
      ensures Valid() && cache.view == old(cache.view) && cache.buf[b].blockno == old(cache.buf[b].blockno)
      ensures lh == old(lh) + [cache.buf[b].blockno] && units == old(units)[pid := old(units)[pid] - 1]
      ensures !Dirty(cache.Now(), b) && OthersKept(old(cache.Now()), cache.Now(), b) && cache.users == old(cache.users)
      ensures cache.buf[b] == old(cache.buf[b]).(refcnt := cache.buf[b].refcnt)
      ensures forall c: nat :: c < NBUF && c != b ==> cache.pins[c] == old(cache.pins[c])
    {
      ghost var s := cache.Now();
      assert BufOk(s, b);
      SumWithout(units, pid);
      SumSet(units, pid, units[pid] - 1);
      cache.Bpin(b);
      PinsAppended(s, cache.Now(), lh, b, units.Keys);
      lh := lh + [cache.buf[b].blockno];
      units := units[pid := units[pid] - 1];
    }
  }
  /** initlog: a new log and its recovery, while no other process is there. */
  method StartLog(disk: Disk, L: Layout, pid: nat) returns (w: WriteAheadLog)
    requires WellFormed(L, disk.blocks) && pid != 0
    modifies disk
    ensures fresh(w) && fresh(w.cache) && fresh(w.cache.buf)
    ensures fresh(w.cache.list) && fresh(w.cache.list.prev) && fresh(w.cache.list.next)
    ensures w.L == L && w.cache.disk == disk && w.Valid() && w.lh == [] && w.outstanding == 0 && !w.committing
    ensures w.units == map[] && Idle(w.cache.Now(), pid) == true && NoUsers(w.cache.Now()) == true
    ensures w.durable == w.cache.view == disk.blocks == Recovered(L, old(disk.blocks))
    ensures |disk.trace| == |old(disk.trace)| + HeaderCount(old(disk.blocks)[L.start]) + 1
    ensures disk.trace[..|old(disk.trace)|] == old(disk.trace)
    ensures forall i :: |old(disk.trace)| <= i < |disk.trace| ==>
              disk.trace[i] == RecoverState(L, old(disk.blocks), i - |old(disk.trace)| + 1)
  {
    w := new WriteAheadLog(disk, L);
    ghost var s := w.cache.Now();
    assert Steady(L, s, pid, []);
    var ok := w.RecoverFromLog(pid, true);
    assert Served(s, w.cache.Now(), pid, true, true, ok);
  }
}
