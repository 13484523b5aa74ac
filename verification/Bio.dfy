/** The buffer cache. Every method below is one critical section of the source, so any
    sequence of calls by any processes is an interleaving of the real code. The cache as a
    whole refines `view`, a plain array of blocks: what a process reads through the cache
    is always what was last stored in that block through the cache. */
module Bio {
  import opened Options
  import opened Blocks
  import Lru

  const NBUF: nat := 30
  const ROOTDEV: nat := 1

  /** The disk behind virtio_disk_rw. Each write is atomic; `trace` keeps the contents
      after every write made so far. */
  class Disk {
    var blocks: seq<Block>
    ghost var trace: seq<seq<Block>>

    constructor (blocks: seq<Block>)
      ensures this.blocks == blocks && trace == []
    {
      this.blocks := blocks;
      trace := [];
    }

    method Write(bno: nat, data: Block)
      requires bno < |blocks|
      modifies this
      ensures blocks == old(blocks)[bno := data] && trace == old(trace) + [blocks]
    {
      blocks := blocks[bno := data];
      trace := trace + [blocks];
    }
  }

  /** struct buf without its list pointers; `owner` is the pid holding the sleep lock, 0 if
      nobody does. */
  datatype Buf = Buf(dev: nat, blockno: nat, valid: bool, refcnt: nat, owner: nat, data: Block)

  /** Everything the cache invariant speaks about. The last four parts are bookkeeping for
      the proof: `view` is the block array the cache refines, `users` the processes holding
      the references taken by bget, `pins` the number of references held by the log. */
  datatype Snap = Snap(bufs: seq<Buf>, blocks: seq<Block>,
                       view: seq<Block>, users: seq<multiset<nat>>, pins: seq<nat>)

  ghost predicate Holds(x: Buf, bno: nat) {
    x.dev != 0 && x.blockno == bno
  }

  ghost predicate BufOk(s: Snap, b: nat)
    requires b < |s.bufs| == |s.users| == |s.pins| && |s.view| == |s.blocks|
  {
    var x := s.bufs[b];
    && x.refcnt == |s.users[b]| + s.pins[b]
    && (x.owner != 0 ==> x.owner in s.users[b])
    && (x.dev == 0 ==> !x.valid && x.refcnt == 0)
    && (x.dev != 0 ==> x.dev == ROOTDEV && x.blockno < |s.view|)
    && (s.pins[b] > 0 ==> x.valid)
    && (x.valid ==> x.data == s.view[x.blockno])
    && (x.valid && x.owner == 0 && s.pins[b] == 0 ==> x.data == s.blocks[x.blockno])
  }

  /** No two buffers hold the same block. */
  ghost predicate Unique(s: Snap) {
    forall b, c :: 0 <= b < c < |s.bufs| && s.bufs[b].dev != 0 && s.bufs[c].dev != 0 ==>
      s.bufs[b].blockno != s.bufs[c].blockno
  }

  /** Some buffer has the contents of the block. */
  ghost predicate Cached(s: Snap, bno: nat) {
    exists b :: 0 <= b < |s.bufs| && Holds(s.bufs[b], bno) && s.bufs[b].valid
  }

  ghost predicate Inv(s: Snap) {
    && |s.bufs| == |s.users| == |s.pins| == NBUF && |s.view| == |s.blocks|
    && (forall b: nat :: b < NBUF ==> BufOk(s, b))
    && Unique(s)
    && (forall bno: nat {:trigger Cached(s, bno)} :: bno < |s.view| && !Cached(s, bno) ==> s.view[bno] == s.blocks[bno])
  }

  /** Replacing one buffer by another that still fits keeps the invariant, as long as the
      block it held does not go stale. */
  lemma InvReplace(s: Snap, t: Snap, b: nat)
    requires Inv(s) && b < NBUF
    requires |t.bufs| == |t.users| == |t.pins| == NBUF && |t.view| == |t.blocks| == |s.view|
    requires forall c: nat :: c < NBUF && c != b ==>
               t.bufs[c] == s.bufs[c] && t.users[c] == s.users[c] && t.pins[c] == s.pins[c]
    requires BufOk(t, b)
    requires forall c: nat :: c < NBUF && c != b && t.bufs[b].dev != 0 ==> !Holds(s.bufs[c], t.bufs[b].blockno)
    requires forall k: nat :: k < |s.view| && !(t.bufs[b].valid && Holds(t.bufs[b], k)) ==>
               && t.view[k] == s.view[k] && t.blocks[k] == s.blocks[k]
               && (s.bufs[b].valid && Holds(s.bufs[b], k) ==> s.view[k] == s.blocks[k])
    ensures Inv(t)
  {
    forall c: nat | c < NBUF
      ensures BufOk(t, c)
    {
      assert BufOk(s, c);
    }
    forall k: nat | k < |t.view| && !Cached(t, k)
      ensures t.view[k] == t.blocks[k]
    {
      assert !(t.bufs[b].valid && Holds(t.bufs[b], k));
      if Cached(s, k) {
        var c :| 0 <= c < |s.bufs| && Holds(s.bufs[c], k) && s.bufs[c].valid;
        assert c == b;
      }
    }
  }

  ghost predicate AllIn(order: seq<nat>) {
    forall b: nat :: b < NBUF ==> b in order
  }

  /** The list is sorted by the time of the last release, newest first. */
  ghost predicate SortedByStamp(order: seq<nat>, stamp: seq<nat>, clock: nat) {
    && |stamp| == NBUF
    && (forall i :: 0 <= i < |order| ==> order[i] < NBUF && stamp[order[i]] < clock)
    && (forall i, j :: 0 <= i < j < |order| ==> stamp[order[j]] < stamp[order[i]])
  }

  lemma SortedToFront(order: seq<nat>, stamp: seq<nat>, clock: nat, k: nat)
    requires SortedByStamp(order, stamp, clock) && k < |order|
    ensures SortedByStamp([order[k]] + (order[..k] + order[k + 1..]), stamp[order[k] := clock], clock + 1)
  {
  }

  class BCache {
    const disk: Disk
    const buf: array<Buf>
    const list: Lru.List
    ghost var view: seq<Block>
    var users: seq<multiset<nat>>   // kept by the processes themselves, as local pointers to buffers
    ghost var pins: seq<nat>
    ghost var stamp: seq<nat>   // when the buffer last dropped to no references
    ghost var clock: nat

    ghost function Now(): (s: Snap)
      reads this, buf, disk
    {
      Snap(buf[..], disk.blocks, view, users, pins)
    }

    ghost predicate LruOrder()
      reads this, list, list.prev, list.next
    {
      list.n == NBUF && list.Valid() && AllIn(list.order) && SortedByStamp(list.order, stamp, clock)
    }

    ghost predicate Valid()
      reads this, buf, list, list.prev, list.next, disk
    {
      LruOrder() && buf.Length == NBUF && Inv(Now())
    }

    /** binit on a freshly booted machine: the view is what is on the disk. */
    constructor (disk: Disk)
      ensures Valid() && this.disk == disk && fresh(buf) && fresh(list) && fresh(list.prev) && fresh(list.next)
      ensures view == disk.blocks && pins == seq(NBUF, i => 0) && users == seq(NBUF, i => multiset{})
    {
      this.disk := disk;
      list := new Lru.List(NBUF);
      buf := new Buf[NBUF](i => Buf(0, 0, false, 0, 0, ZeroBlock()));
      view := disk.blocks;
      users := seq(NBUF, i => multiset{});
      pins := seq(NBUF, i => 0);
      stamp := seq(NBUF, i requires 0 <= i < NBUF => i);
      clock := NBUF;
      new;
      forall b | 0 <= b < NBUF
        ensures b in list.order
      {
        assert list.order[NBUF - 1 - b] == b;
      }
    }

    /** bget up to the point where it has a reference and goes for the sleep lock. None is
        the panic "bget: no buffers". */
    method Bget(pid: nat, bno: nat) returns (r: Option<nat>)
      requires Valid() && pid != 0 && bno < |view|
      modifies this`users, buf
      ensures Valid()
      ensures r.None? <==> forall x :: x in old(buf[..]) ==> !Holds(x, bno) && x.refcnt > 0
      ensures r.None? ==> Now() == old(Now())
      ensures r.Some? ==>
                var b := r.value;
                && b < NBUF && Holds(buf[b], bno)
                && users == old(users)[b := old(users)[b] + multiset{pid}]
                && (if Holds(old(buf[b]), bno) then
                      buf[..] == old(buf[..])[b := old(buf[b]).(refcnt := old(buf[b].refcnt) + 1)]
                    else
                      && buf[..] == old(buf[..])[b := Buf(ROOTDEV, bno, false, 1, 0, old(buf[b].data))]
                      && (forall x :: x in old(buf[..]) ==> !Holds(x, bno))
                      && old(buf[b].refcnt) == 0
                      && (forall c :: 0 <= c < NBUF && old(buf[..])[c].refcnt == 0 ==> stamp[b] <= stamp[c]))
    {
      r := FindCached(bno);
      if r.Some? {
        TakeReference(pid, r.value);
        return;
      }
      r := FindUnused();
      if r.Some? {
        Recycle(pid, r.value, bno);
      }
    }

    method TakeReference(pid: nat, b: nat)
      requires Valid() && b < NBUF && buf[b].dev != 0
      modifies this`users, buf
      ensures Valid()
      ensures Now() == old(Now()).(bufs := old(buf[..])[b := old(buf[b]).(refcnt := old(buf[b].refcnt) + 1)],
                                   users := old(users)[b := old(users)[b] + multiset{pid}])
    {
      ghost var s := Now();
      assert BufOk(s, b);
      buf[b] := buf[b].(refcnt := buf[b].refcnt + 1);
      users := users[b := users[b] + multiset{pid}];
      InvReplace(s, Now(), b);
    }

    /** Give an unreferenced buffer to another block; what it held is on disk. */
    method Recycle(pid: nat, b: nat, bno: nat)
      requires Valid() && bno < |view| && b < NBUF && buf[b].refcnt == 0
      requires forall x :: x in buf[..] ==> !Holds(x, bno)
      modifies this`users, buf
      ensures Valid()
      ensures Now() == old(Now()).(bufs := old(buf[..])[b := Buf(ROOTDEV, bno, false, 1, 0, old(buf[b].data))],
                                   users := old(users)[b := old(users)[b] + multiset{pid}])
    {
      ghost var s := Now();
      assert BufOk(s, b);
      buf[b] := buf[b].(dev := ROOTDEV, blockno := bno, valid := false, refcnt := 1);
      users := users[b := users[b] + multiset{pid}];
      InvReplace(s, Now(), b);
    }

    /** The first loop of bget, most recently used buffer first. */
    method FindCached(bno: nat) returns (r: Option<nat>)
      requires Valid()
      ensures r.None? <==> forall x :: x in buf[..] ==> !Holds(x, bno)
      ensures r.Some? ==> r.value < NBUF && Holds(buf[r.value], bno)
    {
      ghost var cyc := Lru.Cycle(list.order, NBUF);
      ghost var i := 1;
      var b := list.next[NBUF];
      assert list.next[..][cyc[0]] == cyc[1];
      while b != NBUF
        invariant 1 <= i < |cyc| && cyc[i] == b
        invariant forall j :: 0 <= j < i - 1 ==> list.order[j] < NBUF && !Holds(buf[list.order[j]], bno)
        decreases |cyc| - i
      {
        assert BufOk(Now(), b);
        if buf[b].dev == ROOTDEV && buf[b].blockno == bno {
          assert buf[b] in buf[..];
          return Some(b);
        }
        assert list.next[..][cyc[i + 1 - 1]] == cyc[i + 1];
        b := list.next[b];
        i := i + 1;
      }
      forall x | x in buf[..]
        ensures !Holds(x, bno)
      {
        var c :| 0 <= c < NBUF && buf[c] == x;
        assert c in list.order;
      }
      return None;
    }

    /** The second loop of bget, least recently used buffer first. */
    method FindUnused() returns (r: Option<nat>)
      requires Valid()
      ensures r.None? <==> forall x :: x in buf[..] ==> x.refcnt > 0
      ensures r.Some? ==> r.value < NBUF && buf[r.value].refcnt == 0
      ensures r.Some? ==> forall c :: 0 <= c < NBUF && buf[..][c].refcnt == 0 ==> stamp[r.value] <= stamp[c]
    {
      ghost var cyc := Lru.Cycle(list.order, NBUF);
      ghost var i := |cyc| - 2;
      var b := list.prev[NBUF];
      assert list.prev[..][cyc[|cyc| - 1]] == cyc[i];
      while b != NBUF
        invariant 0 <= i < |cyc| - 1 && cyc[i] == b
        invariant forall j :: i <= j < |list.order| ==> list.order[j] < NBUF && buf[list.order[j]].refcnt > 0
        decreases i
      {
        if buf[b].refcnt == 0 {
          forall c | 0 <= c < NBUF && buf[..][c].refcnt == 0
            ensures stamp[b] <= stamp[c]
          {
            assert c in list.order;
            assert b == list.order[i - 1];
          }
          return Some(b);
        }
        assert list.prev[..][cyc[i]] == cyc[i - 1];
        b := list.prev[b];
        i := i - 1;
      }
      forall x | x in buf[..]
        ensures x.refcnt > 0
      {
        var c :| 0 <= c < NBUF && buf[c] == x;
        assert c in list.order;
      }
      return None;
    }

    /** acquiresleep on the buffer, at the moment it succeeds. */
    method Lock(pid: nat, b: nat)
      requires Valid() && pid != 0 && b < NBUF && pid in users[b] && buf[b].owner == 0
      modifies buf
      ensures Valid() && Now() == old(Now()).(bufs := old(buf[..])[b := old(buf[b]).(owner := pid)])
    {
      ghost var s := Now();
      buf[b] := buf[b].(owner := pid);
      assert BufOk(s, b);
      InvReplace(s, Now(), b);
    }

    /** The rest of bread: read the block unless the buffer already has it. Either way the
        holder sees the last contents stored in the block. */
    method Fill(pid: nat, b: nat)
      requires Valid() && pid != 0 && b < NBUF && buf[b].owner == pid
      modifies buf
      ensures Valid() && buf[b].blockno < |view|
      ensures !old(buf[b].valid) ==> buf[b].data == disk.blocks[buf[b].blockno]
      ensures Now() == old(Now()).(bufs :=
                         old(buf[..])[b := old(buf[b]).(valid := true, data := view[buf[b].blockno])])
    {
      ghost var s := Now();
      assert BufOk(s, b);
      if !buf[b].valid {
        assert !Cached(s, buf[b].blockno);
        buf[b] := buf[b].(valid := true, data := disk.blocks[buf[b].blockno]);
        InvReplace(s, Now(), b);
      }
    }

    /** The holder of a buffer stores into b->data. */
    method Modify(pid: nat, b: nat, data: Block)
      requires Valid() && pid != 0 && b < NBUF && buf[b].owner == pid && buf[b].valid
      modifies this`view, buf
      ensures Valid() && buf[b].blockno < |old(view)|
      ensures Now() == old(Now()).(bufs := old(buf[..])[b := old(buf[b]).(data := data)],
                                   view := old(view)[buf[b].blockno := data])
    {
      ghost var s := Now();
      assert BufOk(s, b);
      buf[b] := buf[b].(data := data);
      view := view[buf[b].blockno := data];
      InvReplace(s, Now(), b);
    }

    method Bwrite(pid: nat, b: nat)
      requires Valid() && pid != 0 && b < NBUF && buf[b].owner == pid && buf[b].valid
      modifies disk
      ensures Valid() && buf[b].blockno < |old(disk.blocks)|
      ensures disk.blocks == old(disk.blocks)[buf[b].blockno := buf[b].data]
      ensures disk.trace == old(disk.trace) + [disk.blocks]
    {
      ghost var s := Now();
      assert BufOk(s, b);
      disk.Write(buf[b].blockno, buf[b].data);
      InvReplace(s, Now(), b);
    }

    /** A buffer may be released only if the log has it or the disk does. */
    method Brelse(pid: nat, b: nat)
      requires Valid() && pid != 0 && b < NBUF && buf[b].owner == pid && buf[b].blockno < |disk.blocks|
      requires buf[b].valid && pins[b] == 0 ==> buf[b].data == disk.blocks[buf[b].blockno]
      modifies this`users, this`stamp, this`clock, buf, list`order, list.prev, list.next
      ensures Valid() && old(buf[b].refcnt) > 0
      ensures Now() == old(Now()).(
                bufs := old(buf[..])[b := old(buf[b]).(owner := 0, refcnt := old(buf[b].refcnt) - 1)],
                users := old(users)[b := old(users)[b] - multiset{pid}])
      ensures if buf[b].refcnt == 0 then
                list.order == [b] + Lru.Remove(old(list.order), b) && stamp == old(stamp)[b := old(clock)]
              else
                list.order == old(list.order) && stamp == old(stamp)
    {
      ghost var s := Now();
      assert BufOk(s, b);
      buf[b] := buf[b].(owner := 0);
      buf[b] := buf[b].(refcnt := buf[b].refcnt - 1);
      users := users[b := users[b] - multiset{pid}];
      InvReplace(s, Now(), b);
      if buf[b].refcnt == 0 {
        ToFront(b);
      }
    }

    method ToFront(b: nat)
      requires LruOrder() && b < NBUF
      modifies this`stamp, this`clock, list`order, list.prev, list.next
      ensures LruOrder()
      ensures list.order == [b] + Lru.Remove(old(list.order), b) && stamp == old(stamp)[b := old(clock)]
    {
      ghost var order := list.order;
      assert b in order;
      ghost var k :| 0 <= k < |order| && order[k] == b;
      SortedToFront(order, stamp, clock, k);
      Lru.RemoveAt(order, k);
      list.MoveToFront(b);
      stamp := stamp[b := clock];
      clock := clock + 1;
    }

    method Bpin(b: nat)
      requires Valid() && b < NBUF && buf[b].owner != 0 && buf[b].valid
      modifies this`pins, buf
      ensures Valid()
      ensures Now() == old(Now()).(bufs := old(buf[..])[b := old(buf[b]).(refcnt := old(buf[b].refcnt) + 1)],
                                   pins := old(pins)[b := old(pins)[b] + 1])
    {
      ghost var s := Now();
      buf[b] := buf[b].(refcnt := buf[b].refcnt + 1);
      pins := pins[b := pins[b] + 1];
      assert BufOk(s, b);
      InvReplace(s, Now(), b);
    }

    /** install_trans unpins a buffer it holds, so the count never reaches 0 here. */
    method Bunpin(b: nat)
      requires Valid() && b < NBUF && buf[b].owner != 0 && pins[b] > 0
      modifies this`pins, buf
      ensures Valid() && old(buf[b].refcnt) > 1
      ensures Now() == old(Now()).(bufs := old(buf[..])[b := old(buf[b]).(refcnt := old(buf[b].refcnt) - 1)],
                                   pins := old(pins)[b := old(pins)[b] - 1])
    {
      ghost var s := Now();
      assert BufOk(s, b);
      assert buf[b].owner in users[b];
      buf[b] := buf[b].(refcnt := buf[b].refcnt - 1);
      pins := pins[b := pins[b] - 1];
      InvReplace(s, Now(), b);
    }
  }
}
