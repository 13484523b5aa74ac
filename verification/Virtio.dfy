/** The virtio disk driver of virtio_disk.c. Every critical section under vdisk_lock, from one
    sleep to the next, is a method; the steps of the device come in between, and between the
    rounds of virtio_disk_intr. */
module Virtio {
  import opened Options
  import opened Counting
  import opened Virtqueue

  /** free with the bits of the descriptors in idx cleared. */
  ghost function Without(free: seq<bool>, idx: seq<nat>): (r: seq<bool>)
    ensures |r| == |free| && forall i :: 0 <= i < |free| ==> r[i] == (free[i] && i !in idx)
  {
    seq(|free|, i requires 0 <= i < |free| => free[i] && i !in idx)
  }

  /** No three different descriptors are free. */
  ghost predicate TooFew(free: seq<bool>) {
    forall a, b, c :: 0 <= a < b < c < |free| ==> !(free[a] && free[b] && free[c])
  }

  lemma WithoutMore(free: seq<bool>, idx: seq<nat>, i: nat)
    requires i < |free| && Without(free, idx)[i]
    ensures Without(free, idx)[i := false] == Without(free, idx + [i]) && free[i] && i !in idx
  {
  }

  lemma WithoutFirst(free: seq<bool>, idx: seq<nat>, j: nat)
    requires j < |idx| && idx[j] < |free| && free[idx[j]] && Distinct(idx)
    ensures !Without(free, idx[j..])[idx[j]] && Without(free, idx[j..])[idx[j] := true] == Without(free, idx[j + 1..])
  {
    assert idx[j..] == [idx[j]] + idx[j + 1..];
    assert idx[j] !in idx[j + 1..];
  }

  lemma NoneLeft(free: seq<bool>, idx: seq<nat>)
    requires |idx| < 3 && forall i :: 0 <= i < |free| ==> !Without(free, idx)[i]
    ensures TooFew(free)
  {
    forall a, b, c | 0 <= a < b < c < |free|
      ensures !(free[a] && free[b] && free[c])
    {
      assert !Without(free, idx)[a] && !Without(free, idx)[b] && !Without(free, idx)[c];
    }
  }

  lemma WithoutThree(free: seq<bool>, a: nat, b: nat, c: nat)
    requires a < |free| && b < |free| && c < |free|
    ensures Without(free, [a, b, c]) == free[a := false][b := false][c := false]
  {
  }

  /** A descriptor after free_desc. */
  ghost function Cleared(s: Chains, i: nat): (t: Chains)
    requires |s.free| == |s.next| == |s.more| == NUM && i < NUM
    ensures |t.free| == |t.next| == |t.more| == NUM
  {
    s.(free := s.free[i := true], next := s.next[i := 0], more := s.more[i := false])
  }

  /** Free descriptors are blank. */
  ghost predicate AllBlank(s: Chains)
    requires Sized(s)
  {
    forall j :: 0 <= j < NUM && s.free[j] ==> s.next[j] == 0 && !s.more[j]
  }

  /** The requests that virtio_disk_intr has still to see. */
  ghost function Unseen(phase: map<nat, Phase>): (r: set<nat>) {
    set h | h in phase && phase[h] != Seen
  }

  /** What steps of the device leave: the same requests, more of them reported and completed. */
  ghost predicate Later(s: Queue, t: Queue) {
    && t.chains == s.chains && t.made == s.made && t.busy == s.busy && t.seenIdx == s.seenIdx &&
          s.phase.Keys <= t.phase.Keys
    && Unseen(t.phase) == Unseen(s.phase)
    && (forall h {:trigger h in t.used.heads} :: h in s.used.heads ==> h in t.used.heads)
    && (forall x {:trigger x in t.completed} :: x in s.completed ==> x in t.completed)
  }

  lemma LaterTwice(s: Queue, t: Queue, u: Queue)
    requires Later(s, t) && Later(t, u)
    ensures Later(s, u)
  {
    forall h | h in s.used.heads
      ensures h in u.used.heads
    {
      assert h in t.used.heads;
    }
    forall x | x in s.completed
      ensures x in u.completed
    {
      assert x in t.completed;
    }
  }

  lemma AcceptLater(s: Queue)
    requires Inv(s) == true && s.avail.heads != []
    ensures Later(s, Accept(s))
  {
    assert s.avail.heads[0] in s.avail.heads && PhaseOk(s, s.avail.heads[0]);
  }

  lemma CompleteLater(s: Queue, h: nat)
    requires Inv(s) == true && h in s.chains.requests && h in s.phase && s.phase[h] == Taken
    ensures h < |s.status| && |s.used.slots| == NUM && Later(s, Complete(s, h))
  {
    assert PhaseOk(s, h);
  }

  /** What virtio_disk_intr and the device together leave: every request that was reported in s is
      still reported or has been seen. */
  ghost predicate Drained(s: Queue, t: Queue) {
    && t.chains == s.chains && t.made == s.made
    && (forall h {:trigger h in t.used.heads} {:trigger h in s.used.heads} :: h in s.used.heads ==>
          h in t.used.heads || (h in t.phase && t.phase[h] == Seen))
    && (forall x {:trigger x in t.completed} :: x in s.completed ==> x in t.completed)
  }

  lemma LaterDrains(s: Queue, t: Queue)
    requires Later(s, t)
    ensures Drained(s, t)
  {
    forall h | h in s.used.heads
      ensures h in t.used.heads
    {
    }
  }

  lemma SeeDrains(s: Queue, t: Queue)
    requires Drained(s, t) && Inv(t) && t.used.heads != [] && t.used.heads[0] in t.chains.requests
    ensures Drained(s, See(t)) && |Unseen(See(t).phase)| < |Unseen(t.phase)|
  {
    RestOf(t.used.heads);
    var h := t.used.heads[0];
    assert PhaseOk(t, h);
    assert h in Unseen(t.phase) && Unseen(See(t).phase) == Unseen(t.phase) - {h};
  }

  lemma DrainedLater(s: Queue, t: Queue, u: Queue)
    requires Drained(s, t) && Later(t, u)
    ensures Drained(s, u) && |Unseen(u.phase)| == |Unseen(t.phase)|
  {
    forall h | h in s.used.heads
      ensures h in u.used.heads || (h in u.phase && u.phase[h] == Seen)
    {
      if h in t.used.heads {
        assert h in u.used.heads;
      } else {
        assert h in t.phase && h !in Unseen(t.phase) && h in u.phase && h !in Unseen(u.phase);
      }
    }
    forall x | x in s.completed
      ensures x in u.completed
    {
      assert x in t.completed;
    }
  }

  /** What the device may do: take the next request, or complete one. */
  datatype Move = TakeNext | Finish(h: nat)

  /** A step of the device, if it can be done. */
  ghost function Moved(s: Queue, m: Move): (t: Queue) {
    if m == TakeNext && s.avail.heads != [] then Accept(s)
    else if m.Finish? && m.h in s.chains.requests && m.h in s.phase && s.phase[m.h] == Taken &&
            m.h < |s.status| && |s.used.slots| == NUM then Complete(s, m.h)
    else s
  }

  /** The first n of the moves. */
  ghost function MovedAll(s: Queue, moves: seq<Move>, n: nat): (t: Queue)
    requires n <= |moves|
  {
    if n == 0 then s else Moved(MovedAll(s, moves, n - 1), moves[n - 1])
  }

  /** The driver. Of `chains` and the rings the code reads only what the kernel has there, never
      the ledger in them. */
  class Disk {
    var chains: Chains
    var avail: Ring
    var used: Ring
    var seenIdx: nat
    var status: seq<nat>
    var busy: set<nat>
    var made: nat
    var phase: map<nat, Phase>
    var completed: seq<nat>

    ghost function Now(): (s: Queue)
      reads this
    {
      Queue(chains, avail, used, seenIdx, status, busy, phase, made, completed)
    }

    /** virtio_disk_init, as far as the queue is concerned. */
    constructor ()
      ensures Now() == Empty() && Inv(Now())
    {
      chains := Chains(seq(8, i => true), seq(8, i => 0), seq(8, i => false), seq(8, i => None), map[],
            seq(8, i => None), map[]);
      avail, used := Ring(seq(8, i => 0), 0, [], 0), Ring(seq(8, i => 0), 0, [], 0);
      seenIdx, status, busy, made, phase, completed := 0, seq(8, i => 0), {}, 0, map[], [];
      new;
      EmptyOk();
      assert Now() == Empty();
    }

    method AllocDesc() returns (i: int)
      requires |chains.free| == NUM
      modifies this`chains
      ensures i < 0 ==> chains == old(chains) && forall j :: 0 <= j < NUM ==> !chains.free[j]
      ensures i >= 0 ==> i < NUM && old(chains).free[i] && chains == old(chains).(free := old(chains).free[i := false])
    {
      i := 0;
      while i < NUM
        invariant 0 <= i <= NUM && chains == old(chains)
        invariant forall j :: 0 <= j < i ==> !chains.free[j]
      {
        if chains.free[i] {
          chains := chains.(free := chains.free[i := false]);
          return;
        }
        i := i + 1;
      }
      return -1;
    }

    /** The two panics are the precondition. */
    method FreeDesc(i: nat)
      requires |chains.free| == |chains.next| == |chains.more| == NUM && i < NUM && !chains.free[i]
      modifies this`chains
      ensures chains == Cleared(old(chains), i)
    {
      chains := chains.(next := chains.next[i := 0], more := chains.more[i := false]);
      chains := chains.(free := chains.free[i := true]);
    }

    /** Three descriptors, or none: those already taken are given back. */
    method Alloc3Desc() returns (ok: bool, d0: nat, d1: nat, d2: nat)
      requires Sized(chains) && AllBlank(chains)
      modifies this`chains
      ensures ok ==>
                && d0 < NUM && d1 < NUM && d2 < NUM && d0 != d1 && d0 != d2 && d1 != d2
                && old(chains).free[d0] && old(chains).free[d1] && old(chains).free[d2]
                && chains == old(chains).(free := old(chains).free[d0 := false][d1 := false][d2 := false])
      ensures !ok ==> chains == old(chains) && TooFew(chains.free)
    {
      ghost var s := chains;
      d0, d1, d2 := 0, 0, 0;
      var idx: seq<nat> := [];
      assert Without(s.free, []) == s.free;
      while |idx| < 3
        invariant |idx| <= 3 && (forall k :: 0 <= k < |idx| ==> idx[k] < NUM && s.free[idx[k]]) && Distinct(idx)
        invariant chains == s.(free := Without(s.free, idx))
      {
        var i := AllocDesc();
        if i < 0 {
          NoneLeft(s.free, idx);
          GiveBack(s, idx);
          ok := false;
          return;
        }
        WithoutMore(s.free, idx, i);
        idx := idx + [i];
      }
      ok, d0, d1, d2 := true, idx[0], idx[1], idx[2];
      assert idx == [d0, d1, d2];
      WithoutThree(s.free, d0, d1, d2);
    }

    /** The inner loop of alloc3_desc. */
    method GiveBack(ghost s: Chains, idx: seq<nat>)
      requires Sized(s) && AllBlank(s) && Distinct(idx) && forall k :: 0 <= k < |idx| ==> idx[k] < NUM && s.free[idx[k]]
      requires chains == s.(free := Without(s.free, idx))
      modifies this`chains
      ensures chains == s
    {
      var j := 0;
      while j < |idx|
        invariant 0 <= j <= |idx| && chains == s.(free := Without(s.free, idx[j..]))
      {
        WithoutFirst(s.free, idx, j);
        FreeDesc(idx[j]);
        assert chains.next == s.next && chains.more == s.more;
        j := j + 1;
      }
      assert Without(s.free, idx[j..]) == s.free;
    }

    /** The chain of a request is freed from its head on. */
    method FreeChain(h: nat, ghost d1: nat, ghost d2: nat)
      requires Sized(chains) && h < NUM && d1 < NUM && d2 < NUM && h != d1 && h != d2 && d1 != d2
      requires !chains.free[h] && !chains.free[d1] && !chains.free[d2]
      requires chains.more[h] && chains.next[h] == d1 && chains.more[d1] && chains.next[d1] == d2 && !chains.more[d2]
      modifies this`chains
      ensures chains == Cleared(Cleared(Cleared(old(chains), h), d1), d2)
    {
      var i := h;
      ghost var k, s := 0, chains;
      while true
        invariant k < 3 && i == (if k == 0 then h else if k == 1 then d1 else d2)
        invariant chains == if k == 0 then s else if k == 1 then Cleared(s, h) else Cleared(Cleared(s, h), d1)
        decreases 3 - k
      {
        var flag, nxt := chains.more[i], chains.next[i];
        FreeDesc(i);
        if !flag {
          break;
        }
        i, k := nxt, k + 1;
      }
    }

    /** virtio_disk_rw as far as the notification of the device; None means that it has to sleep
        until descriptors are free. The buffer must not be in a request already: its caller
        holds its lock. */
    method Start(b: nat) returns (r: Option<nat>, ghost d1: nat, ghost d2: nat)
      requires Inv(Now()) == true && b !in chains.headOf
      modifies this
      ensures r.None? ==> Now() == old(Now()) && TooFew(chains.free)
      ensures r.Some? ==> Linkable(old(chains), r.value, d1, d2, b) && Now() == Submit(old(Now()), r.value, d1, d2, b)
      ensures Inv(Now()) == true
    {
      ghost var s := Now();
      Blank(chains);
      var ok, h, e1, e2 := Alloc3Desc();
      d1, d2 := e1, e2;
      if !ok {
        return None, 0, 0;
      }
      SubmitOk(s, h, e1, e2, b);
      Format(h, e1, e2, b);
      r := Some(h);
    }

    /** virtio_disk_rw from the formatting of the descriptors to the notification. */
    method Format(h: nat, d1: nat, d2: nat, b: nat)
      requires Sized(chains) && |avail.slots| == |status| == NUM && h < NUM && d1 < NUM && d2 < NUM
      modifies this
      ensures chains == Link(old(chains), h, d1, d2, b, old(made)).(free := old(chains).free)
      ensures avail == Push(old(avail), h) && status == old(status)[h := 0xff] && busy == old(busy) + {b}
      ensures phase == old(phase)[h := Offered] && made == old(made) + 1
      ensures used == old(used) && seenIdx == old(seenIdx) && completed == old(completed)
    {
      var c := chains;
      c := c.(next := c.next[h := d1], more := c.more[h := true]);
      c := c.(next := c.next[d1 := d2], more := c.more[d1 := true]);
      c := c.(next := c.next[d2 := 0], more := c.more[d2 := false]);
      c := c.(buf := c.buf[h := Some(b)]);
      chains := c.(requests := c.requests[h := Request(d1, d2, b, made)],
                   owner := c.owner[h := Some(h)][d1 := Some(h)][d2 := Some(h)], headOf := c.headOf[b := h]);
      status, busy := status[h := 0xff], busy + {b};
      avail := Push(avail, h);
      phase, made := phase[h := Offered], made + 1;
    }

    /** The rest of virtio_disk_rw, once b->disk is clear. By then the device has completed the
        request; its three descriptors become free. */
    method End(b: nat, h: nat)
      requires Inv(Now()) == true && h in chains.requests && chains.requests[h].buf == b && b !in busy
      modifies this
      ensures Inv(Now()) == true && old(chains).requests[h].id in old(completed)
      ensures ChainOk(old(chains), h) && Now() == Retire(old(Now()), h)
    {
      ghost var s := Now();
      DoneMeansCompleted(s, h);
      RetireOk(s, h);
      InUse(chains, h);
      var d1 := chains.next[h];
      var d2 := chains.next[d1];
      chains := chains.(buf := chains.buf[h := None]);
      FreeChain(h, d1, d2);
      chains := chains.(requests := chains.requests - {h}, headOf := chains.headOf - {b},
                        owner := chains.owner[h := None][d1 := None][d2 := None]);
      phase := phase - {h};
    }

    /** The device takes the next request from the avail ring. */
    method DeviceAccept()
      requires Inv(Now()) == true && avail.heads != []
      modifies this`avail, this`phase
      ensures Now() == Accept(old(Now())) && Inv(Now()) == true && Unseen(phase) == Unseen(old(phase))
    {
      ghost var s := Now();
      AcceptOk(s);
      assert PhaseOk(s, avail.heads[0]);
      phase := phase[avail.heads[0] := Taken];
      avail := Pop(avail);
    }

    /** The device completes a request that it has taken: it has moved the data, writes the status
        and reports the head in the used ring. */
    method DeviceComplete(h: nat)
      requires Inv(Now()) == true && h in chains.requests && h in phase && phase[h] == Taken
      modifies this`used, this`status, this`phase, this`completed
      ensures h < |old(status)| && |old(used).slots| == NUM && Now() == Complete(old(Now()), h)
      ensures Inv(Now()) == true && Unseen(phase) == Unseen(old(phase))
    {
      ghost var s := Now();
      CompleteOk(s, h);
      status, used := status[h := 0], Push(used, h);
      phase, completed := phase[h := Reported], completed + [chains.requests[h].id];
    }

    /** A step of the device. */
    method DeviceMove(m: Move)
      requires Inv(Now()) == true
      modifies this`avail, this`used, this`status, this`phase, this`completed
      ensures Inv(Now()) == true && Later(old(Now()), Now()) == true && Now() == Moved(old(Now()), m)
    {
      ghost var t := Now();
      if m == TakeNext && avail.heads != [] {
        DeviceAccept();
        AcceptLater(t);
      } else if m.Finish? && m.h in chains.requests && m.h in phase && phase[m.h] == Taken {
        DeviceComplete(m.h);
        CompleteLater(t, m.h);
      }
    }

    /** Any number of steps of the device. */
    method DeviceRun(moves: seq<Move>)
      requires Inv(Now()) == true
      modifies this`avail, this`used, this`status, this`phase, this`completed
      ensures Inv(Now()) == true && Later(old(Now()), Now()) == true
      ensures Now() == MovedAll(old(Now()), moves, |moves|)
    {
      ghost var s := Now();
      var i := 0;
      while i < |moves|
        invariant i <= |moves| && Inv(Now()) == true && Later(s, Now()) == true && Now() == MovedAll(s, moves, i)
      {
        ghost var t := Now();
        DeviceMove(moves[i]);
        LaterTwice(s, t, Now());
        i := i + 1;
      }
    }

    /** One round of virtio_disk_intr. The entry of the used ring names a request that is under
        way, with its buffer and with status 0, so that the panic is impossible. */
    method Round()
      requires Inv(Now()) == true && seenIdx != used.idx
      modifies this`used, this`seenIdx, this`busy, this`phase
      ensures old(used).heads != [] && old(used).heads[0] in old(chains).requests && Now() == See(old(Now()))
      ensures Inv(Now()) == true
    {
      ghost var s := Now();
      PopOk(used);
      SeeOk(s);
      var id := used.slots[seenIdx % 8];
      assert PhaseOk(s, id) && ChainOk(chains, id) && id in used.heads;
      assert status[id] == 0;
      var b := chains.buf[id].value;
      busy := busy - {b};
      seenIdx := (seenIdx + 1) % 65536;
      used, phase := Pop(used), phase[id := Seen];
    }

    /** virtio_disk_intr after its acquire, while the device goes on as `moves` says, between any two
        rounds. When the loop ends, every request reported by then has been seen. */
    method Intr(moves: seq<seq<Move>>)
      requires Inv(Now()) == true
      modifies this
      ensures Inv(Now()) == true && used.heads == [] && Drained(old(Now()), Now())
    {
      ghost var s := Now();
      var k := 0;
      DeviceRun(if k < |moves| then moves[k] else []);
      LaterDrains(s, Now());
      PopOk(used);
      while seenIdx != used.idx
        invariant Inv(Now()) == true && Drained(s, Now()) == true && (seenIdx != used.idx <==> used.heads != [])
        decreases |Unseen(phase)|
      {
        ghost var t := Now();
        Round();
        SeeDrains(s, t);
        k := k + 1;
        ghost var u := Now();
        DeviceRun(if k < |moves| then moves[k] else []);
        DrainedLater(s, u, Now());
        PopOk(used);
      }
    }
  }
}
