/** The driver's side of a virtqueue (sections 2.6 and 5.2 of virtio 1.1), with a device that takes
    requests in order and completes them in any order: memory shared by the two, and a ledger
    of the requests in it. */
module Virtqueue {
  import opened Options
  import opened Counting

  const NUM: nat := 8

  /** How far a request has come: offered in the avail ring, taken by the device, reported in
      the used ring, and seen there by virtio_disk_intr. */
  datatype Phase = Offered | Taken | Reported | Seen

  /** The other two descriptors of a request, its buffer and its number. */
  datatype Request = Request(d1: nat, d2: nat, buf: nat, id: nat)

  /** free[], the next field and the NEXT flag of desc[], and info[].b; and a ledger: the requests
      by their head descriptor, and the request that each descriptor and buffer is in. */
  datatype Chains = Chains(free: seq<bool>, next: seq<nat>, more: seq<bool>, buf: seq<Option<nat>>,
                           requests: map<nat, Request>, owner: seq<Option<nat>>, headOf: map<nat, nat>)

  /** A ring with the writer's 16-bit index; and the heads in it that have not been read, and how
      many have been. */
  datatype Ring = Ring(slots: seq<nat>, idx: nat, heads: seq<nat>, read: nat)

  /** Besides: disk.used_idx, info[].status and the buffers with b->disk set; and the phase of each
      request, how many were ever made, and the numbers of those the device has completed. */
  datatype Queue = Queue(chains: Chains, avail: Ring, used: Ring, seenIdx: nat, status: seq<nat>, busy: set<nat>,
                         phase: map<nat, Phase>, made: nat, completed: seq<nat>)

  ghost predicate Sized(s: Chains) {
    |s.free| == |s.next| == |s.more| == |s.buf| == |s.owner| == NUM
  }

  /** The three descriptors of a request are its own, and linked from the head. */
  ghost predicate ChainOk(s: Chains, h: nat)
    requires Sized(s) && h in s.requests
  {
    var r := s.requests[h];
    && h < NUM && r.d1 < NUM && r.d2 < NUM && h != r.d1 && h != r.d2 && r.d1 != r.d2
    && s.owner[h] == s.owner[r.d1] == s.owner[r.d2] == Some(h)
    && s.more[h] && s.next[h] == r.d1 && s.more[r.d1] && s.next[r.d1] == r.d2 && !s.more[r.d2]
    && s.buf[h] == Some(r.buf) && r.buf in s.headOf && s.headOf[r.buf] == h
  }

  /** A descriptor is free and blank, or one of the three of a request. */
  ghost predicate DescOk(s: Chains, i: nat)
    requires Sized(s) && i < NUM
  {
    && (s.free[i] <==> s.owner[i] == None)
    && (s.free[i] ==> s.next[i] == 0 && !s.more[i])
    && (s.owner[i].Some? ==>
          s.owner[i].value in s.requests
          && (i == s.owner[i].value || i == s.requests[s.owner[i].value].d1 || i == s.requests[s.owner[i].value].d2))
  }

  ghost predicate ChainsOk(s: Chains) {
    && Sized(s)
    && (forall h {:trigger s.requests[h]} {:trigger h in s.requests} :: h in s.requests ==> ChainOk(s, h))
    && (forall i: nat {:trigger s.owner[i]} {:trigger s.free[i]} :: i < NUM ==> DescOk(s, i))
    && (forall b {:trigger b in s.headOf} :: b in s.headOf ==>
          s.headOf[b] in s.requests && s.requests[s.headOf[b]].buf == b)
  }

  /** The part of a ring between what has been read and what has been written holds `heads`. */
  ghost predicate RingOk(s: Ring) {
    && |s.slots| == NUM && Distinct(s.heads) && (forall i :: 0 <= i < |s.heads| ==> s.heads[i] < NUM)
    && s.idx == (s.read + |s.heads|) % 65536
    && (forall i: nat {:trigger s.heads[i]} :: i < |s.heads| ==> s.slots[(s.read + i) % 8] == s.heads[i])
  }

  /** What is known of a request in its phase. */
  ghost predicate PhaseOk(s: Queue, h: nat)
    requires h in s.chains.requests
  {
    var r := s.chains.requests[h];
    && h in s.phase && h < |s.status| && r.id < s.made
    && (s.phase[h] == Reported ==> s.status[h] == 0)
    && (r.buf in s.busy <==> s.phase[h] != Seen)
    && (r.id in s.completed <==> s.phase[h] == Reported || s.phase[h] == Seen)
    && (h in s.avail.heads <==> s.phase[h] == Offered) && (h in s.used.heads <==> s.phase[h] == Reported)
  }

  ghost predicate LedgerOk(s: Queue) {
    && |s.status| == NUM
    && (forall h {:trigger h in s.chains.requests} {:trigger s.phase[h]} :: h in s.chains.requests ==> PhaseOk(s, h))
    && (forall h {:trigger h in s.avail.heads} :: h in s.avail.heads ==> h in s.chains.requests)
    && (forall h {:trigger h in s.used.heads} :: h in s.used.heads ==> h in s.chains.requests)
    && (forall b {:trigger b in s.busy} :: b in s.busy ==> b in s.chains.headOf)
    && (forall g, h {:trigger s.chains.requests[g], s.chains.requests[h]} ::
          g in s.chains.requests && h in s.chains.requests && g != h ==>
          s.chains.requests[g].id != s.chains.requests[h].id)
    && Distinct(s.completed) && (forall x {:trigger x in s.completed} :: x in s.completed ==> x < s.made)
  }

  ghost predicate Inv(s: Queue) {
    ChainsOk(s.chains) && RingOk(s.avail) && RingOk(s.used) && s.seenIdx == s.used.read % 65536 && LedgerOk(s)
  }

  ghost function Empty(): (s: Queue) {
    var ring := Ring(seq(8, i => 0), 0, [], 0);
    Queue(Chains(seq(8, i => true), seq(8, i => 0), seq(8, i => false), seq(8, i => None), map[], seq(8, i => None),
          map[]),
          ring, ring, 0, seq(8, i => 0), {}, map[], 0, [])
  }

  lemma EmptyOk()
    ensures Inv(Empty())
  {
    forall i: nat | i < NUM
      ensures DescOk(Empty().chains, i)
    {
    }
  }

  // ---------- rings ----------

  /** Numbers below n that are all different, and not x, are fewer than n. */
  lemma Pigeonhole(heads: seq<nat>, n: nat, x: nat)
    requires Distinct(heads) && x < n && x !in heads && forall i :: 0 <= i < |heads| ==> heads[i] < n
    ensures |heads| < n
  {
    var used := Elements(heads);
    CountSeq(heads);
    Subset(used + {x}, Below(n));
  }

  ghost function Below(n: nat): (r: set<nat>)
    ensures |r| == n && forall i: nat :: i in r <==> i < n
  {
    if n == 0 then {} else Below(n - 1) + {n - 1}
  }

  /** The 16-bit indices agree with counts that never wrap. */
  lemma Wrap(x: nat)
    ensures (x % 65536 + 1) % 65536 == (x + 1) % 65536 && x % 65536 % 8 == x % 8
  {
    var r, q := x % 65536, x / 65536;
    assert x == 65536 * q + r;
    assert x % 8 == r % 8 by {
      Multiple(8192 * q, r);
    }
  }

  lemma Multiple(k: nat, r: nat)
    ensures (8 * k + r) % 8 == r % 8
  {
  }

  lemma SlotsDiffer(read: nat, i: nat, n: nat)
    requires i < n < 8
    ensures (read + i) % 8 != (read + n) % 8
  {
  }

  /** Writing at idx % NUM and increasing idx, in 16 bits. */
  function Push(s: Ring, h: nat): (t: Ring)
    requires |s.slots| == NUM
  {
    Ring(s.slots[s.idx % 8 := h], (s.idx + 1) % 65536, s.heads + [h], s.read)
  }

  /** It adds one head and overwrites none that has not been read. */
  lemma PushOk(s: Ring, h: nat)
    requires RingOk(s) && h < NUM && h !in s.heads
    ensures RingOk(Push(s, h))
  {
    Pigeonhole(s.heads, NUM, h);
    Wrap(s.read + |s.heads|);
    var t := Push(s, h);
    forall i: nat {:trigger t.heads[i]} | i < |t.heads|
      ensures t.slots[(s.read + i) % 8] == t.heads[i]
    {
      if i < |s.heads| {
        SlotsDiffer(s.read, i, |s.heads|);
        assert s.slots[(s.read + i) % 8] == s.heads[i];
      }
    }
  }

  function Pop(s: Ring): (t: Ring)
    requires s.heads != []
  {
    s.(heads := s.heads[1..], read := s.read + 1)
  }

  /** Reading at read % NUM takes the oldest head; the reader's 16-bit index differs from the
      writer's just when there is one. */
  lemma PopOk(s: Ring)
    requires RingOk(s)
    ensures s.read % 65536 != s.idx <==> s.heads != []
    ensures s.heads != [] ==> s.slots[s.read % 65536 % 8] == s.heads[0] && RingOk(Pop(s))
  {
    AtMostNum(s.heads);
    Wrap(s.read);
    if s.heads != [] {
      assert s.slots[(s.read + 0) % 8] == s.heads[0];
      forall i: nat | i < |s.heads[1..]|
        ensures s.slots[(s.read + 1 + i) % 8] == s.heads[1..][i]
      {
        assert s.slots[(s.read + (i + 1)) % 8] == s.heads[i + 1];
      }
    }
  }

  lemma AtMostNum(heads: seq<nat>)
    requires Distinct(heads) && forall i :: 0 <= i < |heads| ==> heads[i] < NUM
    ensures |heads| <= NUM
  {
    CountSeq(heads);
    Subset(Elements(heads), Below(NUM));
  }

  lemma RestOf(heads: seq<nat>)
    requires Distinct(heads) && heads != []
    ensures heads[0] in heads && forall h {:trigger h in heads[1..]} :: h in heads[1..] <==> h in heads && h != heads[0]
  {
    forall h | h in heads && h != heads[0]
      ensures h in heads[1..]
    {
      var i :| 0 <= i < |heads| && heads[i] == h;
      assert heads[1..][i - 1] == h;
    }
  }

  // ---------- chains of descriptors ----------

  /** Three descriptors are taken, linked and put to use for request number id of buffer b. */
  ghost function Link(s: Chains, h: nat, d1: nat, d2: nat, b: nat, id: nat): (t: Chains)
    requires Sized(s) && h < NUM && d1 < NUM && d2 < NUM
  {
    Chains(s.free[h := false][d1 := false][d2 := false],
           s.next[h := d1][d1 := d2][d2 := 0],
           s.more[h := true][d1 := true][d2 := false],
           s.buf[h := Some(b)],
           s.requests[h := Request(d1, d2, b, id)],
           s.owner[h := Some(h)][d1 := Some(h)][d2 := Some(h)],
           s.headOf[b := h])
  }

  ghost predicate Linkable(s: Chains, h: nat, d1: nat, d2: nat, b: nat)
    requires Sized(s)
  {
    && h < NUM && d1 < NUM && d2 < NUM && h != d1 && h != d2 && d1 != d2
    && s.free[h] && s.free[d1] && s.free[d2] && b !in s.headOf
  }

  lemma LinkChains(s: Chains, h: nat, d1: nat, d2: nat, b: nat, id: nat, g: nat)
    requires ChainsOk(s) && Linkable(s, h, d1, d2, b) && g in s.requests
    ensures g != h && ChainOk(Link(s, h, d1, d2, b, id), g)
  {
    assert ChainOk(s, g);
    assert DescOk(s, h) && DescOk(s, d1) && DescOk(s, d2);
  }

  lemma LinkOk(s: Chains, h: nat, d1: nat, d2: nat, b: nat, id: nat)
    requires ChainsOk(s) && Linkable(s, h, d1, d2, b)
    ensures h !in s.requests && ChainsOk(Link(s, h, d1, d2, b, id))
  {
    var t := Link(s, h, d1, d2, b, id);
    forall g | g in s.requests
      ensures g != h && ChainOk(t, g)
    {
      LinkChains(s, h, d1, d2, b, id, g);
    }
    assert ChainOk(t, h);
    forall i: nat | i < NUM
      ensures DescOk(t, i)
    {
      LinkDescs(s, h, d1, d2, b, id, i);
    }
  }

  lemma LinkDescs(s: Chains, h: nat, d1: nat, d2: nat, b: nat, id: nat, i: nat)
    requires ChainsOk(s) && Linkable(s, h, d1, d2, b) && i < NUM
    ensures DescOk(Link(s, h, d1, d2, b, id), i)
  {
    assert DescOk(s, i) && DescOk(s, h);
    if s.owner[i].Some? {
      LinkChains(s, h, d1, d2, b, id, s.owner[i].value);
    }
  }

  /** free_chain and the end of virtio_disk_rw: the three descriptors are free again. */
  ghost function Unlink(s: Chains, h: nat): (t: Chains)
    requires Sized(s) && h in s.requests && ChainOk(s, h)
  {
    var d1, d2 := s.requests[h].d1, s.requests[h].d2;
    Chains(s.free[h := true][d1 := true][d2 := true],
           s.next[h := 0][d1 := 0][d2 := 0],
           s.more[h := false][d1 := false][d2 := false],
           s.buf[h := None],
           s.requests - {h},
           s.owner[h := None][d1 := None][d2 := None],
           s.headOf - {s.requests[h].buf})
  }

  lemma UnlinkChains(s: Chains, h: nat, g: nat)
    requires ChainsOk(s) && h in s.requests && g in s.requests && g != h
    ensures ChainOk(s, h) && ChainOk(Unlink(s, h), g)
  {
    assert ChainOk(s, h) && ChainOk(s, g);
  }

  lemma UnlinkDescs(s: Chains, h: nat, i: nat)
    requires ChainsOk(s) && h in s.requests && ChainOk(s, h) && i < NUM
    ensures DescOk(Unlink(s, h), i)
  {
    assert DescOk(s, i);
  }

  lemma UnlinkOk(s: Chains, h: nat)
    requires ChainsOk(s) && h in s.requests
    ensures ChainOk(s, h) && ChainsOk(Unlink(s, h))
  {
    assert ChainOk(s, h);
    var t := Unlink(s, h);
    forall g | g in t.requests
      ensures ChainOk(t, g)
    {
      UnlinkChains(s, h, g);
    }
    forall i: nat | i < NUM
      ensures DescOk(t, i)
    {
      UnlinkDescs(s, h, i);
    }
  }

  // ---------- the life of a request ----------

  /** virtio_disk_rw up to the notification, with descriptors h, d1 and d2 for buffer b. */
  ghost function Submit(s: Queue, h: nat, d1: nat, d2: nat, b: nat): (t: Queue)
    requires Sized(s.chains) && |s.avail.slots| == |s.status| == NUM && h < NUM && d1 < NUM && d2 < NUM
  {
    s.(chains := Link(s.chains, h, d1, d2, b, s.made), avail := Push(s.avail, h), status := s.status[h := 0xff],
       busy := s.busy + {b}, phase := s.phase[h := Offered], made := s.made + 1)
  }

  lemma SubmitOk(s: Queue, h: nat, d1: nat, d2: nat, b: nat)
    requires Inv(s) == true && Linkable(s.chains, h, d1, d2, b)
    ensures Inv(Submit(s, h, d1, d2, b))
  {
    LinkOk(s.chains, h, d1, d2, b, s.made);
    assert h !in s.avail.heads by { assert LedgerOk(s); }
    PushOk(s.avail, h);
    SubmitLedger(s, h, d1, d2, b);
  }

  lemma SubmitLedger(s: Queue, h: nat, d1: nat, d2: nat, b: nat)
    requires Inv(s) == true && Linkable(s.chains, h, d1, d2, b) && h !in s.chains.requests
    ensures LedgerOk(Submit(s, h, d1, d2, b)) == true
  {
    var t := Submit(s, h, d1, d2, b);
    forall g | g in t.chains.requests
      ensures PhaseOk(t, g)
    {
      SubmitPhases(s, h, d1, d2, b, g);
    }
  }

  lemma SubmitPhases(s: Queue, h: nat, d1: nat, d2: nat, b: nat, g: nat)
    requires Inv(s) == true && Linkable(s.chains, h, d1, d2, b) && h !in s.chains.requests
    requires g in Submit(s, h, d1, d2, b).chains.requests
    ensures PhaseOk(Submit(s, h, d1, d2, b), g)
  {
    if g != h {
      assert PhaseOk(s, g) && ChainOk(s.chains, g);
    }
  }

  /** The device takes the next request from the avail ring. */
  ghost function Accept(s: Queue): (t: Queue)
    requires s.avail.heads != []
  {
    s.(avail := Pop(s.avail), phase := s.phase[s.avail.heads[0] := Taken])
  }

  lemma AcceptOk(s: Queue)
    requires Inv(s) == true && s.avail.heads != []
    ensures Inv(Accept(s)) && s.avail.heads[0] in s.chains.requests
  {
    var h, t := s.avail.heads[0], Accept(s);
    PopOk(s.avail);
    RestOf(s.avail.heads);
    forall g | g in t.chains.requests
      ensures PhaseOk(t, g)
    {
      assert PhaseOk(s, g);
    }
  }

  /** The device completes a request that it has taken, whichever it likes. */
  ghost function Complete(s: Queue, h: nat): (t: Queue)
    requires h in s.chains.requests && h < |s.status| && |s.used.slots| == NUM
  {
    s.(status := s.status[h := 0], used := Push(s.used, h), phase := s.phase[h := Reported],
       completed := s.completed + [s.chains.requests[h].id])
  }

  lemma CompleteOk(s: Queue, h: nat)
    requires Inv(s) == true && h in s.chains.requests && h in s.phase && s.phase[h] == Taken
    ensures h < NUM && Inv(Complete(s, h)) && s.chains.requests[h].id !in s.completed
  {
    assert ChainOk(s.chains, h) && PhaseOk(s, h);
    var t := Complete(s, h);
    PushOk(s.used, h);
    forall g | g in t.chains.requests
      ensures PhaseOk(t, g)
    {
      CompletePhases(s, h, g);
    }
  }

  lemma CompletePhases(s: Queue, h: nat, g: nat)
    requires Inv(s) == true && h in s.chains.requests && g in s.chains.requests && PhaseOk(s, h) && h < NUM &&
              s.phase[h] == Taken
    ensures PhaseOk(Complete(s, h), g)
  {
    assert PhaseOk(s, g);
  }

  /** One round of virtio_disk_intr. */
  ghost function See(s: Queue): (t: Queue)
    requires s.used.heads != [] && s.used.heads[0] in s.chains.requests
  {
    var h := s.used.heads[0];
    s.(used := Pop(s.used), seenIdx := (s.seenIdx + 1) % 65536, busy := s.busy - {s.chains.requests[h].buf},
       phase := s.phase[h := Seen])
  }

  lemma SeeOk(s: Queue)
    requires Inv(s) == true && s.used.heads != []
    ensures s.used.heads[0] in s.chains.requests && Inv(See(s))
  {
    RestOf(s.used.heads);
    var h := s.used.heads[0];
    assert h in s.chains.requests;
    var t := See(s);
    PopOk(s.used);
    Wrap(s.used.read);
    forall g | g in t.chains.requests
      ensures PhaseOk(t, g)
    {
      assert PhaseOk(s, g) && ChainOk(s.chains, g) && ChainOk(s.chains, h);
    }
  }

  ghost function Retire(s: Queue, h: nat): (t: Queue)
    requires Sized(s.chains) && h in s.chains.requests && ChainOk(s.chains, h)
  {
    s.(chains := Unlink(s.chains, h), phase := s.phase - {h})
  }

  lemma RetireOk(s: Queue, h: nat)
    requires Inv(s) == true && h in s.chains.requests && h in s.phase && s.phase[h] == Seen
    ensures ChainOk(s.chains, h) && Inv(Retire(s, h))
  {
    UnlinkOk(s.chains, h);
    assert PhaseOk(s, h);
    var t := Retire(s, h);
    forall g | g in t.chains.requests
      ensures PhaseOk(t, g)
    {
      assert PhaseOk(s, g) && ChainOk(s.chains, g);
    }
  }

  /** A request stays what it is, and in its descriptors, while anything else happens. */
  lemma Undisturbed(s: Queue, h: nat, g: nat, d1: nat, d2: nat, b: nat)
    requires Inv(s) == true && h in s.chains.requests && s.chains.requests[h].buf != b
    ensures Linkable(s.chains, g, d1, d2, b) ==> Submit(s, g, d1, d2, b).chains.requests[h] == s.chains.requests[h]
    ensures g in s.chains.requests && g != h ==>
              ChainOk(s.chains, g) && h in Retire(s, g).chains.requests &&
                    Retire(s, g).chains.requests[h] == s.chains.requests[h]
  {
    assert ChainOk(s.chains, h);
    if Linkable(s.chains, g, d1, d2, b) {
      LinkChains(s.chains, g, d1, d2, b, s.made, h);
    }
  }

  /** When the buffer of a request is no longer marked as the disk's, the device has completed
      just that request, and the driver has seen it. */
  lemma DoneMeansCompleted(s: Queue, h: nat)
    requires Inv(s) == true && h in s.chains.requests && s.chains.requests[h].buf !in s.busy
    ensures h in s.phase && s.phase[h] == Seen && s.chains.requests[h].id in s.completed
  {
    assert PhaseOk(s, h);
  }

  lemma Blank(s: Chains)
    requires ChainsOk(s)
    ensures forall j :: 0 <= j < NUM && s.free[j] ==> s.next[j] == 0 && !s.more[j]
  {
    assert forall j: nat :: j < NUM ==> DescOk(s, j);
  }

  lemma InUse(s: Chains, h: nat)
    requires ChainsOk(s) && h in s.requests
    ensures ChainOk(s, h) && !s.free[h] && !s.free[s.requests[h].d1] && !s.free[s.requests[h].d2]
  {
    assert ChainOk(s, h);
    assert DescOk(s, h) && DescOk(s, s.requests[h].d1) && DescOk(s, s.requests[h].d2);
  }
}
