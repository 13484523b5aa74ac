/** The doubly linked list through bcache.buf[].prev/next. Buffers are numbered
    0 .. n - 1 and the list head is node n; `order` is the list read from head.next to
    head.prev, most recently released buffer first. */
module Lru {
  import opened Counting

  ghost function Remove(s: seq<nat>, b: nat): (r: seq<nat>)
    ensures forall x :: x in r <==> x in s && x != b
  {
    if |s| == 0 then []
    else if s[0] == b then Remove(s[1..], b)
    else [s[0]] + Remove(s[1..], b)
  }

  lemma {:induction false} RemoveAbsent(s: seq<nat>, b: nat)
    requires b !in s
    ensures Remove(s, b) == s
  {
    if |s| > 0 {
      RemoveAbsent(s[1..], b);
    }
  }

  lemma {:induction false} RemoveAt(s: seq<nat>, k: nat)
    requires Distinct(s) && k < |s|
    ensures Remove(s, s[k]) == s[..k] + s[k + 1..]
  {
    if k == 0 {
      RemoveAbsent(s[1..], s[0]);
      assert s[..0] + s[1..] == s[1..];
    } else {
      RemoveAt(s[1..], k - 1);
      assert s[1..][..k - 1] == s[1..k] && s[1..][k..] == s[k + 1..];
      assert s[..k] + s[k + 1..] == [s[0]] + (s[1..k] + s[k + 1..]);
    }
  }

  /** The nodes met on one round trip from the head to the head. */
  ghost function Cycle(order: seq<nat>, n: nat): (c: seq<nat>) {
    [n] + order + [n]
  }

  /** next leads from each node of c to the one after it, and prev leads back. */
  ghost predicate Linked(prev: seq<nat>, next: seq<nat>, c: seq<nat>) {
    && (forall i :: 0 <= i < |c| ==> c[i] < |prev| == |next|)
    && (forall i :: 0 < i < |c| ==> next[c[i - 1]] == c[i] && prev[c[i]] == c[i - 1])
  }

  lemma CycleOfRemoved(order: seq<nat>, n: nat, k: nat)
    requires k < |order|
    ensures var c := Cycle(order, n);
            Cycle(order[..k] + order[k + 1..], n) == c[..k + 1] + c[k + 2..]
  {
  }

  /** Short-cutting one node of a cycle leaves the other nodes linked. */
  lemma UnlinkOne(prev: seq<nat>, next: seq<nat>, order: seq<nat>, n: nat, k: nat)
    requires Linked(prev, next, Cycle(order, n)) && Distinct(order) && n !in order && k < |order|
    ensures var c := Cycle(order, n);
            Linked(prev[c[k + 2] := c[k]], next[c[k] := c[k + 2]], c[..k + 1] + c[k + 2..])
  {
    var c := Cycle(order, n);
    var p', n', c' := prev[c[k + 2] := c[k]], next[c[k] := c[k + 2]], c[..k + 1] + c[k + 2..];
    forall i | 0 < i < |c'|
      ensures n'[c'[i - 1]] == c'[i] && p'[c'[i]] == c'[i - 1]
    {
      if i <= k {
        assert c'[i - 1] == c[i - 1] && c'[i] == c[i];
      } else if i > k + 1 {
        assert c'[i - 1] == c[i] && c'[i] == c[i + 1];
      }
    }
  }

  class List {
    const n: nat
    const prev: array<nat>
    const next: array<nat>
    ghost var order: seq<nat>

    ghost predicate Valid()
      reads this, prev, next
    {
      && prev != next && prev.Length == next.Length == n + 1
      && (forall i :: 0 <= i < |order| ==> order[i] < n)
      && Distinct(order)
      && Linked(prev[..], next[..], Cycle(order, n))
    }

    /** binit: push the buffers one after the other behind the head. */
    constructor (n: nat)
      ensures this.n == n && Valid() && fresh(prev) && fresh(next)
      ensures order == seq(n, i requires 0 <= i < n => (n - 1 - i) as nat)
    {
      this.n := n;
      prev := new nat[n + 1];
      next := new nat[n + 1];
      order := [];
      new;
      prev[n] := n;
      next[n] := n;
      for b := 0 to n
        invariant Valid() && fresh(prev) && fresh(next)
        invariant order == seq(b, i requires 0 <= i < b => (b - 1 - i) as nat)
      {
        PushFront(b);
      }
    }

    method PushFront(b: nat)
      requires Valid() && b < n && b !in order
      modifies this`order, prev, next
      ensures Valid() && order == [b] + old(order)
    {
      ghost var c := Cycle(order, n);
      assert c[0] == n && next[..][c[0]] == c[1];
      next[b] := next[n];
      prev[b] := n;
      prev[next[n]] := b;
      next[n] := b;
      order := [b] + order;
      assert Cycle(order, n) == [n, b] + c[1..];
    }

    method Unlink(b: nat)
      requires Valid() && b in order
      modifies this`order, prev, next
      ensures Valid() && order == Remove(old(order), b)
    {
      ghost var c := Cycle(order, n);
      ghost var k :| 0 <= k < |order| && order[k] == b;
      ghost var p0, n0 := prev[..], next[..];
      assert c[k + 1] == b;
      assert n0[c[k + 1]] == c[k + 2] && p0[c[k + 2 - 1]] == c[k];
      UnlinkOne(p0, n0, order, n, k);
      CycleOfRemoved(order, n, k);
      RemoveAt(order, k);
      prev[next[b]] := prev[b];
      next[prev[b]] := next[b];
      order := order[..k] + order[k + 1..];
      assert prev[..] == p0[c[k + 2] := c[k]];
      assert next[..] == n0[c[k] := c[k + 2]];
    }

    /** What brelse does to a buffer whose last reference is dropped. */
    method MoveToFront(b: nat)
      requires Valid() && b in order
      modifies this`order, prev, next
      ensures Valid() && order == [b] + Remove(old(order), b)
    {
      Unlink(b);
      PushFront(b);
    }
  }
}
