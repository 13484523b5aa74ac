/** The stores of one transaction: which blocks are given to log_write, in which order, and with which
    contents. */
module Stores {
  import opened Blocks
  import opened Counting

  ghost function Numbers(ws: seq<(nat, Block)>): (bs: seq<nat>) {
    seq(|ws|, i requires 0 <= i < |ws| => ws[i].0)
  }

  /** The blocks after the stores. */
  ghost function Applied(d: seq<Block>, ws: seq<(nat, Block)>): (r: seq<Block>)
    ensures |r| == |d|
  {
    if ws == [] then d
    else
      var before, x := Applied(d, ws[..|ws| - 1]), ws[|ws| - 1];
      if x.0 < |d| then before[x.0 := x.1] else before
  }

  lemma AppliedMore(d: seq<Block>, ws: seq<(nat, Block)>, x: (nat, Block))
    requires x.0 < |d|
    ensures Applied(d, ws + [x]) == Applied(d, ws)[x.0 := x.1]
    ensures Elements(Numbers(ws + [x])) == Elements(Numbers(ws)) + {x.0}
  {
    var more := ws + [x];
    assert more[..|more| - 1] == ws;
    assert Numbers(more) == Numbers(ws) + [x.0];
    ElementsMore(Numbers(ws), x.0);
  }

  lemma ElementsMore(s: seq<nat>, x: nat)
    ensures Elements(s + [x]) == Elements(s) + {x}
  {
    assert (s + [x])[|s|] == x;
    forall y | y in Elements(s)
      ensures y in Elements(s + [x])
    {
      var i :| 0 <= i < |s| && s[i] == y;
      assert (s + [x])[i] == y;
    }
  }

  /** How many different blocks the first k stores are to. */
  ghost function Spent(ws: seq<(nat, Block)>, k: nat): (n: nat)
    requires k <= |ws|
  {
    |Elements(Numbers(ws[..k]))|
  }

  lemma AppliedNext(d: seq<Block>, ws: seq<(nat, Block)>, k: nat)
    requires k < |ws| && ws[k].0 < |d|
    ensures Applied(d, ws[..k + 1]) == Applied(d, ws[..k])[ws[k].0 := ws[k].1]
  {
    assert ws[..k + 1] == ws[..k] + [ws[k]];
    AppliedMore(d, ws[..k], ws[k]);
  }

  lemma SpentNext(ws: seq<(nat, Block)>, k: nat)
    requires k < |ws|
    ensures Elements(Numbers(ws[..k + 1])) == Elements(Numbers(ws[..k])) + {ws[k].0}
  {
    assert Numbers(ws[..k + 1]) == Numbers(ws[..k]) + [ws[k].0];
    ElementsMore(Numbers(ws[..k]), ws[k].0);
  }

  /** Before each of the stores fewer different blocks have been written than there are units. */
  ghost predicate Affordable(ws: seq<(nat, Block)>, units: nat) {
    forall k {:trigger Spent(ws, k)} :: 0 <= k < |ws| ==> Spent(ws, k) < units
  }

  /** Stores of which all but the last are to few enough blocks. */
  lemma AffordableBut(ws: seq<(nat, Block)>, units: nat)
    requires ws != [] && Spent(ws, |ws| - 1) < units
    ensures Affordable(ws, units)
  {
    var b := Numbers(ws[..|ws| - 1]);
    forall k | 0 <= k < |ws|
      ensures Spent(ws, k) < units
    {
      var a := Numbers(ws[..k]);
      assert forall i :: 0 <= i < k ==> a[i] == b[i];
      Subset(Elements(a), Elements(b));
    }
  }
}
