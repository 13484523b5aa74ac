/** malloc and free of user/umalloc.c. */
module Umalloc {
  import opened Options
  import opened FreeList

  /** No free block that malloc's search has passed, on its way from f to p, is large enough. */
  ghost predicate Passed(s: Heap, f: nat, p: nat, n: nat) {
    forall c {:trigger c in s.free} :: c in s.free && c in s.size && (if p > f then f < c < p else c > f || c < p) ==>
          s.size[c] < n
  }

  ghost predicate AllSmall(s: Heap, n: nat) {
    forall c {:trigger c in s.free} :: c in s.free && c in s.size ==> s.size[c] < n
  }

  lemma PassedNone(s: Heap, f: nat, n: nat)
    requires Ring(s) && f in s.free && Linked(s, f)
    ensures Passed(s, f, s.ptr[f], n)
  {
  }

  lemma PassedNext(s: Heap, f: nat, p: nat, n: nat)
    requires Ring(s) && f in s.free && p in s.free && Linked(s, p) && Passed(s, f, p, n) && s.size[p] < n
    ensures p == f ==> AllSmall(s, n)
    ensures p != f ==> Passed(s, f, s.ptr[p], n)
    ensures p != f ==> if s.ptr[p] > p then (s.ptr[p] > f <==> p > f) else p > f && s.ptr[p] <= f
  {
    if p != f && s.ptr[p] > p {
      assert p < f ==> s.ptr[p] <= f;
    }
  }

  /** The units that a request for nbytes bytes takes: one for the header, and enough for the rest. */
  function Need(nbytes: nat): (n: nat)
    ensures 16 * (n - 1) >= nbytes && n > 0 && 16 * (n - 1) < nbytes + 16
  {
    (nbytes + 15) / 16 + 1
  }

  /** The blocks in use that are still in use keep their size. */
  ghost predicate Kept(s: Heap, t: Heap) {
    forall b {:trigger b in t.live} :: b in s.live && b in t.live ==>
          b in s.size && b in t.size && t.size[b] == s.size[b]
  }

  /** What a successful malloc of n units leaves: a new block in use, made of units that were free. */
  ghost predicate Handed(s: Heap, t: Heap, h: nat, n: nat) {
    && h !in s.live && t.live == s.live + {h} && h in t.size && t.size[h] == n && Kept(s, t) && t.own.Keys == s.own.Keys
  }

  class Allocator {
    const base: nat
    var ptr: map<nat, nat>
    var size: map<nat, nat>
    var freep: Option<nat>
    ghost var free: set<nat>
    ghost var live: set<nat>
    ghost var own: map<nat, nat>

    ghost function Now(): (s: Heap)
      reads this
    {
      Heap(base, ptr, size, free, live, own)
    }

    /** Before the first malloc there is no list and there are no blocks. */
    ghost predicate Valid()
      reads this
    {
      if freep.None? then live == {} && own == map[] && free == {}
      else Inv(Now()) && freep.value in free
    }

    constructor (base: nat)
      ensures Valid() && live == {} && own == map[] && this.base == base
    {
      this.base, ptr, size, freep := base, map[], map[], None;
      free, live, own := {}, {}, map[];
    }

    /** The search of free. */
    method FindPlace(bp: nat) returns (p: nat)
      requires freep.Some? && Valid() && bp in live
      ensures IsPlace(Now(), bp, p)
    {
      ghost var s := Now();
      p := freep.value;
      assert Linked(s, p);
      while GoOn(p, ptr[p], bp)
        invariant p in free && Linked(s, p)
        decreases if p > bp then 1 else 0, |Above(free, p)|
      {
        SearchStep(s, bp, p);
        if ptr[p] > p {
          FewerAbove(s, p);
        }
        p := ptr[p];
        assert Linked(s, p);
      }
      SearchStep(s, bp, p);
    }

    /** free after its search. */
    method Coalesce(bp: nat, p: nat)
      requires p in ptr && p in size && bp in size && ptr[p] in ptr && ptr[p] in size
      modifies this`ptr, this`size, this`freep
      ensures (ptr, size) == Coded(old(Now()), bp, p) && freep == Some(p)
    {
      var q := ptr[p];
      if bp + size[bp] == q {
        size, ptr := size[bp := size[bp] + size[q]], ptr[bp := ptr[q]];
      } else {
        ptr := ptr[bp := q];
      }
      if p + size[p] == bp {
        size, ptr := size[p := size[p] + size[bp]], ptr[p := ptr[bp]];
      } else {
        ptr := ptr[p := bp];
      }
      freep := Some(p);
    }

    /** free of the block with header bp, which has been handed out by malloc. */
    method Free(bp: nat)
      requires freep.Some? && Valid() && bp in live
      modifies this
      ensures Valid() && freep.Some? && Kept(old(Now()), Now()) && live == old(live) - {bp} && own.Keys == old(own).Keys
      ensures IsPlace(old(Now()), bp, freep.value) && Now() == PutBack(old(Now()), bp, freep.value)
    {
      ghost var s := Now();
      var p := FindPlace(bp);
      assert Linked(s, p);
      CodedIsPutBack(s, bp, p);
      PutBackKeeps(s, bp, p);
      Coalesce(bp, p);
      ghost var r := PutBack(s, bp, p);
      free, live, own := r.free, r.live, r.own;
    }

    /** morecore; grant is what sbrk returns, in units, and lies above all that it has returned
        before. */
    method MoreCore(nu: nat, grant: Option<nat>) returns (r: Option<nat>)
      requires freep.Some? && Valid() && nu > 0
      requires grant.Some? ==> base < grant.value && forall u {:trigger u in own} :: u in own ==> u < grant.value
      modifies this
      ensures Valid() && r == (if grant.None? then None else freep) && freep.Some? && Kept(old(Now()), Now())
      ensures r.None? ==> Now() == old(Now())
      ensures r.Some? ==> live == old(live) && !AllSmall(Now(), nu)
                          && own.Keys == old(own).Keys + Units(grant.value, if nu < 4096 then 4096 else nu)
    {
      if grant.None? {
        return None;
      }
      var n, hp := if nu < 4096 then 4096 else nu, grant.value;
      ghost var s := Now();
      ExtendOk(s, hp, n);
      size := size[hp := n];
      ghost var e := Extend(s, hp, n);
      live, own := e.live, e.own;
      Free(hp);
      PutBackFits(e, hp, freep.value);
      return freep;
    }

    /** A free block that is large enough is handed out, whole or the tail of it. */
    method Hand(prevp: nat, p: nat, n: nat) returns (h: nat)
      requires freep.Some? && Valid() && prevp in free && p in free && p in size && n > 0 && size[p] >= n
      requires prevp in ptr && ptr[prevp] == p
      modifies this
      ensures Valid() && freep == Some(prevp) && Handed(old(Now()), Now(), h, n)
    {
      ghost var s := Now();
      assert Linked(s, prevp) && Linked(s, p);
      h := p;
      if size[p] == n {
        RemoveOk(s, prevp, p);
        ptr := ptr[prevp := ptr[p]];
        free, live := free - {p}, live + {p};
      } else {
        SplitOk(s, p, n);
        SplitFresh(s, p, n);
        ghost var t := Split(s, p, n);
        size := size[p := size[p] - n];
        h := p + size[p];
        size := size[h := n];
        live, own := t.live, t.own;
        assert Now() == t;
      }
      freep := Some(prevp);
    }

    /** The first call of malloc makes the list that consists of base. */
    method Begin()
      requires Valid()
      modifies this
      ensures Valid() && freep.Some? && live == old(live) && own == old(own) && Kept(old(Now()), Now())
      ensures old(freep).Some? ==> Now() == old(Now()) && freep == old(freep)
    {
      if freep.None? {
        ptr, size, freep := ptr[base := base], size[base := 0], Some(base);
        free := {base};
        assert Linked(Now(), base);
      }
    }

    /** malloc; the result is the header of the block, None the null pointer. grant is what sbrk
        returns if it is called, which is just when no free block is large enough; its argument is an int. */
    method Malloc(nbytes: nat, grant: Option<nat>) returns (r: Option<nat>)
      requires Valid() && 16 * Need(nbytes) <= 0x7FFF_FFFF
      requires grant.Some? ==> base < grant.value && forall u {:trigger u in own} :: u in own ==> u < grant.value
      modifies this
      ensures Valid() && freep.Some?
      ensures r.None? ==> grant.None? && AllSmall(Now(), Need(nbytes)) && live == old(live) && own.Keys == old(own).Keys
      ensures r.Some? ==>
                && r.value !in old(live) && live == old(live) + {r.value} && Kept(old(Now()), Now())
                && r.value in size && size[r.value] == Need(nbytes)
      ensures own.Keys == old(own).Keys ||
              (grant.Some? && AllSmall(old(Now()), Need(nbytes)) &&
               own.Keys == old(own).Keys + Units(grant.value, if Need(nbytes) < 4096 then 4096 else Need(nbytes)))
    {
      var n := (nbytes + 16 - 1) / 16 + 1;
      Begin();
      ghost var s := Now();
      var prevp, grown := freep.value, false;
      assert Linked(s, prevp);
      PassedNone(s, prevp, n);
      var p := ptr[prevp];
      while true
        invariant Valid() && freep.Some? && prevp in free && p in free && Linked(Now(), prevp) && ptr[prevp] == p
        invariant Passed(Now(), freep.value, p, n)
        invariant live == old(live) && Kept(old(Now()), Now())
        invariant if grown then grant.Some? && AllSmall(s, n) && !AllSmall(Now(), n)
                                && own.Keys == old(own).Keys + Units(grant.value, if n < 4096 then 4096 else n)
                  else Now() == s && own == old(own)
        decreases if grown then 0 else 1, if p > freep.value then 1 else 0, |Above(free, p)|
      {
        if size[p] >= n {
          var h := Hand(prevp, p, n);
          return Some(h);
        }
        assert Linked(Now(), p);
        PassedNext(Now(), freep.value, p, n);
        if p == freep.value {
          var q := MoreCore(n, grant);
          if q.None? {
            return None;
          }
          p, grown := q.value, true;
          assert Linked(Now(), p);
          PassedNone(Now(), p, n);
        } else if ptr[p] > p {
          FewerAbove(Now(), p);
        }
        prevp, p := p, ptr[p];
      }
    }
  }
}
