/** The circular, address-ordered free list of Kernighan and Ritchie's allocator. Addresses and
    sizes count units of one header. */
module FreeList {
  import opened Counting

  /** The links and sizes in the headers; and a ledger: the addresses on the free list, those of
      the blocks handed out, and the block that each unit obtained from sbrk is in. */
  datatype Heap = Heap(base: nat, ptr: map<nat, nat>, size: map<nat, nat>,
                       free: set<nat>, live: set<nat>, own: map<nat, nat>)

  /** No address on the list lies strictly between a and b. */
  ghost predicate NoneBetween(free: set<nat>, a: nat, b: nat) {
    forall c {:trigger c in free} :: c in free ==> !(a < c < b)
  }

  ghost predicate NoneAbove(free: set<nat>, a: nat) {
    forall c {:trigger c in free} :: c in free ==> c <= a
  }

  /** The link from a leads to the next address on the list, or from the last one to base. */
  ghost predicate Linked(s: Heap, a: nat) {
    && a in s.ptr && s.ptr[a] in s.free
    && (if s.ptr[a] > a then NoneBetween(s.free, a, s.ptr[a]) else s.ptr[a] == s.base && NoneAbove(s.free, a))
  }

  /** The list is one cycle through base, in address order with a single wrap. */
  ghost predicate Ring(s: Heap) {
    && s.base in s.free && s.base in s.size && s.size[s.base] == 0
    && (forall a {:trigger a in s.free} :: a in s.free ==>
          s.base <= a && a in s.size && (a != s.base ==> s.size[a] > 0))
    && (forall a {:trigger s.ptr[a]} {:trigger Linked(s, a)} :: a in s.free ==> Linked(s, a))
  }

  ghost predicate IsBlock(s: Heap, b: nat) {
    b in s.size && b != s.base && (b in s.live || b in s.free)
  }

  /** Blocks in use have a size and are not on the list. */
  ghost predicate LiveOk(s: Heap) {
    forall b {:trigger b in s.live} :: b in s.live ==> b in s.size && s.size[b] > 0 && b !in s.free && s.base < b
  }

  ghost predicate InBlock(s: Heap, u: nat, b: nat) {
    IsBlock(s, b) && b <= u < b + s.size[b]
  }

  /** Every unit is in exactly one block. */
  ghost predicate Owned(s: Heap) {
    && (forall b: nat, u: nat {:trigger InBlock(s, u, b)} :: InBlock(s, u, b) ==> u in s.own && s.own[u] == b)
    && (forall u {:trigger s.own[u]} {:trigger u in s.own} :: u in s.own ==> InBlock(s, u, s.own[u]))
  }

  /** A free block is followed immediately by another. */
  ghost predicate Touch(s: Heap, a: nat) {
    a in s.free && a != s.base && a in s.size && a + s.size[a] in s.free
  }

  /** All but that no two free blocks touch. */
  ghost predicate Sound(s: Heap) {
    Ring(s) && LiveOk(s) && Owned(s)
  }

  ghost predicate Inv(s: Heap) {
    Sound(s) && forall a {:trigger Touch(s, a)} :: !Touch(s, a)
  }

  /** Different blocks have no unit in common. */
  lemma BlocksDisjoint(s: Heap, a: nat, b: nat, u: nat)
    requires Inv(s) && InBlock(s, u, a) && InBlock(s, u, b)
    ensures a == b
  {
  }

  // ---------- putting a block on the list ----------

  /** p is the address on the list after which bp belongs. */
  ghost predicate IsPlace(s: Heap, bp: nat, p: nat) {
    p in s.free && p < bp && NoneBetween(s.free, p, bp + 1)
  }

  /** Block bp, in use until now, is put on the list after p. */
  ghost function Insert(s: Heap, bp: nat, p: nat): (r: Heap)
    requires p in s.ptr
  {
    s.(ptr := s.ptr[bp := s.ptr[p]][p := bp], free := s.free + {bp}, live := s.live - {bp})
  }

  lemma InsertLinked(s: Heap, bp: nat, p: nat, a: nat)
    requires Ring(s) && s.base < bp && bp !in s.free && IsPlace(s, bp, p) && Linked(s, p) && a in s.free + {bp}
    ensures Linked(Insert(s, bp, p), a)
  {
    var r := Insert(s, bp, p);
    assert r.free == s.free + {bp} && bp in r.free;
    if a != bp && a != p {
      assert Linked(s, a) && r.ptr[a] == s.ptr[a];
      if s.ptr[a] > a {
        forall c | c in r.free
          ensures !(a < c < s.ptr[a])
        {
          assert c == bp ==> (a < p ==> s.ptr[a] <= p) && (p < a ==> bp < a);
        }
      }
    }
  }

  lemma InsertRing(s: Heap, bp: nat, p: nat)
    requires Ring(s) && s.base < bp && bp !in s.free && bp in s.size && s.size[bp] > 0 && IsPlace(s, bp, p)
    ensures Linked(s, p) && Ring(Insert(s, bp, p)) == true
  {
    assert Linked(s, p);
    InsertSizes(s, bp, p);
    var r := Insert(s, bp, p);
    forall a | a in r.free
      ensures Linked(r, a)
    {
      InsertLinked(s, bp, p, a);
    }
  }

  lemma InsertSizes(s: Heap, bp: nat, p: nat)
    requires Ring(s) && s.base < bp && bp in s.size && s.size[bp] > 0 && p in s.ptr
    ensures forall a {:trigger a in s.free + {bp}} :: a in s.free + {bp} ==>
              s.base <= a && a in s.size && (a != s.base ==> s.size[a] > 0)
  {
  }

  lemma InsertTouches(s: Heap, bp: nat, p: nat, a: nat)
    requires Inv(s) && bp in s.live && IsPlace(s, bp, p) && Linked(s, p) && Touch(Insert(s, bp, p), a)
    ensures a == bp || a == p
  {
    if a != bp && a != p {
      TouchesAtPlace(s, bp, p, a);
    }
  }

  lemma InsertOk(s: Heap, bp: nat, p: nat)
    requires Inv(s) && bp in s.live && IsPlace(s, bp, p)
    ensures Linked(s, p) && Sound(Insert(s, bp, p))
    ensures forall a {:trigger Touch(Insert(s, bp, p), a)} :: Touch(Insert(s, bp, p), a) ==> a == bp || a == p
  {
    InsertRing(s, bp, p);
    var r := Insert(s, bp, p);
    InsertOwned(s, r, bp);
    forall a | Touch(r, a)
      ensures a == bp || a == p
    {
      InsertTouches(s, bp, p, a);
    }
  }

  lemma InsertOwned(s: Heap, r: Heap, bp: nat)
    requires LiveOk(s) && Owned(s) && bp in s.live && r.base == s.base && r.size == s.size && r.own == s.own
    requires r.free == s.free + {bp} && r.live == s.live - {bp}
    ensures LiveOk(r) && Owned(r)
  {
    forall b: nat, u: nat | InBlock(r, u, b)
      ensures u in r.own && r.own[u] == b
    {
      assert InBlock(s, u, b);
    }
    forall u | u in r.own
      ensures InBlock(r, u, r.own[u])
    {
      assert InBlock(s, u, s.own[u]);
    }
  }

  /** Only the block before bp can reach it. */
  lemma TouchesAtPlace(s: Heap, bp: nat, p: nat, a: nat)
    requires Inv(s) && bp in s.live && IsPlace(s, bp, p) && a in s.free && a != p && a != s.base
    ensures a + s.size[a] !in s.free + {bp}
  {
    assert !Touch(s, a);
    if a + s.size[a] == bp {
      assert InBlock(s, p, p) || p == s.base;
      assert a < p;
      assert InBlock(s, p, a);
    }
  }

  /** The free blocks a and, right after it, c become one. */
  ghost function Join(s: Heap, a: nat, c: nat): (r: Heap)
    requires a in s.size && c in s.size && c in s.ptr
  {
    s.(ptr := s.ptr[a := s.ptr[c]], size := s.size[a := s.size[a] + s.size[c]], free := s.free - {c},
       own := map u | u in s.own :: if s.own[u] == c then a else s.own[u])
  }

  lemma JoinRing(s: Heap, a: nat, c: nat)
    requires Sound(s) && Touch(s, a) && c == a + s.size[a]
    ensures Linked(s, a) && s.ptr[a] == c && Linked(s, c) && Ring(Join(s, a, c))
  {
    assert Linked(s, a) && Linked(s, c);
    NoneInside(s, a);
    var r := Join(s, a, c);
    forall b | b in r.free
      ensures Linked(r, b)
    {
      JoinLinked(s, a, c, b);
    }
  }

  lemma JoinLinked(s: Heap, a: nat, c: nat, b: nat)
    requires Ring(s) && a in s.free && c in s.free && Linked(s, a) && s.ptr[a] == c && a < c && Linked(s, c)
    requires b in s.free && b != c
    ensures Linked(Join(s, a, c), b)
  {
    assert Linked(s, b);
  }

  /** No address on the list is inside a block. */
  lemma NoneInside(s: Heap, a: nat)
    requires Sound(s) && IsBlock(s, a)
    ensures NoneBetween(s.free, a, a + s.size[a])
  {
    forall c | c in s.free
      ensures !(a < c < a + s.size[a])
    {
      if a < c < a + s.size[a] && c != s.base {
        assert InBlock(s, c, c) && InBlock(s, c, a);
      }
    }
  }

  lemma JoinOwned(s: Heap, a: nat, c: nat)
    requires Sound(s) && Touch(s, a) && c == a + s.size[a] && c in s.ptr
    ensures LiveOk(Join(s, a, c)) && Owned(Join(s, a, c))
  {
    var r := Join(s, a, c);
    forall u: nat, b: nat | InBlock(r, u, b)
      ensures u in r.own && r.own[u] == b
    {
      assert if b != a then InBlock(s, u, b) else InBlock(s, u, a) || InBlock(s, u, c);
    }
    forall u | u in r.own
      ensures InBlock(r, u, r.own[u])
    {
      assert InBlock(s, u, s.own[u]);
    }
  }

  /** Joining two blocks leaves what touched the first from below, or the second from above. */
  lemma JoinOk(s: Heap, a: nat, c: nat)
    requires Sound(s) && Touch(s, a) && c == a + s.size[a]
    ensures c in s.ptr && Sound(Join(s, a, c))
    ensures forall b {:trigger Touch(Join(s, a, c), b)} :: Touch(Join(s, a, c), b) ==> Touch(s, if b == a then c else b)
  {
    JoinRing(s, a, c);
    JoinOwned(s, a, c);
  }

  /** The list with bp put on it after p, and joined to its neighbours where they touch. */
  ghost function PutBack(s: Heap, bp: nat, p: nat): (r: Heap)
    requires Inv(s) && bp in s.live && IsPlace(s, bp, p)
    ensures Inv(r)
  {
    InsertOk(s, bp, p);
    var t := Insert(s, bp, p);
    var u := if Touch(t, bp) then (JoinOk(t, bp, bp + t.size[bp]); Join(t, bp, bp + t.size[bp])) else t;
    NoTouch(s, t, u, bp, p);
    if Touch(u, p) then (JoinOk(u, p, bp); Join(u, p, bp)) else u
  }

  lemma NoTouch(s: Heap, t: Heap, u: Heap, bp: nat, p: nat)
    requires Inv(s) && bp in s.live && IsPlace(s, bp, p) && Linked(s, p) && t == Insert(s, bp, p) && Sound(t)
    requires forall a {:trigger Touch(t, a)} :: Touch(t, a) ==> a == bp || a == p
    requires if Touch(t, bp) then bp + t.size[bp] in t.ptr && u == Join(t, bp, bp + t.size[bp]) && Sound(u)
                                  && forall b {:trigger Touch(u, b)} :: Touch(u, b) ==>
                                        Touch(t, if b == bp then bp + t.size[bp] else b)
             else u == t
    ensures Sound(u) && forall a {:trigger Touch(u, a)} :: Touch(u, a) ==> a == p && p + u.size[p] == bp
  {
    assert !Touch(s, p) && u.size[p] == s.size[p];
    assert Touch(t, bp) ==> !Touch(t, bp + t.size[bp]);
  }

  // ---------- taking a block off the list ----------

  /** Block p, which follows q, is handed out whole. */
  ghost function Remove(s: Heap, q: nat, p: nat): (r: Heap)
    requires p in s.ptr
  {
    s.(ptr := s.ptr[q := s.ptr[p]], free := s.free - {p}, live := s.live + {p})
  }

  lemma RemoveLinked(s: Heap, q: nat, p: nat, b: nat)
    requires Ring(s) && q in s.free && p in s.free && p != s.base && Linked(s, q) && s.ptr[q] == p && Linked(s, p)
    requires b in s.free && b != p
    ensures Linked(Remove(s, q, p), b)
  {
    assert Linked(s, b);
  }

  lemma RemoveRing(s: Heap, q: nat, p: nat)
    requires Ring(s) && q in s.free && p in s.free && p != s.base && Linked(s, q) && s.ptr[q] == p
    ensures Linked(s, p) && Ring(Remove(s, q, p))
  {
    assert Linked(s, p);
    var r := Remove(s, q, p);
    forall b | b in r.free
      ensures Linked(r, b)
    {
      RemoveLinked(s, q, p, b);
    }
  }

  lemma RemoveOk(s: Heap, q: nat, p: nat)
    requires Inv(s) && q in s.free && p in s.free && p != s.base && Linked(s, q) && s.ptr[q] == p
    ensures Linked(s, p) && Inv(Remove(s, q, p))
  {
    RemoveRing(s, q, p);
    var r := Remove(s, q, p);
    forall b: nat, u: nat | InBlock(r, u, b)
      ensures u in r.own && r.own[u] == b
    {
      assert InBlock(s, u, b);
    }
    forall u | u in r.own
      ensures InBlock(r, u, r.own[u])
    {
      assert InBlock(s, u, s.own[u]);
    }
    forall a
      ensures !Touch(r, a)
    {
      assert !Touch(s, a);
    }
  }

  /** The last n units of block p are handed out. */
  ghost function Split(s: Heap, p: nat, n: nat): (r: Heap)
    requires p in s.size && n < s.size[p]
  {
    var a := p + (s.size[p] - n);
    s.(size := s.size[p := s.size[p] - n][a := n], live := s.live + {a},
       own := map u | u in s.own :: if s.own[u] == p && u >= a then a else s.own[u])
  }

  /** The address of the new block is inside the old one, so it is nobody else's. */
  lemma SplitFresh(s: Heap, p: nat, n: nat)
    requires Inv(s) && p in s.free && p != s.base && 0 < n < s.size[p]
    ensures var a := p + (s.size[p] - n); a !in s.free && a !in s.live
  {
    var a := p + (s.size[p] - n);
    assert InBlock(s, a, p);
    assert a in s.free || a in s.live ==> InBlock(s, a, a);
  }

  lemma SplitOwned(s: Heap, p: nat, n: nat)
    requires Inv(s) && p in s.free && p != s.base && 0 < n < s.size[p]
    ensures LiveOk(Split(s, p, n)) && Owned(Split(s, p, n))
  {
    SplitFresh(s, p, n);
    var r, a := Split(s, p, n), p + (s.size[p] - n);
    forall b: nat, u: nat | InBlock(r, u, b)
      ensures u in r.own && r.own[u] == b
    {
      assert if b == a then InBlock(s, u, p) else InBlock(s, u, b);
    }
    forall u | u in r.own
      ensures InBlock(r, u, r.own[u])
    {
      assert InBlock(s, u, s.own[u]);
    }
  }

  /** Sizes of free blocks may change where the links do not. */
  lemma SameLinks(s: Heap, r: Heap)
    requires Ring(s) && r.base == s.base && r.free == s.free && r.ptr == s.ptr && r.base in r.size &&
              r.size[r.base] == 0
    requires forall a {:trigger a in r.free} :: a in r.free ==> a in r.size && (a != s.base ==> r.size[a] > 0)
    ensures Ring(r)
  {
    forall a | a in r.free
      ensures Linked(r, a)
    {
      assert Linked(s, a);
    }
  }

  lemma SplitTouches(s: Heap, p: nat, n: nat, b: nat)
    requires Inv(s) && p in s.free && p != s.base && 0 < n < s.size[p]
    ensures !Touch(Split(s, p, n), b)
  {
    SplitFresh(s, p, n);
    assert !Touch(s, b);
  }

  lemma SplitOk(s: Heap, p: nat, n: nat)
    requires Inv(s) && p in s.free && p != s.base && 0 < n < s.size[p]
    ensures Inv(Split(s, p, n))
  {
    var r := Split(s, p, n);
    SplitFresh(s, p, n);
    SplitOwned(s, p, n);
    SameLinks(s, r);
    forall b
      ensures !Touch(r, b)
    {
      SplitTouches(s, p, n, b);
    }
  }

  /** nu units from hp on, just obtained from sbrk, as a block in use. */
  ghost function Extend(s: Heap, hp: nat, nu: nat): (r: Heap) {
    s.(size := s.size[hp := nu], live := s.live + {hp},
       own := map u | u in s.own.Keys + Units(hp, nu) :: if u in s.own then s.own[u] else hp)
  }

  ghost function Units(hp: nat, nu: nat): (r: set<nat>)
    ensures forall u: nat {:trigger u in r} :: u in r <==> hp <= u < hp + nu
  {
    if nu == 0 then {} else Units(hp, nu - 1) + {hp + nu - 1}
  }

  lemma ExtendOk(s: Heap, hp: nat, nu: nat)
    requires Inv(s) && nu > 0 && s.base < hp && forall u {:trigger u in s.own} :: u in s.own ==> u < hp
    ensures hp !in s.free && hp !in s.live && Inv(Extend(s, hp, nu))
  {
    var r := Extend(s, hp, nu);
    assert hp in s.free || hp in s.live ==> InBlock(s, hp, hp);
    forall b: nat, u: nat | InBlock(r, u, b)
      ensures u in r.own && r.own[u] == b
    {
      assert b != hp ==> InBlock(s, u, b);
    }
    forall u | u in r.own
      ensures InBlock(r, u, r.own[u])
    {
      assert u in s.own ==> InBlock(s, u, s.own[u]);
    }
    SameLinks(s, r);
    forall b
      ensures !Touch(r, b)
    {
      assert !Touch(s, b);
    }
  }

  // ---------- what the code tests ----------

  /** The test on which free's search goes on from p, whose link leads to q. */
  predicate GoOn(p: nat, q: nat, bp: nat) {
    !(bp > p && bp < q) && !(p >= q && (bp > p || bp < q))
  }

  ghost function Above(free: set<nat>, p: nat): (r: set<nat>) {
    set c | c in free && c > p
  }

  lemma FewerAbove(s: Heap, p: nat)
    requires Ring(s) && p in s.free && Linked(s, p) && s.ptr[p] > p
    ensures |Above(s.free, s.ptr[p])| < |Above(s.free, p)|
  {
    var a, b := Above(s.free, s.ptr[p]), Above(s.free, p);
    assert a <= b && s.ptr[p] in b && s.ptr[p] !in a;
    Subset(a, b);
  }

  /** free's search stops at the place of bp, and each link brings it nearer: up to the wrap
      if it starts above bp, and then from base up to bp. */
  lemma SearchStep(s: Heap, bp: nat, p: nat)
    requires Ring(s) && s.base < bp && bp !in s.free && p in s.free && Linked(s, p)
    ensures !GoOn(p, s.ptr[p], bp) ==> IsPlace(s, bp, p)
    ensures GoOn(p, s.ptr[p], bp) ==>
              if s.ptr[p] > p then (s.ptr[p] > bp <==> p > bp) else p > bp && s.ptr[p] < bp
  {
  }

  /** The block after bp touches it just when bp reaches the next address on the list. */
  lemma TouchUp(s: Heap, bp: nat, p: nat)
    requires Inv(s) && bp in s.live && IsPlace(s, bp, p) && Linked(s, p)
    ensures Touch(Insert(s, bp, p), bp) <==> bp + s.size[bp] == s.ptr[p]
  {
    NoneInside(s, bp);
    assert bp !in s.free;
  }

  /** free as the code does it, from the place p on. */
  ghost function Coded(s: Heap, bp: nat, p: nat): (r: (map<nat, nat>, map<nat, nat>))
    requires p in s.ptr && bp in s.size && p in s.size && s.ptr[p] in s.ptr && s.ptr[p] in s.size
  {
    var q := s.ptr[p];
    var size1 := if bp + s.size[bp] == q then s.size[bp := s.size[bp] + s.size[q]] else s.size;
    var ptr1 := if bp + s.size[bp] == q then s.ptr[bp := s.ptr[q]] else s.ptr[bp := q];
    if p + size1[p] == bp then (ptr1[p := ptr1[bp]], size1[p := size1[p] + size1[bp]])
    else (ptr1[p := bp], size1)
  }

  lemma CodedIsPutBack(s: Heap, bp: nat, p: nat)
    requires Inv(s) && bp in s.live && IsPlace(s, bp, p) && Linked(s, p)
    ensures Linked(s, s.ptr[p]) && Coded(s, bp, p) == (PutBack(s, bp, p).ptr, PutBack(s, bp, p).size)
  {
    assert Linked(s, s.ptr[p]);
    TouchUp(s, bp, p);
    InsertOk(s, bp, p);
    var t, q := Insert(s, bp, p), s.ptr[p];
    var u := if Touch(t, bp) then (JoinOk(t, bp, q); Join(t, bp, q)) else t;
    assert u.size[p] == s.size[p] && bp in u.free && p in u.free;
    assert Touch(u, p) <==> p + s.size[p] == bp by {
      NoTouch(s, t, u, bp, p);
    }
    var r, c := PutBack(s, bp, p), Coded(s, bp, p);
    assert c.0 == r.ptr && c.1 == r.size;
  }

  /** Wherever bp ends up, there is a free block of at least its size. */
  lemma PutBackFits(s: Heap, bp: nat, p: nat)
    requires Inv(s) && bp in s.live && IsPlace(s, bp, p)
    ensures exists a :: a in PutBack(s, bp, p).free && a in PutBack(s, bp, p).size &&
              PutBack(s, bp, p).size[a] >= s.size[bp]
  {
    InsertOk(s, bp, p);
    var r := PutBack(s, bp, p);
    assert bp in r.free || p in r.free;
    assert (bp in r.free && r.size[bp] >= s.size[bp]) || (p in r.free && r.size[p] >= s.size[bp]);
  }

  /** What free leaves alone: the units there are, and the blocks in use. */
  lemma PutBackKeeps(s: Heap, bp: nat, p: nat)
    requires Inv(s) && bp in s.live && IsPlace(s, bp, p)
    ensures var r := PutBack(s, bp, p);
            && r.own.Keys == s.own.Keys && r.live == s.live - {bp} && r.base == s.base
            && forall b {:trigger b in r.live} :: b in r.live ==> b in r.size && r.size[b] == s.size[b]
  {
    InsertOk(s, bp, p);
  }
}
