/** The inode layer of fs.c, on the block array that the log presents: block allocation, the
    block map, and reading, writing and truncating files. A predicate is compared with `true` where
    it is only passed on, here and in other modules: the verifier then does not take it apart. */
module Fs {
  import opened Options
  import opened Blocks
  import opened Counting
  import opened FsDisk
  import opened Stores
  import opened FsTree

  /** The indirect block of a file, if it has one. */
  ghost function IndirectOf(x: Inode): (r: set<nat>)
    requires |x.addrs| == NDIRECT + 1
  {
    if x.addrs[NDIRECT] == 0 then {} else {x.addrs[NDIRECT]}
  }

  /** An indirect block, once there, stays. */
  ghost predicate SameIndirect(before: Inode, after: Inode) {
    && |before.addrs| == |after.addrs| == NDIRECT + 1
    && (before.addrs[NDIRECT] != 0 ==> after.addrs[NDIRECT] == before.addrs[NDIRECT])
  }

  lemma SameRow(b: nat, bi: nat)
    requires b % 8192 == 0 && bi < 8192
    ensures (b + bi) % 8192 == bi && (b + bi) / 8192 == b / 8192
  {
  }

  /** The blocks bmap logs on behalf of the indirect block. */
  ghost function IndirectLog(sb: Superblock, bn: nat, before: Inode, after: Inode): (r: set<nat>)
    requires |before.addrs| == |after.addrs| == NDIRECT + 1
  {
    if bn < NDIRECT then {}
    else IndirectOf(after) + (if before.addrs[NDIRECT] == 0 then {BBlock(sb, after.addrs[NDIRECT])} else {})
  }

  /** m bytes of file i from pos on, all within one block. */
  lemma ReadBlock(sb: Superblock, s: State, i: nat, pos: nat, m: nat, a: nat)
    requires Good(sb, s) && i < sb.ninodes && s.inodes[i].size <= MAXBYTES
    requires pos + m <= s.inodes[i].size && pos % 1024 + m <= 1024 && pos / 1024 < MAXFILE && m > 0
    requires a == Addr(sb, s, i, Slot(pos / 1024)) && 0 < a < sb.size
    ensures s.blocks[a][pos % 1024..pos % 1024 + m] == Contents(sb, s, i)[pos..pos + m]
  {
    var p := pos % 1024;
    var x, y := s.blocks[a][p..p + m], Contents(sb, s, i)[pos..pos + m];
    forall k | 0 <= k < m
      ensures x[k] == y[k]
    {
      assert (pos + k) / 1024 == pos / 1024 && (pos + k) % 1024 == p + k;
    }
  }

  lemma SliceJoin(c: seq<Byte>, a: nat, b: nat, d: nat)
    requires a <= b <= d <= |c|
    ensures c[a..b] + c[b..d] == c[a..d]
  {
  }

  /** The length of one round of readi and writei: up to the end of the block. */
  function Round(pos: nat, left: nat): (m: nat)
    ensures left > 0 ==> 0 < m <= left && pos % 1024 + m <= 1024
  {
    if left < 1024 - pos % 1024 then left else 1024 - pos % 1024
  }

  lemma RoundEnds(off: nat, tot: nat, n: nat, pos: nat, m: nat)
    requires tot < n && pos == off + tot && m == Round(pos, n - tot)
    ensures 0 < tot + m < n ==> (off + (tot + m)) % 1024 == 0
  {
    assert (pos + (1024 - pos % 1024)) % 1024 == 0;
  }

  lemma BlockThere(sb: Superblock, s: State, i: nat, pos: nat)
    requires Good(sb, s) && Filled(sb, s) && i < sb.ninodes && pos < s.inodes[i].size
    ensures pos / 1024 < MAXFILE && Addr(sb, s, i, Slot(pos / 1024)) != 0
  {
  }

  /** data has been written over file i from pos on, and nothing else shows. */
  ghost predicate Stored(sb: Superblock, s: State, t: State, i: nat, pos: nat, data: seq<Byte>)
    requires Good(sb, s) && Good(sb, t) && i < sb.ninodes && pos + |data| <= MAXBYTES
  {
    && (forall j: nat, o: nat {:trigger Peek(sb, t, j, o)} :: j < sb.ninodes && o < MAXBYTES ==>
          Peek(sb, t, j, o) == if j == i && pos <= o < pos + |data| then data[o - pos] else Peek(sb, s, j, o))
    && SameSizes(s, t)
    && (forall j: nat, k: nat {:trigger Addr(sb, t, j, k)} ::
          j < sb.ninodes && k < SLOTS && (j != i || Addr(sb, s, j, k) != 0) ==>
          Addr(sb, t, j, k) == Addr(sb, s, j, k))
    && (|data| > 0 ==> forall bn: nat :: pos / 1024 <= bn <= (pos + |data| - 1) / 1024 && bn < MAXFILE ==>
          Addr(sb, t, i, Slot(bn)) != 0)
    && (forall j: nat :: j < sb.ninodes && j != i && Synced(sb, s, j) ==> Synced(sb, t, j))
  }

  lemma WithinBlock(pos: nat, n: nat, o: nat)
    requires 0 < n && pos % 1024 + n <= 1024
    ensures pos <= o < pos + n <==> o / 1024 == pos / 1024 && pos % 1024 <= o % 1024 < pos % 1024 + n
    ensures o / 1024 == pos / 1024 ==> o % 1024 - pos % 1024 == o - pos
    ensures (pos + n - 1) / 1024 == pos / 1024
  {
  }

  lemma ChunkByte(sb: Superblock, t: State, u: State, i: nat, pos: nat, data: seq<Byte>, y: Block, j: nat, o: nat)
    requires Good(sb, t) && Good(sb, u) && i < sb.ninodes && j < sb.ninodes && o < MAXBYTES
    requires 0 < |data| && pos % 1024 + |data| <= 1024 && pos + |data| <= MAXBYTES
    requires 0 < Addr(sb, t, i, Slot(pos / 1024)) < sb.size
    requires y == Splice(t.blocks[Addr(sb, t, i, Slot(pos / 1024))], pos % 1024, data)
    requires Peek(sb, u, j, o) == if j == i && o / 1024 == pos / 1024 then y[o % 1024] else Peek(sb, t, j, o)
    ensures Peek(sb, u, j, o) == if j == i && pos <= o < pos + |data| then data[o - pos] else Peek(sb, t, j, o)
  {
    WithinBlock(pos, |data|, o);
  }

  /** bmap followed by the store of y, the old block with data in it. */
  lemma ChunkStored(sb: Superblock, s: State, t: State, u: State, i: nat, pos: nat, data: seq<Byte>, y: Block)
    requires Good(sb, s) && Good(sb, t) && Good(sb, u) && i < sb.ninodes
    requires 0 < |data| && pos % 1024 + |data| <= 1024 && pos + |data| <= MAXBYTES
    requires Kept(sb, s, t, i) && SameSizes(t, u) && 0 < Addr(sb, t, i, Slot(pos / 1024)) < sb.size
    requires y == Splice(t.blocks[Addr(sb, t, i, Slot(pos / 1024))], pos % 1024, data)
    requires forall j: nat, k: nat {:trigger Addr(sb, u, j, k)} ::
               j < sb.ninodes && k < SLOTS ==> Addr(sb, u, j, k) == Addr(sb, t, j, k)
    requires forall j: nat :: j < sb.ninodes && Synced(sb, t, j) ==> Synced(sb, u, j)
    requires forall j: nat, o: nat {:trigger Peek(sb, u, j, o)} :: j < sb.ninodes && o < MAXBYTES ==>
               Peek(sb, u, j, o) == if j == i && o / 1024 == pos / 1024 then y[o % 1024] else Peek(sb, t, j, o)
    ensures Stored(sb, s, u, i, pos, data)
  {
    forall j: nat, o: nat | j < sb.ninodes && o < MAXBYTES
      ensures Peek(sb, u, j, o) == if j == i && pos <= o < pos + |data| then data[o - pos] else Peek(sb, s, j, o)
    {
      ChunkByte(sb, t, u, i, pos, data, y, j, o);
      assert Peek(sb, t, j, o) == Peek(sb, s, j, o);
    }
    WithinBlock(pos, |data|, pos);
    assert Addr(sb, u, i, Slot(pos / 1024)) != 0;
    assert forall bn: nat :: pos / 1024 <= bn <= (pos + |data| - 1) / 1024 && bn < MAXFILE ==>
        Addr(sb, u, i, Slot(bn)) != 0;
    assert forall j: nat :: j < sb.ninodes && j != i && Synced(sb, s, j) ==> Synced(sb, t, j);
  }

  /** The number of logged blocks, the indirect block of the file being written apart. */
  ghost function Weight(logged: set<nat>, x: Inode): (w: nat)
    requires |x.addrs| == NDIRECT + 1
  {
    |logged - IndirectOf(x)|
  }

  /** What one round of writei adds to the log. */
  lemma ChunkWeight(sb: Superblock, l0: set<nat>, l1: set<nat>, l2: set<nat>, a: nat, bn: nat,
                    x0: Inode, x2: Inode, missing: bool)
    requires |x0.addrs| == |x2.addrs| == NDIRECT + 1
    requires x0.addrs[NDIRECT] != 0 ==> x0.addrs[NDIRECT] == x2.addrs[NDIRECT]
    requires l1 == if missing then l0 + {BBlock(sb, a), a} + IndirectLog(sb, bn, x0, x2) else l0
    requires l2 == l1 + {a} && (!missing || bn < NDIRECT ==> x0.addrs[NDIRECT] == x2.addrs[NDIRECT])
    requires missing && bn >= NDIRECT ==> x2.addrs[NDIRECT] != 0
    ensures Weight(l2, x2) <= Weight(l0, x0) + 1 + (if missing then 1 else 0)
                                + (if x0.addrs[NDIRECT] != x2.addrs[NDIRECT] then 1 else 0)
  {
    var w0 := l0 - IndirectOf(x0);
    var w := w0 + {a};
    assert |w| <= |w0| + 1;
    if missing {
      assert |w + {BBlock(sb, a)}| <= |w| + 1;
      w := w + {BBlock(sb, a)};
    }
    if x0.addrs[NDIRECT] != x2.addrs[NDIRECT] {
      var bb := BBlock(sb, x2.addrs[NDIRECT]);
      assert |w + {bb}| <= |w| + 1;
      w := w + {bb};
    }
    Subset(l2 - IndirectOf(x2), w);
  }

  /** The test off + n < off in 32-bit arithmetic. */
  lemma Wraps(off: Word, n: Word)
    ensures (off + n) % 0x1_0000_0000 < off <==> off + n >= 0x1_0000_0000
  {
  }

  /** A block with data copied into it at position p. */
  function Splice(b: Block, p: nat, data: seq<Byte>): (r: Block)
    requires p + |data| <= 1024
    ensures forall k :: 0 <= k < 1024 ==> r[k] == if p <= k < p + |data| then data[k - p] else b[k]
  {
    b[..p] + data + b[p + |data|..]
  }

  lemma StoredTwice(sb: Superblock, s: State, t: State, u: State, i: nat, pos: nat, mid: nat,
                    a: seq<Byte>, b: seq<Byte>, ab: seq<Byte>)
    requires Good(sb, s) && Good(sb, t) && Good(sb, u) && i < sb.ninodes && mid == pos + |a| && mid + |b| <= MAXBYTES
    requires ab == a + b
    requires Stored(sb, s, t, i, pos, a) == Stored(sb, t, u, i, mid, b) == true && |b| > 0
    ensures Stored(sb, s, u, i, pos, ab)
  {
    forall j: nat, o: nat | j < sb.ninodes && o < MAXBYTES
      ensures Peek(sb, u, j, o) ==
              if j == i && pos <= o < pos + |a + b| then (a + b)[o - pos] else Peek(sb, s, j, o)
    {
      assert Peek(sb, t, j, o) == if j == i && pos <= o < pos + |a| then a[o - pos] else Peek(sb, s, j, o);
    }
    StoredPlaces(sb, s, t, u, i, pos, mid, a, b);
    assert forall j: nat :: j < sb.ninodes && j != i && Synced(sb, s, j) ==> Synced(sb, t, j);
  }

  lemma StoredPlaces(sb: Superblock, s: State, t: State, u: State, i: nat, pos: nat, mid: nat, a: seq<Byte>,
        b: seq<Byte>)
    requires Good(sb, s) && Good(sb, t) && Good(sb, u) && i < sb.ninodes && mid == pos + |a| && mid + |b| <= MAXBYTES
    requires Stored(sb, s, t, i, pos, a) && Stored(sb, t, u, i, mid, b) && |b| > 0
    ensures forall j: nat, k: nat :: j < sb.ninodes && k < SLOTS && (j != i || Addr(sb, s, j, k) != 0) ==>
              Addr(sb, u, j, k) == Addr(sb, s, j, k)
    ensures forall bn: nat :: pos / 1024 <= bn <= (pos + |a + b| - 1) / 1024 && bn < MAXFILE ==>
              Addr(sb, u, i, Slot(bn)) != 0
  {
    forall j: nat, k: nat | j < sb.ninodes && k < SLOTS && (j != i || Addr(sb, s, j, k) != 0)
      ensures Addr(sb, u, j, k) == Addr(sb, s, j, k)
    {
      assert Addr(sb, t, j, k) == Addr(sb, s, j, k);
    }
    forall bn: nat | pos / 1024 <= bn <= (pos + |a + b| - 1) / 1024 && bn < MAXFILE
      ensures Addr(sb, u, i, Slot(bn)) != 0
    {
      if |a| > 0 && bn <= (pos + |a| - 1) / 1024 {
        assert Addr(sb, t, i, Slot(bn)) != 0;
      }
    }
  }

  /** The number of blocks that n bytes from off on touch. */
  function Touched(off: nat, n: nat): (r: nat) {
    if n == 0 then 0 else (off + n - 1) / 1024 - off / 1024 + 1
  }

  /** A bound on the blocks one writei logs: a data block and a bitmap block for each block
      touched, except that an unaligned first block is there already, and a bitmap block for
      the indirect block, the indirect block, and the inode. */
  function Budget(off: nat, n: nat): (r: nat) {
    2 * Touched(off, n) + (if n > 0 && off % 1024 != 0 then 2 else 3)
  }

  /** filewrite's chunk of three blocks is the longest that can never log more than the ten
      blocks reserved for an operation, wherever it starts. */
  lemma ChunkFits(off: nat, n: nat)
    ensures n <= 3072 ==> Budget(off, n) <= 10
    ensures n > 3072 ==> Budget(0, n) > 10
    ensures Budget(1, 3072) == 10
  {
    if n > 3072 {
      assert (n - 1) / 1024 >= 3;
    }
  }

  /** A round that starts on a block boundary, or is the first, touches one block more. */
  lemma TouchedMore(off: nat, tot: nat, m: nat)
    requires m > 0 && (off + tot) % 1024 + m <= 1024 && (tot > 0 ==> (off + tot) % 1024 == 0)
    ensures Touched(off, tot + m) == Touched(off, tot) + 1
  {
  }

  /** The running account of a writei: w blocks of weight logged against an allowance. */
  ghost predicate InBudget(x0: Inode, x: Inode, log: nat, w: nat, off: nat, tot: nat, gained: nat)
    requires |x0.addrs| == |x.addrs| == NDIRECT + 1
  {
    && gained + (if tot > 0 && off % 1024 != 0 then 1 else 0) <= Touched(off, tot)
    && (x0.addrs[NDIRECT] != 0 ==> x.addrs[NDIRECT] == x0.addrs[NDIRECT])
    && w <= log + Touched(off, tot) + gained + (if x.addrs[NDIRECT] == x0.addrs[NDIRECT] then 0 else 1)
  }

  lemma RoundBudget(x0: Inode, x1: Inode, x2: Inode, log: nat, w1: nat, w2: nat,
                    off: nat, tot: nat, n: nat, pos: nat, m: nat, gained: nat, missing: bool)
    requires |x0.addrs| == |x1.addrs| == |x2.addrs| == NDIRECT + 1
    requires InBudget(x0, x1, log, w1, off, tot, gained)
    requires tot < n && pos == off + tot && m == Round(pos, n - tot) && (0 < tot < n ==> (off + tot) % 1024 == 0)
    requires tot == 0 && off % 1024 != 0 ==> !missing
    requires x1.addrs[NDIRECT] != 0 ==> x2.addrs[NDIRECT] == x1.addrs[NDIRECT]
    requires w2 <= w1 + 1 + (if missing then 1 else 0) + (if x1.addrs[NDIRECT] != x2.addrs[NDIRECT] then 1 else 0)
    ensures InBudget(x0, x2, log, w2, off, tot + m, gained + if missing then 1 else 0)
  {
    TouchedMore(off, tot, m);
  }

  lemma WeightBound(logged: set<nat>, x: Inode)
    requires |x.addrs| == NDIRECT + 1
    ensures |logged| <= Weight(logged, x) + 1
  {
    Subset(logged, (logged - IndirectOf(x)) + IndirectOf(x));
  }

  /** The block in which an offset below the size is not the first byte has been allocated. */
  lemma FirstThere(sb: Superblock, s: State, i: nat, off: nat)
    requires Good(sb, s) && Filled(sb, s) && i < sb.ninodes && off <= s.inodes[i].size && off % 1024 != 0
    ensures Addr(sb, s, i, Slot(off / 1024)) != 0
  {
  }

  /** The block of file i at offset pos has not been allocated. */
  ghost predicate Missing(sb: Superblock, s: State, i: nat, pos: nat)
    requires Good(sb, s) && i < sb.ninodes && pos < MAXBYTES
  {
    Addr(sb, s, i, Slot(pos / 1024)) == 0
  }

  /** What a round of writei may add to the log. */
  ghost predicate Charged(s: State, t: State, l0: set<nat>, l1: set<nat>, i: nat, missing: bool) {
    && i < |s.inodes| && i < |t.inodes| && |s.inodes[i].addrs| == |t.inodes[i].addrs| == NDIRECT + 1
    && var x0, x1 := s.inodes[i], t.inodes[i];
    && (x0.addrs[NDIRECT] != 0 ==> x1.addrs[NDIRECT] == x0.addrs[NDIRECT])
    && Weight(l1, x1) <= Weight(l0, x0) + 1 + (if missing then 1 else 0)
                         + (if x0.addrs[NDIRECT] != x1.addrs[NDIRECT] then 1 else 0)
  }

  /** writei after `tot` bytes of src, now in state t; it began in state s when `log` blocks had
      been logged, and `gained` of the blocks touched so far were missing. */
  ghost predicate Writing(sb: Superblock, s: State, log: nat, i: nat, off: nat, src: seq<Byte>, tot: nat,
                          gained: nat, t: State, owner: map<nat, Place>, logged: set<nat>) {
    && Good(sb, s) && i < sb.ninodes && off + |src| <= MAXBYTES && tot <= |src|
    && Inv(sb, t, owner) && Stored(sb, s, t, i, off, src[..tot])
    && (0 < tot < |src| ==> (off + tot) % 1024 == 0)
    && (off % 1024 != 0 && off < MAXBYTES ==> !Missing(sb, s, i, off))
    && InBudget(s.inodes[i], t.inodes[i], log, Weight(logged, t.inodes[i]), off, tot, gained)
  }

  lemma FirstBlock(sb: Superblock, s: State, t: State, i: nat, off: nat, tot: nat, pos: nat, done: seq<Byte>)
    requires Good(sb, s) && Good(sb, t) && i < sb.ninodes && pos == off + tot < MAXBYTES && tot == |done|
    requires Stored(sb, s, t, i, off, done) == true
    requires off % 1024 != 0 ==> !Missing(sb, s, i, off)
    ensures tot == 0 && off % 1024 != 0 ==> !Missing(sb, t, i, pos)
  {
  }

  lemma StartWriting(sb: Superblock, s: State, i: nat, off: nat, src: seq<Byte>, owner: map<nat, Place>,
        logged: set<nat>)
    requires Inv(sb, s, owner) && i < sb.ninodes && off <= s.inodes[i].size && off + |src| <= MAXBYTES
    ensures Writing(sb, s, |logged|, i, off, src, 0, 0, s, owner, logged)
  {
    if off % 1024 != 0 {
      FirstThere(sb, s, i, off);
    }
    Subset(logged - IndirectOf(s.inodes[i]), logged);
  }

  lemma RoundStored(sb: Superblock, s: State, t: State, u: State, i: nat, off: nat, src: seq<Byte>, tot: nat,
                    pos: nat, m: nat, piece: seq<Byte>)
    requires Good(sb, s) && Good(sb, t) && Good(sb, u) && i < sb.ninodes
    requires off + |src| <= MAXBYTES && tot + m <= |src| && m > 0 && pos == off + tot && piece == src[tot..tot + m]
    requires Stored(sb, s, t, i, off, src[..tot]) == true && Stored(sb, t, u, i, pos, piece) == true
    ensures Stored(sb, s, u, i, off, src[..tot + m])
  {
    assert src[..tot] + piece == src[..tot + m];
    StoredTwice(sb, s, t, u, i, off, pos, src[..tot], piece, src[..tot + m]);
  }

  lemma RoundDone(sb: Superblock, s: State, log: nat, i: nat, off: nat, src: seq<Byte>, tot: nat, gained: nat,
                  t: State, owner0: map<nat, Place>, l0: set<nat>,
                  pos: nat, m: nat, piece: seq<Byte>, missing: bool,
                  u: State, owner1: map<nat, Place>, l1: set<nat>)
    requires Writing(sb, s, log, i, off, src, tot, gained, t, owner0, l0) == true && tot < |src|
    requires pos == off + tot && m == Round(pos, |src| - tot) && piece == src[tot..tot + m]
    requires missing == Missing(sb, t, i, pos) && Inv(sb, u, owner1) == true
    requires Stored(sb, t, u, i, pos, piece) == true && Charged(t, u, l0, l1, i, missing) == true
    ensures Writing(sb, s, log, i, off, src, tot + m, gained + if missing then 1 else 0, u, owner1, l1)
  {
    RoundEnds(off, tot, |src|, pos, m);
    RoundStored(sb, s, t, u, i, off, src, tot, pos, m, piece);
    FirstBlock(sb, s, t, i, off, tot, pos, src[..tot]);
    RoundBudget(s.inodes[i], t.inodes[i], u.inodes[i], log, Weight(l0, t.inodes[i]), Weight(l1, u.inodes[i]),
                off, tot, |src|, pos, m, gained, missing);
  }

  /** What a write leaves: src laid over file i from off on, the file as long as that needs,
      every other file as it was, and no inode table entry falling behind its inode. */
  ghost predicate Written(sb: Superblock, s: State, u: State, i: nat, off: nat, src: seq<Byte>) {
    && Good(sb, s) && Good(sb, u) && Filled(sb, s) && Filled(sb, u) && i < sb.ninodes && off <= s.inodes[i].size
    && Contents(sb, u, i) == Overwrite(Contents(sb, s, i), off, src)
    && (forall j: nat {:trigger Contents(sb, u, j)} :: j < sb.ninodes && j != i ==>
          Contents(sb, u, j) == Contents(sb, s, j))
    && (forall j: nat :: j < sb.ninodes && Synced(sb, s, j) ==> Synced(sb, u, j))
  }

  lemma OverwriteTwice(c: seq<Byte>, off: nat, mid: nat, a: seq<Byte>, b: seq<Byte>, ab: seq<Byte>)
    requires off <= |c| && mid == off + |a| && ab == a + b
    ensures Overwrite(Overwrite(c, off, a), mid, b) == Overwrite(c, off, ab)
  {
  }

  /** Two writes one after the other are one. */
  lemma WrittenTwice(sb: Superblock, s: State, t: State, u: State, i: nat, off: nat, mid: nat,
                     a: seq<Byte>, b: seq<Byte>, ab: seq<Byte>)
    requires Written(sb, s, t, i, off, a) == true && Written(sb, t, u, i, mid, b) == true
    requires mid == off + |a| && ab == a + b
    ensures Written(sb, s, u, i, off, ab)
  {
    OverwriteTwice(Contents(sb, s, i), off, mid, a, b, ab);
    forall j: nat | j < sb.ninodes && j != i
      ensures Contents(sb, u, j) == Contents(sb, s, j)
    {
      assert Contents(sb, t, j) == Contents(sb, s, j);
    }
    assert forall j: nat :: j < sb.ninodes && Synced(sb, s, j) ==> Synced(sb, t, j);
  }

  lemma WrittenMore(sb: Superblock, s: State, t: State, u: State, i: nat, off: nat, src: seq<Byte>, k: nat,
                    pos: nat, end: nat, piece: seq<Byte>)
    requires k <= end <= |src| && pos == off + k && piece == src[k..end]
    requires Written(sb, s, t, i, off, src[..k]) == true && Written(sb, t, u, i, pos, piece) == true
    ensures Written(sb, s, u, i, off, src[..end]) == true
  {
    assert src[..k] + piece == src[..end];
    WrittenTwice(sb, s, t, u, i, off, pos, src[..k], piece, src[..end]);
  }

  lemma WrittenSize(sb: Superblock, s: State, u: State, i: nat, off: nat, src: seq<Byte>)
    requires Written(sb, s, u, i, off, src) == true
    ensures off <= s.inodes[i].size && off + |src| <= u.inodes[i].size
  {
    OverwriteAt(Contents(sb, s, i), off, src);
    assert |Contents(sb, u, i)| >= off + |src|;
  }

  lemma WrittenNothing(sb: Superblock, s: State, i: nat, off: nat)
    requires Good(sb, s) && Filled(sb, s) && i < sb.ninodes && off <= s.inodes[i].size
    ensures Written(sb, s, s, i, off, [])
  {
    assert Overwrite(Contents(sb, s, i), off, []) == Contents(sb, s, i);
  }

  /** filewrite after k bytes of src, now in state t; it began in state s. */
  ghost predicate Filing(sb: Superblock, s: State, i: nat, off: nat, src: seq<Byte>, k: nat,
                         t: State, owner: map<nat, Place>) {
    && Good(sb, s) && Filled(sb, s) && i < sb.ninodes && k <= |src| && Inv(sb, t, owner)
    && (off > s.inodes[i].size ==> k == 0 && t == s)
    && (off <= s.inodes[i].size ==> off + k <= t.inodes[i].size && Written(sb, s, t, i, off, src[..k]))
  }

  lemma FilingStart(sb: Superblock, s: State, i: nat, off: nat, src: seq<Byte>, owner: map<nat, Place>)
    requires Inv(sb, s, owner) && i < sb.ninodes
    ensures Filing(sb, s, i, off, src, 0, s, owner)
  {
    if off <= s.inodes[i].size {
      WrittenNothing(sb, s, i, off);
    }
  }

  lemma FilingMore(sb: Superblock, s: State, i: nat, off: nat, src: seq<Byte>, k: nat, t: State,
                   owner0: map<nat, Place>, pos: nat, end: nat, piece: seq<Byte>, u: State, owner1: map<nat, Place>)
    requires Filing(sb, s, i, off, src, k, t, owner0) == true && k <= end <= |src|
    requires pos == off + k && piece == src[k..end] && Written(sb, t, u, i, pos, piece) == true
    requires Inv(sb, u, owner1) == true
    ensures Filing(sb, s, i, off, src, end, u, owner1)
  {
    WrittenSize(sb, t, u, i, pos, piece);
    WrittenMore(sb, s, t, u, i, off, src, k, pos, end, piece);
  }

  /** The length of filewrite's next chunk. */
  function Chunk(left: int): (m: int)
    requires left > 0
    ensures 0 < m <= left && m <= 3072 && (m < left ==> m == 3072)
  {
    if left > 3072 then 3072 else left
  }

  function Longer(size: Word, end: Word): (r: Word) {
    if end > size then end else size
  }

  lemma WritePlaces(sb: Superblock, s: State, t: State, i: nat, off: nat, src: seq<Byte>, bn: nat)
    requires Good(sb, s) && Good(sb, t) && Filled(sb, t) && i < sb.ninodes && off + |src| <= MAXBYTES
    requires Stored(sb, s, t, i, off, src) == true && off <= s.inodes[i].size
    requires bn < MAXFILE && 1024 * bn < Longer(s.inodes[i].size, off + |src|)
    ensures Addr(sb, t, i, Slot(bn)) != 0
  {
    if 1024 * bn >= s.inodes[i].size {
      assert off / 1024 <= bn <= (off + |src| - 1) / 1024;
    }
  }

  /** writei with the new size in r, and the inode table updated in u. */
  ghost predicate Resized(sb: Superblock, s: State, t: State, r: State, u: State, i: nat, off: nat, src: seq<Byte>) {
    && Good(sb, s) && Good(sb, t) && Good(sb, r) && Good(sb, u) && Filled(sb, s) && Filled(sb, u)
    && i < sb.ninodes && off <= s.inodes[i].size && off + |src| <= MAXBYTES
    && Stored(sb, s, t, i, off, src) && SameBytes(sb, r, u) && u.inodes == r.inodes
    && r == State(t.blocks, t.inodes[i := t.inodes[i].(size := Longer(s.inodes[i].size, off + |src|))])
  }

  lemma ResizedByte(sb: Superblock, s: State, t: State, r: State, u: State, i: nat, off: nat, src: seq<Byte>,
                    j: nat, o: nat)
    requires Resized(sb, s, t, r, u, i, off, src) && j < sb.ninodes && o < MAXBYTES
    ensures Peek(sb, u, j, o) == if j == i && off <= o < off + |src| then src[o - off] else Peek(sb, s, j, o)
  {
    assert Peek(sb, r, j, o) == Peek(sb, u, j, o) && Peek(sb, r, j, o) == Peek(sb, t, j, o);
  }

  lemma ResizedSynced(sb: Superblock, s: State, t: State, r: State, u: State, i: nat, off: nat, src: seq<Byte>, j: nat)
    requires Resized(sb, s, t, r, u, i, off, src) && j < sb.ninodes && Synced(sb, s, j)
    requires Synced(sb, u, i) && forall j: nat :: j < sb.ninodes && Synced(sb, r, j) ==> Synced(sb, u, j)
    ensures Synced(sb, u, j)
  {
    assert j != i ==> Synced(sb, t, j) && Synced(sb, r, j);
  }

  lemma ResizedFile(sb: Superblock, s: State, t: State, r: State, u: State, i: nat, off: nat, src: seq<Byte>, j: nat)
    requires Resized(sb, s, t, r, u, i, off, src) == true && Good(sb, s) && Good(sb, u) && i < sb.ninodes
    requires j < sb.ninodes && s.inodes[j].size <= MAXBYTES && u.inodes[j].size <= MAXBYTES
    requires u.inodes[j].size == if j == i then Longer(s.inodes[i].size, off + |src|) else s.inodes[j].size
    requires off <= s.inodes[i].size && off + |src| <= MAXBYTES
    ensures Contents(sb, u, j) == if j == i then Overwrite(Contents(sb, s, i), off, src) else Contents(sb, s, j)
  {
    var c, d := Contents(sb, s, j), Contents(sb, u, j);
    if j == i {
      OverwriteAt(c, off, src);
    }
    forall o | 0 <= o < |d|
      ensures d[o] == if j == i then Overwrite(c, off, src)[o] else c[o]
    {
      ResizedByte(sb, s, t, r, u, i, off, src, j, o);
    }
  }

  lemma WriteContents(sb: Superblock, s: State, t: State, r: State, u: State, i: nat, off: nat, src: seq<Byte>)
    requires Resized(sb, s, t, r, u, i, off, src)
    requires Synced(sb, u, i) && forall j: nat :: j < sb.ninodes && Synced(sb, r, j) ==> Synced(sb, u, j)
    ensures Written(sb, s, u, i, off, src) == true
  {
    forall j: nat | j < sb.ninodes && Synced(sb, s, j)
      ensures Synced(sb, u, j)
    {
      ResizedSynced(sb, s, t, r, u, i, off, src, j);
    }
    forall j: nat | j < sb.ninodes
      ensures Contents(sb, u, j) == if j == i then Overwrite(Contents(sb, s, i), off, src) else Contents(sb, s, j)
    {
      ResizedFile(sb, s, t, r, u, i, off, src, j);
    }
  }

  /** The bitmap blocks with the bits of the blocks of file i. */
  ghost function BitmapOf(sb: Superblock, owner: map<nat, Place>, i: nat): (r: set<nat>) {
    set b | b in BlocksOf(owner, i) :: BBlock(sb, b)
  }

  ghost function ZeroTo(addrs: seq<Word>, n: nat): (r: seq<Word>)
    requires |addrs| == NDIRECT + 1 && n <= NDIRECT + 1
    ensures |r| == NDIRECT + 1
  {
    NoAddrs()[..n] + addrs[n..]
  }

  lemma ZeroNext(addrs: seq<Word>, k: nat)
    requires |addrs| == NDIRECT + 1 && k <= NDIRECT
    ensures ZeroTo(addrs, k)[k] == addrs[k] && ZeroTo(addrs, k + 1) == ZeroTo(addrs, k)[k := 0]
    ensures addrs[k] == 0 ==> ZeroTo(addrs, k + 1) == ZeroTo(addrs, k)
    ensures k == NDIRECT ==> ZeroTo(addrs, k + 1) == NoAddrs()
  {
  }

  lemma SameContents(sb: Superblock, s: State, t: State)
    requires Good(sb, s) && Good(sb, t) && Filled(sb, s) && t.inodes == s.inodes && SameBytes(sb, s, t) == true
    ensures forall j: nat {:trigger Contents(sb, t, j)} :: j < sb.ninodes ==> Contents(sb, t, j) == Contents(sb, s, j)
  {
    forall j: nat, o: nat | j < sb.ninodes && o < s.inodes[j].size
      ensures Contents(sb, t, j)[o] == Contents(sb, s, j)[o]
    {
      assert Peek(sb, t, j, o) == Peek(sb, s, j, o);
    }
  }

  /** No block is free. */
  ghost predicate Full(sb: Superblock, blocks: seq<Block>) {
    Fits(sb, blocks) && forall b: nat :: b < sb.size ==> Marked(sb, blocks, b)
  }

  /** writei after its loop. */
  lemma WroteAll(sb: Superblock, s: State, log: nat, i: nat, off: nat, src: seq<Byte>, gained: nat, t: State,
                 owner: map<nat, Place>, logged: set<nat>)
    requires Writing(sb, s, log, i, off, src, |src|, gained, t, owner, logged)
    ensures Inv(sb, t, owner) == Stored(sb, s, t, i, off, src) == true
    ensures |logged| < log + Budget(off, |src|)
  {
    assert src[..|src|] == src;
    WeightBound(logged, t.inodes[i]);
  }

  /** The blocks below the new size are there. */
  lemma Resizable(sb: Superblock, s: State, t: State, owner: map<nat, Place>, i: nat, off: nat, src: seq<Byte>,
                  size: nat)
    requires Inv(sb, t, owner) && Good(sb, s) && Filled(sb, s) && i < sb.ninodes && off <= s.inodes[i].size
    requires off + |src| <= MAXBYTES && Stored(sb, s, t, i, off, src) == true
    requires size == Longer(t.inodes[i].size, off + |src|)
    ensures size < 0x1_0000_0000
    ensures Inv(sb, State(t.blocks, t.inodes[i := t.inodes[i].(size := size)]), owner) == true
  {
    forall bn: nat | bn < MAXFILE && 1024 * bn < size
      ensures Addr(sb, t, i, Slot(bn)) != 0
    {
      WritePlaces(sb, s, t, i, off, src, bn);
    }
    ResizeOk(sb, t, owner, i, size);
  }

  /** Free blocks and blocks of files are behind the log. */
  lemma Behind(sb: Superblock, s: State, owner: map<nat, Place>, b: nat)
    requires Inv(sb, s, owner) && b < sb.size && (!Marked(sb, s.blocks, b) || b in owner)
    ensures sb.inodestart <= b
  {
  }

  class FileSystem {
    const sb: Superblock
    var blocks: seq<Block>
    var inodes: seq<Inode>
    ghost var owner: map<nat, Place>
    ghost var base: seq<Block>                // the blocks when the transaction began
    var stores: seq<(nat, Block)>             // what has been given to log_write since
    ghost var logged: set<nat>                // the blocks among that

    ghost function Now(): (s: State)
      reads this
    {
      State(blocks, inodes)
    }

    ghost predicate Valid()
      reads this
    {
      Inv(sb, Now(), owner)
    }

    /** The blocks have changed by the stores that were logged, and all of these are behind the log. */
    ghost predicate Traced()
      reads this`blocks, this`base, this`stores, this`logged
    {
      && blocks == Applied(base, stores) && logged == Elements(Numbers(stores))
      && forall b :: b in logged ==> sb.inodestart <= b < |blocks|
    }

    constructor (sb: Superblock, blocks: seq<Block>, inodes: seq<Inode>, ghost owner: map<nat, Place>)
      requires Inv(sb, State(blocks, inodes), owner)
      ensures Valid() && this.sb == sb && Now() == State(blocks, inodes) && this.owner == owner && logged == {}
    {
      this.sb, this.blocks, this.inodes, this.owner, logged := sb, blocks, inodes, owner, {};
      base, stores := blocks, [];
    }

    /** Modify a buffer and log_write it. */
    method Write(bno: nat, x: Block)
      requires bno < |blocks|
      modifies this`blocks, this`logged, this`stores
      ensures blocks == old(blocks)[bno := x] && logged == old(logged) + {bno} && stores == old(stores) + [(bno, x)]
      ensures old(Traced()) == true && sb.inodestart <= bno ==> Traced() == true
    {
      if Traced() {
        AppliedMore(base, stores, (bno, x));
      }
      blocks := blocks[bno := x];
      logged, stores := logged + {bno}, stores + [(bno, x)];
    }

    /** The inner loop of balloc: the first clear bit of the bitmap block for blocks b .. */
    method FirstFree(b: nat) returns (bi: nat)
      requires Fits(sb, blocks) && b % 8192 == 0 && b < sb.size
      ensures bi <= 8192 && b + bi <= sb.size
      ensures forall c: nat :: b <= c < b + bi ==> Marked(sb, blocks, c)
      ensures bi < 8192 && b + bi < sb.size ==> !Marked(sb, blocks, b + bi)
    {
      bi := 0;
      var bp := blocks[BBlock(sb, b)];
      while bi < 8192 && b + bi < sb.size
        invariant bi <= 8192 && b + bi <= sb.size
        invariant forall c: nat :: b <= c < b + bi ==> Marked(sb, blocks, c)
      {
        SameRow(b, bi);
        if !BitSet(bp[bi / 8], bi % 8) {
          return;
        }
        bi := bi + 1;
      }
    }

    /** Marks and zeroes the first free block; false is the panic "balloc: out of blocks". */
    method Balloc() returns (ok: bool, a: nat)
      requires Fits(sb, blocks)
      modifies this`blocks, this`logged, this`stores
      ensures ok <==> !Full(sb, old(blocks))
      ensures !ok ==> blocks == old(blocks) && logged == old(logged)
      ensures ok ==>
                && a < sb.size && !Marked(sb, old(blocks), a)
                && (forall c: nat :: c < a ==> Marked(sb, old(blocks), c))
                && blocks == AllocBlock(sb, old(blocks), a)
                && logged == old(logged) + {BBlock(sb, a), a}
      ensures ok && old(Traced()) == true && sb.inodestart <= a ==> Traced() == true
    {
      var b := 0;
      while b < sb.size
        invariant b % 8192 == 0 && blocks == old(blocks) && logged == old(logged) && stores == old(stores)
        invariant forall c: nat :: c < b && c < sb.size ==> Marked(sb, blocks, c)
      {
        var bi := FirstFree(b);
        if bi < 8192 && b + bi < sb.size {
          a := b + bi;
          var bb := BBlock(sb, a);
          SameRow(b, bi);
          Write(bb, blocks[bb][bi / 8 := SetBit(blocks[bb][bi / 8], bi % 8)]);
          Write(a, ZeroBlock());
          return true, a;
        }
        b := b + 8192;
      }
      return false, 0;
    }

    /** Clears the bit of a block; the panic "freeing free block" is the precondition. */
    method Bfree(b: nat)
      requires Fits(sb, blocks) && b < sb.size && Marked(sb, blocks, b)
      modifies this`blocks, this`logged, this`stores
      ensures blocks == Unmark(sb, old(blocks), b) && logged == old(logged) + {BBlock(sb, b)}
    {
      var bb, bi := BBlock(sb, b), b % 8192;
      var x: Byte := WithoutBit(blocks[bb][bi / 8], bi % 8);
      Write(bb, blocks[bb][bi / 8 := x]);
    }

    method Iupdate(i: nat)
      requires Valid() && i < sb.ninodes
      modifies this`blocks, this`logged, this`stores
      ensures Valid() && SameBytes(sb, old(Now()), Now()) && Synced(sb, Now(), i)
      ensures forall j: nat :: j < sb.ninodes && old(Synced(sb, Now(), j)) ==> Synced(sb, Now(), j)
      ensures blocks == PutInode(sb, old(blocks), i, inodes[i])
      ensures logged == old(logged) + {IBlock(sb, i)} && (old(Traced()) == true ==> Traced() == true)
      ensures stores != [] && stores[..|stores| - 1] == old(stores)
    {
      UpdateOk(sb, Now(), owner, i);
      var b := IBlock(sb, i);
      Write(b, PutSlot(blocks[b], i % 16, inodes[i]));
    }

    // ---------- the block map ----------

    /** The part of bmap that looks at ip->addrs[k]. */
    method MapDirect(i: nat, k: nat) returns (ok: bool, a: nat)
      requires Valid() && i < sb.ninodes && k <= NDIRECT
      modifies this
      ensures !ok ==> Full(sb, blocks) == true
      ensures Addr(sb, old(Now()), i, k) != 0 ==>
                ok && Now() == old(Now()) && logged == old(logged) && owner == old(owner)
      ensures ok ==>
                && Valid() && Kept(sb, old(Now()), Now(), i) && a == Addr(sb, Now(), i, k) && 0 < a < sb.size
                && (forall l :: 0 <= l <= NDIRECT && l != k ==> inodes[i].addrs[l] == old(inodes)[i].addrs[l])
                && AddrsBut(sb, old(Now()), Now(), Place(i, k), a)
                && (Addr(sb, old(Now()), i, k) == 0 ==> logged == old(logged) + {BBlock(sb, a), a})
      ensures ok ==> base == old(base) && (old(Traced()) == true ==> Traced() == true)
    {
      ghost var s := Now();
      assert Addr(sb, s, i, k) == inodes[i].addrs[k];
      a := inodes[i].addrs[k];
      if a != 0 {
        return true, a;
      }
      ok, a := Balloc();
      if ok {
        inodes := inodes[i := SetAddr(inodes[i], k, a)];
        assert Now() == GainDirect(sb, s, i, k, a);
        GainDirectOk(sb, s, owner, i, k, a);
        owner := owner[a := Place(i, k)];
      }
    }

    /** The part of bmap that looks at the k-th slot through the indirect block. */
    method MapIndirect(i: nat, k: nat) returns (ok: bool, a: nat)
      requires Valid() && i < sb.ninodes && NDIRECT < k < SLOTS && 0 < inodes[i].addrs[NDIRECT] < sb.size
      modifies this
      ensures !ok ==> Full(sb, blocks) == true
      ensures Addr(sb, old(Now()), i, k) != 0 ==>
                ok && Now() == old(Now()) && logged == old(logged) && owner == old(owner)
      ensures ok ==>
                && Valid() && Kept(sb, old(Now()), Now(), i) && a == Addr(sb, Now(), i, k) && 0 < a < sb.size
                && inodes == old(inodes)
                && (Addr(sb, old(Now()), i, k) == 0 ==>
                      logged == old(logged) + {BBlock(sb, a), a, inodes[i].addrs[NDIRECT]})
      ensures ok ==> base == old(base) && (old(Traced()) == true ==> Traced() == true)
    {
      ghost var s := Now();
      var ind := inodes[i].addrs[NDIRECT];
      var bp := blocks[ind];
      a := GetWord(bp, k - 13);
      assert a == Addr(sb, s, i, k);
      if a != 0 {
        return true, a;
      }
      ok, a := Balloc();
      if ok {
        Behind(sb, s, owner, a);
        Enlist(s, i, k, bp, a);
      }
    }

    /** The new block a is entered in slot k of the indirect block. */
    method Enlist(ghost s: State, i: nat, k: nat, bp: Block, a: nat)
      requires Inv(sb, s, owner) && i < sb.ninodes && NDIRECT < k < SLOTS && Addr(sb, s, i, k) == 0
      requires 0 < s.inodes[i].addrs[NDIRECT] < sb.size && bp == s.blocks[s.inodes[i].addrs[NDIRECT]]
      requires a < sb.size && !Marked(sb, s.blocks, a) && Now() == State(AllocBlock(sb, s.blocks, a), s.inodes)
      modifies this`blocks, this`owner, this`logged, this`stores
      ensures Valid() && Kept(sb, s, Now(), i) && a == Addr(sb, Now(), i, k) && 0 < a
      ensures logged == old(logged) + {inodes[i].addrs[NDIRECT]} && (old(Traced()) == true ==> Traced() == true)
    {
      var ind := inodes[i].addrs[NDIRECT];
      assert ind == Addr(sb, s, i, NDIRECT);
      Behind(sb, s, owner, ind);
      Write(ind, PutWord(bp, k - 13, a));
      assert Now() == GainIndirect(sb, s, i, k, a);
      GainIndirectOk(sb, s, owner, i, k, a);
      owner := owner[a := Place(i, k)];
    }

    /** The disk address of the bn-th block of file i, allocated if it was missing. What is
        logged when it was: its bitmap block and the zeroed block itself, and beyond the direct
        blocks also the indirect block, with its own bitmap block if it is new too. */
    method Bmap(i: nat, bn: nat) returns (ok: bool, a: nat)
      requires Valid() && i < sb.ninodes && bn < MAXFILE
      modifies this
      ensures !ok ==> Full(sb, blocks) == true
      ensures Addr(sb, old(Now()), i, Slot(bn)) != 0 ==>
                ok && Now() == old(Now()) && logged == old(logged) && owner == old(owner)
      ensures ok ==>
                && Valid() && Kept(sb, old(Now()), Now(), i) == true && a == Addr(sb, Now(), i, Slot(bn)) &&
                      0 < a < sb.size
                && SameIndirect(old(inodes)[i], inodes[i])
                && (bn < NDIRECT ==> old(inodes)[i].addrs[NDIRECT] == inodes[i].addrs[NDIRECT])
      ensures ok && Addr(sb, old(Now()), i, Slot(bn)) == 0 ==>
                logged == old(logged) + {BBlock(sb, a), a} + IndirectLog(sb, bn, old(inodes)[i], inodes[i])
      ensures ok ==> base == old(base) && (old(Traced()) == true ==> Traced() == true)
    {
      var k := Slot(bn);
      if bn < NDIRECT {
        ok, a := MapDirect(i, k);
      } else {
        ok, a := BmapIndirect(i, k);
      }
    }

    method BmapIndirect(i: nat, k: nat) returns (ok: bool, a: nat)
      requires Valid() && i < sb.ninodes && NDIRECT < k < SLOTS
      modifies this
      ensures !ok ==> Full(sb, blocks) == true
      ensures Addr(sb, old(Now()), i, k) != 0 ==>
                ok && Now() == old(Now()) && logged == old(logged) && owner == old(owner)
      ensures ok ==>
                && Valid() && Kept(sb, old(Now()), Now(), i) == true && a == Addr(sb, Now(), i, k) && 0 < a < sb.size
                && SameIndirect(old(inodes)[i], inodes[i])
      ensures ok && Addr(sb, old(Now()), i, k) == 0 ==>
                logged == old(logged) + {BBlock(sb, a), a} + IndirectLog(sb, NDIRECT, old(inodes)[i], inodes[i])
      ensures ok ==> base == old(base) && (old(Traced()) == true ==> Traced() == true)
    {
      var ind;
      ok, ind := MapDirect(i, NDIRECT);
      if !ok {
        return false, 0;
      }
      ghost var s, log := Now(), logged;
      assert Addr(sb, s, i, k) == Addr(sb, old(Now()), i, k);
      ok, a := MapIndirect(i, k);
      if ok {
        KeptTransitive(sb, old(Now()), s, Now(), i);
      }
    }

    // ---------- reading and writing ----------

    /** One round of readi. */
    method ReadChunk(i: nat, pos: nat, len: nat) returns (piece: seq<Byte>)
      requires Valid() && i < sb.ninodes && 0 < len && pos + len <= inodes[i].size
      modifies this
      ensures Now() == old(Now()) && logged == old(logged) && owner == old(owner)
      ensures 0 < |piece| <= len && piece == Contents(sb, Now(), i)[pos..pos + |piece|]
    {
      BlockThere(sb, Now(), i, pos);
      var ok, a := Bmap(i, pos / 1024);
      var m := Round(pos, len);
      ReadBlock(sb, Now(), i, pos, m, a);
      piece := blocks[a][pos % 1024..pos % 1024 + m];
    }

    /** The loop of readi. */
    method ReadAll(i: nat, off: nat, len: nat) returns (dst: seq<Byte>)
      requires Valid() && i < sb.ninodes && off + len <= inodes[i].size
      modifies this
      ensures Now() == old(Now()) && logged == old(logged) && owner == old(owner)
      ensures dst == Contents(sb, Now(), i)[off..off + len]
    {
      ghost var c := Contents(sb, Now(), i);
      var pos, end := off, off + len;
      dst := [];
      while pos < end
        invariant off <= pos <= end && Now() == old(Now()) && logged == old(logged) && owner == old(owner)
        invariant dst == c[off..pos]
      {
        var piece := ReadChunk(i, pos, end - pos);
        SliceJoin(c, off, pos, pos + |piece|);
        dst, pos := dst + piece, pos + |piece|;
      }
    }

    /** readi: the slice of the file clipped at its end. It never allocates, so it may be
        called outside a transaction. */
    method Readi(i: nat, off: Word, n: Word) returns (dst: seq<Byte>)
      requires Valid() && i < sb.ninodes
      modifies this
      ensures Now() == old(Now()) && logged == old(logged) && owner == old(owner)
      ensures off > inodes[i].size || off + n >= 0x1_0000_0000 ==> dst == []
      ensures off <= inodes[i].size && off + n < 0x1_0000_0000 ==>
                && |dst| <= n && off + |dst| <= inodes[i].size
                && (|dst| == n || off + |dst| == inodes[i].size)
                && forall k :: 0 <= k < |dst| ==> dst[k] == Contents(sb, Now(), i)[off + k]
    {
      var size := inodes[i].size;
      Wraps(off, n);
      if off > size || (off + n) % 0x1_0000_0000 < off {
        return [];
      }
      dst := ReadAll(i, off, if off + n > size then size - off else n);
    }

    /** One round of writei: the data goes into one block of file i. */
    method StoreChunk(i: nat, pos: nat, data: seq<Byte>) returns (ok: bool)
      requires Valid() && i < sb.ninodes && 0 < |data| && pos % 1024 + |data| <= 1024 && pos + |data| <= MAXBYTES
      modifies this
      ensures !ok ==> Full(sb, blocks) == true
      ensures ok ==> Valid() && Stored(sb, old(Now()), Now(), i, pos, data) == true
      ensures ok ==> Charged(old(Now()), Now(), old(logged), logged, i, Missing(sb, old(Now()), i, pos))
      ensures ok ==> base == old(base) && (old(Traced()) == true ==> Traced() == true)
    {
      var a;
      ok, a := Bmap(i, pos / 1024);
      if ok {
        ghost var log := logged;
        StoreInto(old(Now()), i, pos, data, a);
        ChunkWeight(sb, old(logged), log, logged, a, pos / 1024, old(inodes)[i], inodes[i],
                    Missing(sb, old(Now()), i, pos));
      }
    }

    /** The data goes into block a of the file. */
    method StoreInto(ghost s: State, i: nat, pos: nat, data: seq<Byte>, a: nat)
      requires Valid() && i < sb.ninodes && 0 < |data| && pos % 1024 + |data| <= 1024 && pos + |data| <= MAXBYTES
      requires Good(sb, s) && Kept(sb, s, Now(), i) == true
      requires a == Addr(sb, Now(), i, Slot(pos / 1024)) && 0 < a < sb.size
      modifies this`blocks, this`logged, this`stores
      ensures Valid() && Stored(sb, s, Now(), i, pos, data) == true && logged == old(logged) + {a}
      ensures old(Traced()) == true ==> Traced() == true
    {
      ghost var t := Now();
      Behind(sb, t, owner, a);
      var y := Splice(blocks[a], pos % 1024, data);
      StoreOk(sb, t, owner, i, pos / 1024, y);
      Write(a, y);
      ChunkStored(sb, s, t, Now(), i, pos, data, y);
    }

    /** One round of the loop of writei. */
    method WriteRound(ghost s: State, ghost log: nat, i: nat, off: nat, src: seq<Byte>, tot: nat, ghost gained: nat)
      returns (ok: bool, m: nat, ghost more: nat)
      requires Writing(sb, s, log, i, off, src, tot, gained, Now(), owner, logged) == true && tot < |src|
      modifies this
      ensures !ok ==> Full(sb, blocks) == true
      ensures ok ==>
                0 < m <= |src| - tot &&
                Writing(sb, s, log, i, off, src, tot + m, more, Now(), owner, logged) == true
      ensures ok ==> base == old(base) && (old(Traced()) == true ==> Traced() == true)
    {
      var pos := off + tot;
      m := Round(pos, |src| - tot);
      var piece := src[tot..tot + m];
      ghost var missing := Missing(sb, Now(), i, pos);
      more := gained + if missing then 1 else 0;
      ok := StoreChunk(i, pos, piece);
      if ok {
        RoundDone(sb, s, log, i, off, src, tot, gained, old(Now()), old(owner), old(logged),
                  pos, m, piece, missing, Now(), owner, logged);
      }
    }

    /** The loop of writei. */
    method WriteAll(ghost s: State, ghost log: nat, i: nat, off: nat, src: seq<Byte>)
      returns (ok: bool, ghost gained: nat)
      requires Writing(sb, s, log, i, off, src, 0, 0, Now(), owner, logged) == true
      modifies this
      ensures !ok ==> Full(sb, blocks) == true
      ensures ok ==> Writing(sb, s, log, i, off, src, |src|, gained, Now(), owner, logged) == true
      ensures ok ==> base == old(base) && (old(Traced()) == true ==> Traced() == true)
    {
      gained := 0;
      var tot := 0;
      while tot < |src|
        invariant tot <= |src| && Writing(sb, s, log, i, off, src, tot, gained, Now(), owner, logged) == true
        invariant base == old(base) && (old(Traced()) == true ==> Traced() == true)
      {
        var m;
        ok, m, gained := WriteRound(s, log, i, off, src, tot, gained);
        if !ok {
          return;
        }
        tot := tot + m;
      }
      ok := true;
    }

    /** writei after its loop: the size, and the inode table. */
    method Finish(ghost s: State, ghost t: State, i: nat, off: nat, src: seq<Byte>)
      requires Valid() && Good(sb, s) && Filled(sb, s) && i < sb.ninodes && Now() == t
      requires off <= s.inodes[i].size && off + |src| <= MAXBYTES && Stored(sb, s, t, i, off, src) == true
      modifies this
      ensures Valid() && Written(sb, s, Now(), i, off, src) == true && Synced(sb, Now(), i)
      ensures logged == old(logged) + {IBlock(sb, i)} && base == old(base)
      ensures old(Traced()) == true ==> Traced() == true
      ensures stores != [] && stores[..|stores| - 1] == old(stores)
    {
      var size := Longer(inodes[i].size, off + |src|);
      Resizable(sb, s, t, owner, i, off, src, size);
      inodes := inodes[i := inodes[i].(size := size)];
      ghost var r := Now();
      Iupdate(i);
      WriteContents(sb, s, t, r, Now(), i, off, src);
    }

    /** writei; None is the return value -1, and ok is false for the panic of balloc. */
    method Writei(i: nat, off: Word, src: seq<Byte>) returns (ok: bool, r: Option<nat>, ghost before: set<nat>)
      requires Valid() && i < sb.ninodes && |src| < 0x1_0000_0000
      modifies this
      ensures !ok ==> Full(sb, blocks) == true
      ensures ok && r.None? <==> off > old(inodes)[i].size || off + |src| > MAXBYTES
      ensures ok && r.None? ==> Now() == old(Now()) && owner == old(owner) && logged == old(logged)
      ensures ok && r.Some? ==>
                && r.value == |src| && Valid() && Written(sb, old(Now()), Now(), i, off, src) == true
                && Synced(sb, Now(), i)
                && |logged| <= |old(logged)| + Budget(off, |src|)
                && logged == before + {IBlock(sb, i)} && |before| < |old(logged)| + Budget(off, |src|)
      ensures ok ==> base == old(base) && (old(Traced()) == true ==> Traced() == true)
      ensures ok && r.Some? && old(Traced()) == true ==>
                stores != [] && before == Elements(Numbers(stores[..|stores| - 1]))
    {
      r, before := None, logged;
      Wraps(off, |src|);
      if off > inodes[i].size || (off + |src|) % 0x1_0000_0000 < off {
        return true, None, logged;
      }
      if off + |src| > MAXBYTES {
        return true, None, logged;
      }
      ok, before := WriteAt(i, off, src);
      if ok {
        r := Some(|src|);
      }
    }

    /** writei when the bytes fit into the file. */
    method WriteAt(i: nat, off: nat, src: seq<Byte>) returns (ok: bool, ghost before: set<nat>)
      requires Valid() && i < sb.ninodes && off <= inodes[i].size && off + |src| <= MAXBYTES
      modifies this
      ensures !ok ==> Full(sb, blocks) == true
      ensures ok ==> Valid() && Written(sb, old(Now()), Now(), i, off, src) == true && Synced(sb, Now(), i)
      ensures ok ==> logged == before + {IBlock(sb, i)} && |before| < |old(logged)| + Budget(off, |src|)
      ensures ok ==> base == old(base) && (old(Traced()) == true ==> Traced() == true)
      ensures ok && old(Traced()) == true ==> stores != [] && before == Elements(Numbers(stores[..|stores| - 1]))
    {
      ghost var s, log, gained := Now(), |logged|, 0;
      StartWriting(sb, s, i, off, src, owner, logged);
      ok, gained := WriteAll(s, log, i, off, src);
      before := logged;
      if ok {
        WroteAll(sb, s, log, i, off, src, gained, Now(), owner, logged);
        Finish(s, Now(), i, off, src);
      }
    }

    /** One transaction of filewrite: bytes k .. end of src, at file offset pos. */
    method FileChunk(ghost s: State, i: nat, ghost off: nat, src: seq<Byte>, k: nat, pos: Word, end: nat)
      returns (ok: bool, r: Option<nat>, ghost before: set<nat>)
      requires Filing(sb, s, i, off, src, k, Now(), owner) == true && i < |s.inodes|
      requires pos == off + k && k < end <= k + 3072 && end <= |src| < 0x8000_0000
      modifies this
      ensures !ok ==> Full(sb, blocks) == true
      ensures ok ==> |logged| <= 10 && (r.None? <==> off > s.inodes[i].size || off + end > MAXBYTES)
      ensures ok && r.None? ==>
                Now() == old(Now()) && owner == old(owner) && Filing(sb, s, i, off, src, k, Now(), owner) == true
      ensures ok && r.Some? ==> r.value == end - k && Filing(sb, s, i, off, src, end, Now(), owner) == true
      ensures ok && r.Some? ==> logged == before + {IBlock(sb, i)} && |before| < 10
      ensures ok && r.Some? ==> base == old(blocks) && Traced() == Affordable(stores, 10) == true
    {
      ghost var t, own := Now(), owner;
      base, stores, logged := blocks, [], {};  // begin_op
      assert Traced();
      var piece := src[k..end];
      ok, r, before := Writei(i, pos, piece);
      if ok && r.Some? {
        ChunkFits(pos, |piece|);
        AffordableBut(stores, 10);
        FilingMore(sb, s, i, off, src, k, t, own, pos, end, piece, Now(), owner);
      }
    }

    /** The loop of filewrite, which writes n bytes of src at the file offset, each chunk in its
        own transaction; `done` bytes are written in the end, in `chunks` chunks, and `peak` is
        the most blocks any of them logged. It stops early just when the next chunk would not
        fit into a file, or if the offset was past the end. */
    method FileWrite(i: nat, off: Word, src: seq<Byte>, n: int)
      returns (ok: bool, ret: int, newOff: Word, ghost done: nat, ghost peak: nat, ghost chunks: nat)
      requires Valid() && i < sb.ninodes && n <= |src| < 0x8000_0000
      modifies this
      ensures !ok ==> Full(sb, blocks) == true
      ensures ok ==>
                peak <= 10 && newOff == off + done &&
                Filing(sb, old(Now()), i, off, src, done, Now(), owner) == true
      ensures ok && n >= 0 ==> (ret == n <==> n == 0 || (off <= old(inodes)[i].size && off + n <= MAXBYTES))
      ensures ok && n >= 0 ==> (ret == n <==> done == n)
      ensures ok && (n < 0 || ret != n) ==> ret == -1
      ensures ok && n >= 0 && ret != n && off <= old(inodes)[i].size ==>
                done == 3072 * chunks < n && newOff + Chunk(n - done) > MAXBYTES
    {
      ghost var s := Now();
      var k: nat := 0;
      newOff, peak, chunks, ok := off, 0, 0, true;
      FilingStart(sb, s, i, off, src, owner);
      while k < n
        invariant (k == 0 || k <= n) && newOff == off + k && peak <= 10
        invariant k < n ==> k == 3072 * chunks
        invariant Filing(sb, s, i, off, src, k, Now(), owner) == true
      {
        var end := k + Chunk(n - k);
        var r;
        ghost var before;
        ok, r, before := FileChunk(s, i, off, src, k, newOff, end);
        if !ok {
          return false, 0, newOff, k, peak, chunks;
        }
        peak := if |logged| > peak then |logged| else peak;
        if r.None? {
          break;
        }
        k, newOff, chunks := end, newOff + r.value, chunks + 1;
      }
      done, ret := k, if k == n then n else -1;
    }

    // ---------- truncation ----------

    /** One step of itrunc: the block a in slot k of the file, if there is one, is freed. */
    method FreeSlot(ghost s: State, i: nat, ghost k: nat, a: nat)
      requires Inv(sb, s, owner) && i < sb.ninodes && k < SLOTS && a == Addr(sb, s, i, k)
      requires Freed(sb, s, blocks, owner, i, Rank(k)) == true
      modifies this`blocks, this`logged, this`stores
      ensures Freed(sb, s, blocks, owner, i, Rank(k) + 1) == true
      ensures logged <= old(logged) + BitmapOf(sb, owner, i)
    {
      StillMarked(sb, s, blocks, owner, i, k);
      if a != 0 {
        Bfree(a);
        assert a in BlocksOf(owner, i);
      }
      FreeStep(sb, s, old(blocks), owner, i, k, blocks);
    }

    /** The first loop of itrunc. */
    method FreeDirect(ghost s: State, i: nat)
      requires Inv(sb, s, owner) && i < sb.ninodes && Now() == s
      modifies this`blocks, this`inodes, this`logged, this`stores
      ensures Freed(sb, s, blocks, owner, i, NDIRECT) == true
      ensures inodes == s.inodes[i := s.inodes[i].(addrs := ZeroTo(s.inodes[i].addrs, NDIRECT))]
      ensures logged <= old(logged) + BitmapOf(sb, owner, i)
    {
      var k := 0;
      assert ZeroTo(s.inodes[i].addrs, 0) == s.inodes[i].addrs;
      while k < NDIRECT
        invariant k <= NDIRECT && Freed(sb, s, blocks, owner, i, k) == true
        invariant inodes == s.inodes[i := s.inodes[i].(addrs := ZeroTo(s.inodes[i].addrs, k))]
        invariant logged <= old(logged) + BitmapOf(sb, owner, i)
      {
        var a := inodes[i].addrs[k];
        FreeSlot(s, i, k, a);
        ZeroNext(s.inodes[i].addrs, k);
        assert Rank(k) == k;
        if a != 0 {
          inodes := inodes[i := SetAddr(inodes[i], k, 0)];
        }
        k := k + 1;
      }
    }

    /** The second loop of itrunc. */
    method FreeListed(ghost s: State, i: nat, bp: Block)
      requires Inv(sb, s, owner) && i < sb.ninodes && 0 < s.inodes[i].addrs[NDIRECT] < sb.size
      requires bp == s.blocks[s.inodes[i].addrs[NDIRECT]]
      requires Freed(sb, s, blocks, owner, i, NDIRECT) == true
      modifies this`blocks, this`logged, this`stores
      ensures Freed(sb, s, blocks, owner, i, 268) == true
      ensures logged <= old(logged) + BitmapOf(sb, owner, i)
    {
      var j := 0;
      while j < NINDIRECT
        invariant j <= NINDIRECT && Freed(sb, s, blocks, owner, i, NDIRECT + j) == true
        invariant logged <= old(logged) + BitmapOf(sb, owner, i)
      {
        FreeSlot(s, i, j + 13, GetWord(bp, j));
        j := j + 1;
      }
    }

    /** The indirect part of itrunc. */
    method FreeIndirect(ghost s: State, i: nat)
      requires Inv(sb, s, owner) && i < sb.ninodes && Freed(sb, s, blocks, owner, i, NDIRECT) == true
      requires inodes == s.inodes[i := s.inodes[i].(addrs := ZeroTo(s.inodes[i].addrs, NDIRECT))]
      modifies this`blocks, this`inodes, this`logged, this`stores
      ensures Freed(sb, s, blocks, owner, i, SLOTS) == true
      ensures inodes == s.inodes[i := s.inodes[i].(addrs := NoAddrs())]
      ensures logged <= old(logged) + BitmapOf(sb, owner, i)
    {
      var ind := inodes[i].addrs[NDIRECT];
      assert ind == Addr(sb, s, i, NDIRECT);
      ZeroNext(s.inodes[i].addrs, NDIRECT);
      if ind != 0 {
        assert ind in owner;
        FreeListed(s, i, blocks[ind]);
        FreeSlot(s, i, NDIRECT, ind);
        inodes := inodes[i := SetAddr(inodes[i], NDIRECT, 0)];
      } else {
        NoIndirect(sb, s, blocks, owner, i);
      }
    }

    /** All blocks of file i are given back. */
    method Release(i: nat)
      requires Valid() && i < sb.ninodes
      modifies this
      ensures Valid() && owner == old(owner) - BlocksOf(old(owner), i)
      ensures inodes == old(inodes)[i := old(inodes)[i].(size := 0, addrs := NoAddrs())]
      ensures forall c: nat {:trigger Marked(sb, blocks, c)} :: c < sb.size ==>
                (Marked(sb, blocks, c) <==> old(Marked(sb, blocks, c)) && c !in BlocksOf(old(owner), i))
      ensures forall j: nat {:trigger Contents(sb, Now(), j)} :: j < sb.ninodes ==>
                Contents(sb, Now(), j) == if j == i then [] else old(Contents(sb, Now(), j))
      ensures forall j: nat :: j < sb.ninodes && j != i && old(Synced(sb, Now(), j)) ==> Synced(sb, Now(), j)
      ensures logged <= old(logged) + BitmapOf(sb, old(owner), i)
    {
      ghost var s := Now();
      FreeDirect(s, i);
      FreeIndirect(s, i);
      inodes := inodes[i := inodes[i].(size := 0)];
      FreedAll(sb, s, Now(), owner, i);
      TruncatedOwned(sb, s, Now(), owner, i);
      forall j: nat | j < sb.ninodes
        ensures Contents(sb, Now(), j) == if j == i then [] else Contents(sb, s, j)
      {
        TruncatedContents(sb, s, Now(), owner, i, j);
      }
      owner := owner - BlocksOf(owner, i);
    }

    /** itrunc: file i becomes empty, the bits of its own blocks are cleared and no others, and
        no other file changes. */
    method Itrunc(i: nat)
      requires Valid() && i < sb.ninodes
      modifies this
      ensures Valid() && owner == old(owner) - BlocksOf(old(owner), i)
      ensures inodes == old(inodes)[i := old(inodes)[i].(size := 0, addrs := NoAddrs())]
      ensures forall c: nat {:trigger Marked(sb, blocks, c)} :: c < sb.size ==>
                (Marked(sb, blocks, c) <==> old(Marked(sb, blocks, c)) && c !in BlocksOf(old(owner), i))
      ensures forall j: nat {:trigger Contents(sb, Now(), j)} :: j < sb.ninodes ==>
                Contents(sb, Now(), j) == if j == i then [] else old(Contents(sb, Now(), j))
      ensures Synced(sb, Now(), i)
      ensures forall j: nat :: j < sb.ninodes && old(Synced(sb, Now(), j)) ==> Synced(sb, Now(), j)
      ensures logged <= old(logged) + BitmapOf(sb, old(owner), i) + {IBlock(sb, i)}
    {
      Release(i);
      ghost var t := Now();
      Iupdate(i);
      SameContents(sb, t, Now());
    }
  }

  lemma {:induction false} NoBits(k: nat)
    ensures !BitSet(0, k)
  {
    if k > 0 {
      NoBits(k - 1);
    }
  }

  lemma NoMarks(sb: Superblock, blocks: seq<Block>, c: nat)
    requires Fits(sb, blocks) && c < sb.size && blocks[BBlock(sb, c)] == ZeroBlock()
    ensures !Marked(sb, blocks, c)
  {
    NoBits(c % 8192 % 8);
  }

  /** A disk without files, as mkfs leaves it before it makes any: the blocks before the data area are
      marked, and nothing else is. */
  method Format(sb: Superblock) returns (fs: FileSystem)
    requires GoodLayout(sb)
    ensures fresh(fs) && fs.Valid() && fs.sb == sb && fs.owner == map[] && |fs.inodes| == sb.ninodes
    ensures forall i: nat :: i < sb.ninodes ==> fs.inodes[i] == Inode(0, 0, 0, 0, 0, NoAddrs())
    ensures forall b: nat :: b < sb.bmapstart ==> fs.blocks[b] == ZeroBlock()
  {
    var blocks: seq<Block> := seq(sb.size, i => ZeroBlock());
    forall c: nat | c < sb.size
      ensures !Marked(sb, blocks, c)
    {
      NoMarks(sb, blocks, c);
    }
    for b := 0 to sb.datastart
      invariant |blocks| == sb.size && forall c: nat :: c < sb.bmapstart ==> blocks[c] == ZeroBlock()
      invariant forall c: nat {:trigger Marked(sb, blocks, c)} :: c < sb.size ==> (Marked(sb, blocks, c) <==> c < b)
    {
      ghost var before := blocks;
      blocks := Mark(sb, blocks, b);
      forall c: nat | c < sb.size
        ensures Marked(sb, blocks, c) <==> c < b + 1
      {
        MarkExact(sb, before, b, c);
      }
    }
    var inodes := seq(sb.ninodes, i => Inode(0, 0, 0, 0, 0, NoAddrs()));
    assert Inv(sb, State(blocks, inodes), map[]);
    fs := new FileSystem(sb, blocks, inodes, map[]);
  }
}
