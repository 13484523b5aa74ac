/** Which block belongs to which place of which file. Every file is a table of 269 slots: 12
    direct blocks, the indirect block, and the 256 blocks listed in it. */
module FsTree {
  import opened Blocks
  import opened FsDisk

  const SLOTS: nat := 269
  const MAXBYTES: nat := 274432   // MAXFILE * BSIZE

  /** The block array as the log layer presents it, and every inode as its holder sees it. */
  datatype State = State(blocks: seq<Block>, inodes: seq<Inode>)

  /** A place that can hold a block number. */
  datatype Place = Place(inum: nat, slot: nat)

  ghost predicate Good(sb: Superblock, s: State) {
    && Fits(sb, s.blocks) && |s.inodes| == sb.ninodes
    && (forall i :: 0 <= i < |s.inodes| ==> |s.inodes[i].addrs| == NDIRECT + 1)
  }

  /** The slot of the bn-th data block. */
  function Slot(bn: nat): (k: nat) {
    if bn < NDIRECT then bn else bn + 1
  }

  function Indirect(b: Block, k: nat): (a: Word)
    requires NDIRECT < k < SLOTS
  {
    GetWord(b, k - 13)
  }

  ghost function Addr(sb: Superblock, s: State, i: nat, k: nat): (a: Word)
    requires Good(sb, s) && i < sb.ninodes && k < SLOTS
  {
    var addrs := s.inodes[i].addrs;
    if k <= NDIRECT then addrs[k]
    else if 0 < addrs[NDIRECT] < sb.size then Indirect(s.blocks[addrs[NDIRECT]], k)
    else 0
  }

  /** The byte at offset o of file i; 0 where no block is allocated. */
  ghost function Peek(sb: Superblock, s: State, i: nat, o: nat): (x: Byte)
    requires Good(sb, s) && i < sb.ninodes && o < MAXBYTES
  {
    var a := Addr(sb, s, i, Slot(o / 1024));
    if 0 < a < sb.size then s.blocks[a][o % 1024] else 0
  }

  /** File i as a string of bytes. */
  ghost function Contents(sb: Superblock, s: State, i: nat): (r: seq<Byte>)
    requires Good(sb, s) && i < sb.ninodes && s.inodes[i].size <= MAXBYTES
  {
    seq(s.inodes[i].size, o requires 0 <= o < s.inodes[i].size => Peek(sb, s, i, o))
  }

  /** c with src written over it from position off on. */
  function Overwrite(c: seq<Byte>, off: nat, src: seq<Byte>): (r: seq<Byte>)
    requires off <= |c|
  {
    c[..off] + src + (if off + |src| < |c| then c[off + |src|..] else [])
  }

  lemma OverwriteAt(c: seq<Byte>, off: nat, src: seq<Byte>)
    requires off <= |c|
    ensures var r := Overwrite(c, off, src);
            && |r| == (if off + |src| > |c| then off + |src| else |c|)
            && forall o :: 0 <= o < |r| ==> r[o] == if off <= o < off + |src| then src[o - off] else c[o]
  {
  }

  /** Every block number in use is written down in exactly one place, owner[b]; the bitmap
      marks exactly those blocks and the ones before the data area. */
  ghost predicate Owned(sb: Superblock, s: State, owner: map<nat, Place>)
    requires Good(sb, s)
  {
    && (forall i: nat, k: nat :: i < sb.ninodes && k < SLOTS && Addr(sb, s, i, k) != 0 ==>
          Addr(sb, s, i, k) in owner && owner[Addr(sb, s, i, k)] == Place(i, k))
    && (forall b: nat :: b in owner ==>
          && sb.datastart <= b < sb.size
          && owner[b].inum < sb.ninodes && owner[b].slot < SLOTS
          && Addr(sb, s, owner[b].inum, owner[b].slot) == b)
    && (forall b: nat {:trigger Marked(sb, s.blocks, b)} :: b < sb.size ==>
          (Marked(sb, s.blocks, b) <==> b < sb.datastart || b in owner))
  }

  /** No file is too long, and no block below its size is missing. */
  ghost predicate Filled(sb: Superblock, s: State)
    requires Good(sb, s)
  {
    && (forall i :: 0 <= i < |s.inodes| ==> s.inodes[i].size <= MAXBYTES)
    && (forall i: nat, bn: nat :: i < sb.ninodes && bn < MAXFILE && 1024 * bn < s.inodes[i].size ==>
          Addr(sb, s, i, Slot(bn)) != 0)
  }

  ghost predicate Inv(sb: Superblock, s: State, owner: map<nat, Place>) {
    Good(sb, s) && Owned(sb, s, owner) && Filled(sb, s)
  }

  /** The inode table on disk has inode i as its holder sees it. */
  ghost predicate Synced(sb: Superblock, s: State, i: nat)
    requires Good(sb, s) && i < sb.ninodes
  {
    GetInode(sb, s.blocks, i) == s.inodes[i]
  }

  /** No two places hold the same block. */
  lemma PlacesDistinct(sb: Superblock, s: State, owner: map<nat, Place>, p: Place, q: Place)
    requires Inv(sb, s, owner)
    requires p.inum < sb.ninodes && p.slot < SLOTS && q.inum < sb.ninodes && q.slot < SLOTS && p != q
    ensures Addr(sb, s, p.inum, p.slot) == 0 || Addr(sb, s, p.inum, p.slot) != Addr(sb, s, q.inum, q.slot)
  {
    var a, b := Addr(sb, s, p.inum, p.slot), Addr(sb, s, q.inum, q.slot);
    assert a != 0 ==> a in owner && owner[a] == p;
    assert b != 0 ==> b in owner && owner[b] == q;
  }

  // ---------- changes of the state ----------

  /** The same places hold the same blocks in s and t, except perhaps p, which holds b in t. */
  ghost predicate AddrsBut(sb: Superblock, s: State, t: State, p: Place, b: nat)
    requires Good(sb, s) && Good(sb, t)
  {
    forall i: nat, k: nat :: i < sb.ninodes && k < SLOTS ==>
      Addr(sb, t, i, k) == if Place(i, k) == p then b else Addr(sb, s, i, k)
  }

  ghost predicate SameSizes(s: State, t: State)
    requires |s.inodes| == |t.inodes|
  {
    forall i :: 0 <= i < |s.inodes| ==> t.inodes[i].size == s.inodes[i].size
  }

  ghost predicate SameBytes(sb: Superblock, s: State, t: State)
    requires Good(sb, s) && Good(sb, t)
  {
    forall i: nat, o: nat {:trigger Peek(sb, t, i, o)} :: i < sb.ninodes && o < MAXBYTES ==>
          Peek(sb, t, i, o) == Peek(sb, s, i, o)
  }

  /** What an allocation for file i keeps: every byte, every size, every block already in
      place, and all of the other files. */
  ghost predicate Kept(sb: Superblock, s: State, t: State, i: nat)
    requires Good(sb, s) && Good(sb, t)
  {
    && SameBytes(sb, s, t) && SameSizes(s, t)
    && (forall j: nat, k: nat {:trigger Addr(sb, t, j, k)} ::
          j < sb.ninodes && k < SLOTS && (j != i || Addr(sb, s, j, k) != 0) ==>
          Addr(sb, t, j, k) == Addr(sb, s, j, k))
    && (forall j: nat :: j < sb.ninodes && j != i && Synced(sb, s, j) ==> Synced(sb, t, j))
  }

  lemma KeptTransitive(sb: Superblock, s: State, t: State, u: State, i: nat)
    requires Good(sb, s) && Good(sb, t) && Good(sb, u) && Kept(sb, s, t, i) && Kept(sb, t, u, i)
    ensures Kept(sb, s, u, i)
  {
    forall j: nat, k: nat | j < sb.ninodes && k < SLOTS && (j != i || Addr(sb, s, j, k) != 0)
      ensures Addr(sb, u, j, k) == Addr(sb, s, j, k)
    {
      assert Addr(sb, t, j, k) == Addr(sb, s, j, k);
    }
    forall j: nat, o: nat | j < sb.ninodes && o < MAXBYTES
      ensures Peek(sb, u, j, o) == Peek(sb, s, j, o)
    {
      assert Peek(sb, t, j, o) == Peek(sb, s, j, o);
    }
    assert forall j: nat :: j < sb.ninodes && j != i && Synced(sb, s, j) ==> Synced(sb, t, j);
  }

  /** A free block has been marked and put into the empty place p. */
  lemma InvGain(sb: Superblock, s: State, t: State, owner: map<nat, Place>, p: Place, b: nat)
    requires Inv(sb, s, owner) && Good(sb, t) && SameSizes(s, t) && AddrsBut(sb, s, t, p, b)
    requires p.inum < sb.ninodes && p.slot < SLOTS && Addr(sb, s, p.inum, p.slot) == 0
    requires sb.datastart <= b < sb.size && !Marked(sb, s.blocks, b)
    requires forall c: nat :: c < sb.size ==> (Marked(sb, t.blocks, c) <==> c == b || Marked(sb, s.blocks, c))
    ensures Inv(sb, t, owner[b := p])
  {
    var o' := owner[b := p];
    assert b !in owner;
    forall i: nat, k: nat | i < sb.ninodes && k < SLOTS && Addr(sb, t, i, k) != 0
      ensures Addr(sb, t, i, k) in o' && o'[Addr(sb, t, i, k)] == Place(i, k)
    {
      assert Place(i, k) != p ==> Addr(sb, t, i, k) == Addr(sb, s, i, k);
    }
    forall c: nat | c in o'
      ensures sb.datastart <= c < sb.size && o'[c].inum < sb.ninodes && o'[c].slot < SLOTS
      ensures Addr(sb, t, o'[c].inum, o'[c].slot) == c
    {
      if c != b {
        assert Addr(sb, s, owner[c].inum, owner[c].slot) == c;
      }
    }
  }

  // ---------- what balloc does to the blocks ----------

  function AllocBlock(sb: Superblock, blocks: seq<Block>, b: nat): (r: seq<Block>)
    requires Fits(sb, blocks) && b < sb.size
    ensures |r| == |blocks|
  {
    Mark(sb, blocks, b)[b := ZeroBlock()]
  }

  lemma AllocBlockExact(sb: Superblock, blocks: seq<Block>, b: nat)
    requires Fits(sb, blocks) && sb.datastart <= b < sb.size
    ensures var r := AllocBlock(sb, blocks, b);
            && r[b] == ZeroBlock()
            && (forall c: nat :: sb.datastart <= c < sb.size && c != b ==> r[c] == blocks[c])
            && (forall c: nat :: c < sb.size ==> (Marked(sb, r, c) <==> c == b || Marked(sb, blocks, c)))
            && (forall i: nat :: i < sb.ninodes ==> GetInode(sb, r, i) == GetInode(sb, blocks, i))
  {
    var r := AllocBlock(sb, blocks, b);
    assert sb.bmapstart <= BBlock(sb, b) < sb.datastart;
    forall c: nat | c < sb.size
      ensures Marked(sb, r, c) <==> c == b || Marked(sb, blocks, c)
    {
      MarkExact(sb, blocks, b, c);
      assert sb.bmapstart <= BBlock(sb, c) < sb.datastart;
    }
    forall i: nat | i < sb.ninodes
      ensures GetInode(sb, r, i) == GetInode(sb, blocks, i)
    {
      Regions(sb, b, i);
    }
  }

  function SetAddr(x: Inode, k: nat, b: Word): (r: Inode)
    requires |x.addrs| == NDIRECT + 1 && k <= NDIRECT
    ensures |r.addrs| == NDIRECT + 1 && r.size == x.size
  {
    x.(addrs := x.addrs[k := b])
  }

  /** A fresh block in a direct slot, or as the indirect block. */
  ghost function GainDirect(sb: Superblock, s: State, i: nat, k: nat, b: nat): (t: State)
    requires Good(sb, s) && i < sb.ninodes && k <= NDIRECT && b < sb.size
    ensures Good(sb, t)
  {
    State(AllocBlock(sb, s.blocks, b), s.inodes[i := SetAddr(s.inodes[i], k, b)])
  }

  lemma GainDirectAddrs(sb: Superblock, s: State, owner: map<nat, Place>, i: nat, k: nat, b: nat)
    requires Inv(sb, s, owner) && i < sb.ninodes && k <= NDIRECT && Addr(sb, s, i, k) == 0
    requires sb.datastart <= b < sb.size && !Marked(sb, s.blocks, b)
    ensures AddrsBut(sb, s, GainDirect(sb, s, i, k, b), Place(i, k), b)
  {
    var t := GainDirect(sb, s, i, k, b);
    AllocBlockExact(sb, s.blocks, b);
    forall j: nat, l: nat | j < sb.ninodes && l < SLOTS
      ensures Addr(sb, t, j, l) == if Place(j, l) == Place(i, k) then b else Addr(sb, s, j, l)
    {
      if l > NDIRECT {
        ZeroWord(l - 13);
        var ind := Addr(sb, s, j, NDIRECT);
        assert ind != 0 ==> ind in owner;
      }
    }
  }

  /** Putting a zeroed block into an empty place shows in no file. */
  lemma GainShowsNothing(sb: Superblock, s: State, t: State, owner: map<nat, Place>, p: Place, b: nat)
    requires Inv(sb, s, owner) && Good(sb, t) && AddrsBut(sb, s, t, p, b)
    requires p.inum < sb.ninodes && p.slot < SLOTS && Addr(sb, s, p.inum, p.slot) == 0
    requires b < sb.size && t.blocks[b] == ZeroBlock()
    requires forall i: nat, bn: nat :: i < sb.ninodes && bn < MAXFILE && Addr(sb, s, i, Slot(bn)) != 0 ==>
               t.blocks[Addr(sb, s, i, Slot(bn))] == s.blocks[Addr(sb, s, i, Slot(bn))]
    ensures SameBytes(sb, s, t)
  {
    forall i: nat, o: nat | i < sb.ninodes && o < MAXBYTES
      ensures Peek(sb, t, i, o) == Peek(sb, s, i, o)
    {
      var bn := o / 1024;
      var a := Addr(sb, s, i, Slot(bn));
      assert a != 0 ==> a in owner;
      assert Addr(sb, t, i, Slot(bn)) == if Place(i, Slot(bn)) == p then b else a;
    }
  }

  lemma GainDirectOk(sb: Superblock, s: State, owner: map<nat, Place>, i: nat, k: nat, b: nat)
    requires Inv(sb, s, owner) && i < sb.ninodes && k <= NDIRECT && Addr(sb, s, i, k) == 0
    requires sb.datastart <= b < sb.size && !Marked(sb, s.blocks, b)
    ensures var t := GainDirect(sb, s, i, k, b);
            && Inv(sb, t, owner[b := Place(i, k)]) && AddrsBut(sb, s, t, Place(i, k), b)
            && Kept(sb, s, t, i)
  {
    var t := GainDirect(sb, s, i, k, b);
    AllocBlockExact(sb, s.blocks, b);
    GainDirectAddrs(sb, s, owner, i, k, b);
    InvGain(sb, s, t, owner, Place(i, k), b);
    forall j: nat, bn: nat | j < sb.ninodes && bn < MAXFILE && Addr(sb, s, j, Slot(bn)) != 0
      ensures t.blocks[Addr(sb, s, j, Slot(bn))] == s.blocks[Addr(sb, s, j, Slot(bn))]
    {
      assert Addr(sb, s, j, Slot(bn)) in owner;
    }
    GainShowsNothing(sb, s, t, owner, Place(i, k), b);
  }

  /** A fresh block listed in the indirect block of file i. */
  ghost function GainIndirect(sb: Superblock, s: State, i: nat, k: nat, b: nat): (t: State)
    requires Good(sb, s) && i < sb.ninodes && NDIRECT < k < SLOTS && b < sb.size
    requires s.inodes[i].addrs[NDIRECT] < sb.size
    ensures Good(sb, t)
  {
    var ind := s.inodes[i].addrs[NDIRECT];
    s.(blocks := AllocBlock(sb, s.blocks, b)[ind := PutWord(s.blocks[ind], k - 13, b)])
  }

  lemma GainIndirectAddrs(sb: Superblock, s: State, owner: map<nat, Place>, i: nat, k: nat, b: nat)
    requires Inv(sb, s, owner) && i < sb.ninodes && NDIRECT < k < SLOTS
    requires Addr(sb, s, i, k) == 0 && 0 < s.inodes[i].addrs[NDIRECT] < sb.size
    requires sb.datastart <= b < sb.size && !Marked(sb, s.blocks, b)
    ensures AddrsBut(sb, s, GainIndirect(sb, s, i, k, b), Place(i, k), b)
  {
    var t := GainIndirect(sb, s, i, k, b);
    var ind := s.inodes[i].addrs[NDIRECT];
    AllocBlockExact(sb, s.blocks, b);
    assert ind == Addr(sb, s, i, NDIRECT);
    forall j: nat, l: nat | j < sb.ninodes && l < SLOTS
      ensures Addr(sb, t, j, l) == if Place(j, l) == Place(i, k) then b else Addr(sb, s, j, l)
    {
      if l > NDIRECT {
        var jnd := Addr(sb, s, j, NDIRECT);
        assert jnd != 0 ==> jnd in owner && owner[jnd] == Place(j, NDIRECT);
        assert j != i ==> jnd != ind;
      }
    }
  }

  lemma GainIndirectOk(sb: Superblock, s: State, owner: map<nat, Place>, i: nat, k: nat, b: nat)
    requires Inv(sb, s, owner) && i < sb.ninodes && NDIRECT < k < SLOTS
    requires Addr(sb, s, i, k) == 0 && 0 < s.inodes[i].addrs[NDIRECT] < sb.size
    requires sb.datastart <= b < sb.size && !Marked(sb, s.blocks, b)
    ensures var t := GainIndirect(sb, s, i, k, b);
            && Inv(sb, t, owner[b := Place(i, k)]) && AddrsBut(sb, s, t, Place(i, k), b)
            && Kept(sb, s, t, i)
  {
    var t := GainIndirect(sb, s, i, k, b);
    var ind := s.inodes[i].addrs[NDIRECT];
    GainIndirectAddrs(sb, s, owner, i, k, b);
    assert ind == Addr(sb, s, i, NDIRECT) && ind in owner;
    GainIndirectBlocks(sb, s, owner, i, k, b);
    InvGain(sb, s, t, owner, Place(i, k), b);
    forall j: nat, bn: nat | j < sb.ninodes && bn < MAXFILE && Addr(sb, s, j, Slot(bn)) != 0
      ensures t.blocks[Addr(sb, s, j, Slot(bn))] == s.blocks[Addr(sb, s, j, Slot(bn))]
    {
      assert owner[Addr(sb, s, j, Slot(bn))] == Place(j, Slot(bn)) && owner[ind] == Place(i, NDIRECT);
    }
    GainShowsNothing(sb, s, t, owner, Place(i, k), b);
  }

  lemma GainIndirectBlocks(sb: Superblock, s: State, owner: map<nat, Place>, i: nat, k: nat, b: nat)
    requires Good(sb, s) && Owned(sb, s, owner) && i < sb.ninodes && NDIRECT < k < SLOTS
    requires s.inodes[i].addrs[NDIRECT] in owner && sb.datastart <= b < sb.size && b !in owner
    ensures s.inodes[i].addrs[NDIRECT] < sb.size
    ensures var t, ind := GainIndirect(sb, s, i, k, b), s.inodes[i].addrs[NDIRECT];
            && t.blocks[b] == ZeroBlock()
            && (forall c: nat :: c in owner && c != ind ==> t.blocks[c] == s.blocks[c])
            && (forall c: nat :: c < sb.size ==> (Marked(sb, t.blocks, c) <==> c == b || Marked(sb, s.blocks, c)))
            && (forall j: nat :: j < sb.ninodes && Synced(sb, s, j) ==> Synced(sb, t, j))
  {
    var ind := s.inodes[i].addrs[NDIRECT];
    AllocBlockExact(sb, s.blocks, b);
    DataWrite(sb, AllocBlock(sb, s.blocks, b), ind, PutWord(s.blocks[ind], k - 13, b));
  }

  /** A write in the data area changes neither the bitmap nor the inode table. */
  lemma DataWrite(sb: Superblock, blocks: seq<Block>, a: nat, x: Block)
    requires Fits(sb, blocks) && sb.datastart <= a < sb.size
    ensures forall c: nat :: c < sb.size ==> Marked(sb, blocks[a := x], c) == Marked(sb, blocks, c)
    ensures forall i: nat :: i < sb.ninodes ==> GetInode(sb, blocks[a := x], i) == GetInode(sb, blocks, i)
  {
    forall c: nat | c < sb.size
      ensures Marked(sb, blocks[a := x], c) == Marked(sb, blocks, c)
    {
      assert BBlock(sb, c) < sb.datastart;
    }
    forall i: nat | i < sb.ninodes
      ensures GetInode(sb, blocks[a := x], i) == GetInode(sb, blocks, i)
    {
      assert IBlock(sb, i) < sb.datastart;
    }
  }

  // ---------- writing data, sizes and inodes ----------

  /** Nothing the invariant looks at differs between s and t. */
  lemma InvSame(sb: Superblock, s: State, t: State, owner: map<nat, Place>)
    requires Inv(sb, s, owner) && Good(sb, t) && SameSizes(s, t)
    requires forall i: nat, k: nat :: i < sb.ninodes && k < SLOTS ==> Addr(sb, t, i, k) == Addr(sb, s, i, k)
    requires forall c: nat :: c < sb.size ==> Marked(sb, t.blocks, c) == Marked(sb, s.blocks, c)
    ensures Inv(sb, t, owner)
  {
    forall b: nat | b in owner
      ensures Addr(sb, t, owner[b].inum, owner[b].slot) == b
    {
      assert Addr(sb, s, owner[b].inum, owner[b].slot) == b;
    }
  }

  lemma StoreAddrs(sb: Superblock, s: State, owner: map<nat, Place>, a: nat, x: Block)
    requires Inv(sb, s, owner) && a in owner && owner[a].slot != NDIRECT
    ensures forall j: nat, k: nat :: j < sb.ninodes && k < SLOTS ==>
              Addr(sb, s.(blocks := s.blocks[a := x]), j, k) == Addr(sb, s, j, k)
  {
    forall j: nat, k: nat | j < sb.ninodes && k < SLOTS
      ensures Addr(sb, s.(blocks := s.blocks[a := x]), j, k) == Addr(sb, s, j, k)
    {
      var jnd := Addr(sb, s, j, NDIRECT);
      assert jnd != 0 ==> jnd in owner && owner[jnd] == Place(j, NDIRECT);
    }
  }

  /** Storing x in the bn-th block of file i changes just those bytes of that file. */
  lemma StoreOk(sb: Superblock, s: State, owner: map<nat, Place>, i: nat, bn: nat, x: Block)
    requires Inv(sb, s, owner) && i < sb.ninodes && bn < MAXFILE && Addr(sb, s, i, Slot(bn)) != 0
    ensures Addr(sb, s, i, Slot(bn)) < sb.size
    ensures var t := s.(blocks := s.blocks[Addr(sb, s, i, Slot(bn)) := x]);
            && Inv(sb, t, owner)
            && (forall j: nat, k: nat :: j < sb.ninodes && k < SLOTS ==> Addr(sb, t, j, k) == Addr(sb, s, j, k))
            && (forall j: nat :: j < sb.ninodes && Synced(sb, s, j) ==> Synced(sb, t, j))
            && (forall j: nat, o: nat :: j < sb.ninodes && o < MAXBYTES ==>
                  Peek(sb, t, j, o) == if j == i && o / 1024 == bn then x[o % 1024] else Peek(sb, s, j, o))
  {
    var a := Addr(sb, s, i, Slot(bn));
    assert a in owner && owner[a] == Place(i, Slot(bn));
    var t := s.(blocks := s.blocks[a := x]);
    DataWrite(sb, s.blocks, a, x);
    StoreAddrs(sb, s, owner, a, x);
    InvSame(sb, s, t, owner);
    forall j: nat, o: nat | j < sb.ninodes && o < MAXBYTES
      ensures Peek(sb, t, j, o) == if j == i && o / 1024 == bn then x[o % 1024] else Peek(sb, s, j, o)
    {
      StoreByte(sb, s, t, owner, Place(i, Slot(bn)), j, o);
    }
  }

  lemma StoreByte(sb: Superblock, s: State, t: State, owner: map<nat, Place>, p: Place, j: nat, o: nat)
    requires Inv(sb, s, owner) && Good(sb, t) && j < sb.ninodes && o < MAXBYTES
    requires p.inum < sb.ninodes && p.slot < SLOTS && Addr(sb, s, p.inum, p.slot) != 0
    requires forall k: nat :: k < SLOTS ==> Addr(sb, t, j, k) == Addr(sb, s, j, k)
    requires forall c: nat :: c < sb.size && c != Addr(sb, s, p.inum, p.slot) ==> t.blocks[c] == s.blocks[c]
    ensures Place(j, Slot(o / 1024)) != p ==> Peek(sb, t, j, o) == Peek(sb, s, j, o)
    ensures Place(j, Slot(o / 1024)) == p ==>
              var a := Addr(sb, s, p.inum, p.slot); a < sb.size && Peek(sb, t, j, o) == t.blocks[a][o % 1024]
  {
    var c, a := Addr(sb, s, j, Slot(o / 1024)), Addr(sb, s, p.inum, p.slot);
    assert c != 0 ==> c in owner && owner[c] == Place(j, Slot(o / 1024));
    assert a in owner && owner[a] == p;
  }

  /** A longer size, once the blocks below it are all there. */
  lemma ResizeOk(sb: Superblock, s: State, owner: map<nat, Place>, i: nat, size: Word)
    requires Inv(sb, s, owner) && i < sb.ninodes && size <= MAXBYTES
    requires forall bn: nat :: bn < MAXFILE && 1024 * bn < size ==> Addr(sb, s, i, Slot(bn)) != 0
    ensures var t := s.(inodes := s.inodes[i := s.inodes[i].(size := size)]);
            && Inv(sb, t, owner) && SameBytes(sb, s, t)
            && (forall j: nat :: j < sb.ninodes && j != i && Synced(sb, s, j) ==> Synced(sb, t, j))
  {
    var t := s.(inodes := s.inodes[i := s.inodes[i].(size := size)]);
    assert forall j: nat, k: nat :: j < sb.ninodes && k < SLOTS ==> Addr(sb, t, j, k) == Addr(sb, s, j, k);
    forall b: nat | b in owner
      ensures Addr(sb, t, owner[b].inum, owner[b].slot) == b
    {
      assert Addr(sb, s, owner[b].inum, owner[b].slot) == b;
    }
    assert forall j: nat, o: nat :: j < sb.ninodes && o < MAXBYTES ==> Peek(sb, t, j, o) == Peek(sb, s, j, o);
  }

  /** A write to the inode table changes neither the bitmap nor the data area. */
  lemma TableWrite(sb: Superblock, blocks: seq<Block>, i: nat, x: Block)
    requires Fits(sb, blocks) && i < sb.ninodes
    ensures IBlock(sb, i) < sb.datastart
    ensures forall c: nat :: c < sb.size ==> Marked(sb, blocks[IBlock(sb, i) := x], c) == Marked(sb, blocks, c)
  {
    forall c: nat | c < sb.size
      ensures Marked(sb, blocks[IBlock(sb, i) := x], c) == Marked(sb, blocks, c)
    {
      Regions(sb, c, i);
    }
  }

  lemma TableAddrs(sb: Superblock, s: State, t: State, owner: map<nat, Place>)
    requires Inv(sb, s, owner) && Good(sb, t) && t.inodes == s.inodes
    requires forall c: nat :: sb.datastart <= c < sb.size ==> t.blocks[c] == s.blocks[c]
    ensures forall j: nat, k: nat :: j < sb.ninodes && k < SLOTS ==> Addr(sb, t, j, k) == Addr(sb, s, j, k)
    ensures SameBytes(sb, s, t)
  {
    forall j: nat, k: nat | j < sb.ninodes && k < SLOTS
      ensures Addr(sb, t, j, k) == Addr(sb, s, j, k)
    {
      var jnd := Addr(sb, s, j, NDIRECT);
      assert jnd != 0 ==> jnd in owner;
    }
    forall j: nat, o: nat | j < sb.ninodes && o < MAXBYTES
      ensures Peek(sb, t, j, o) == Peek(sb, s, j, o)
    {
      var c := Addr(sb, s, j, Slot(o / 1024));
      assert c != 0 ==> c in owner;
    }
  }

  lemma TableSynced(sb: Superblock, s: State, i: nat)
    requires Good(sb, s) && i < sb.ninodes
    ensures var t := s.(blocks := PutInode(sb, s.blocks, i, s.inodes[i]));
            Synced(sb, t, i) && forall j: nat :: j < sb.ninodes && Synced(sb, s, j) ==> Synced(sb, t, j)
  {
    var t := s.(blocks := PutInode(sb, s.blocks, i, s.inodes[i]));
    forall j: nat | j < sb.ninodes && (Synced(sb, s, j) || j == i)
      ensures Synced(sb, t, j)
    {
      InodeRoundTrip(sb, s.blocks, i, s.inodes[i], j);
    }
  }

  /** iupdate. */
  lemma UpdateOk(sb: Superblock, s: State, owner: map<nat, Place>, i: nat)
    requires Inv(sb, s, owner) && i < sb.ninodes
    ensures var t := s.(blocks := PutInode(sb, s.blocks, i, s.inodes[i]));
            && Inv(sb, t, owner) && SameBytes(sb, s, t) && Synced(sb, t, i)
            && (forall j: nat :: j < sb.ninodes && Synced(sb, s, j) ==> Synced(sb, t, j))
  {
    var t := s.(blocks := PutInode(sb, s.blocks, i, s.inodes[i]));
    TableWrite(sb, s.blocks, i, t.blocks[IBlock(sb, i)]);
    assert t.blocks == s.blocks[IBlock(sb, i) := t.blocks[IBlock(sb, i)]];
    TableAddrs(sb, s, t, owner);
    InvSame(sb, s, t, owner);
    TableSynced(sb, s, i);
  }

  // ---------- truncation ----------

  function NoAddrs(): (r: seq<Word>)
    ensures |r| == NDIRECT + 1 && forall k :: 0 <= k <= NDIRECT ==> r[k] == 0
  {
    [0, 0, 0, 0, 0, 0, 0, 0, 0, 0, 0, 0, 0]
  }

  /** The blocks of file i in the ownership map. */
  ghost function BlocksOf(owner: map<nat, Place>, i: nat): (r: set<nat>) {
    set b | b in owner && owner[b].inum == i
  }

  /** t is s with exactly the blocks of file i unmarked and its table emptied. */
  ghost predicate Truncated(sb: Superblock, s: State, t: State, owner: map<nat, Place>, i: nat)
    requires Good(sb, s) && Good(sb, t) && i < sb.ninodes
  {
    && t.inodes == s.inodes[i := s.inodes[i].(size := 0, addrs := NoAddrs())]
    && (forall c: nat :: c < sb.size ==>
          (Marked(sb, t.blocks, c) <==> Marked(sb, s.blocks, c) && c !in BlocksOf(owner, i)))
    && (forall c: nat :: sb.datastart <= c < sb.size ==> t.blocks[c] == s.blocks[c])
  }

  lemma TruncatedAddrs(sb: Superblock, s: State, t: State, owner: map<nat, Place>, i: nat)
    requires Inv(sb, s, owner) && Good(sb, t) && i < sb.ninodes && Truncated(sb, s, t, owner, i)
    ensures forall j: nat, k: nat :: j < sb.ninodes && k < SLOTS ==>
              Addr(sb, t, j, k) == if j == i then 0 else Addr(sb, s, j, k)
  {
    forall j: nat, k: nat | j < sb.ninodes && k < SLOTS
      ensures Addr(sb, t, j, k) == if j == i then 0 else Addr(sb, s, j, k)
    {
      var jnd := Addr(sb, s, j, NDIRECT);
      assert jnd != 0 ==> jnd in owner;
    }
  }

  lemma TruncatedOwned(sb: Superblock, s: State, t: State, owner: map<nat, Place>, i: nat)
    requires Inv(sb, s, owner) && Good(sb, t) && i < sb.ninodes && Truncated(sb, s, t, owner, i)
    ensures Inv(sb, t, owner - BlocksOf(owner, i))
  {
    TruncatedAddrs(sb, s, t, owner, i);
    forall b: nat | b in owner && owner[b].inum != i
      ensures Addr(sb, t, owner[b].inum, owner[b].slot) == b
    {
      assert Addr(sb, s, owner[b].inum, owner[b].slot) == b;
    }
  }

  /** A truncation empties the one file and leaves the bytes of all others alone. */
  lemma TruncatedBytes(sb: Superblock, s: State, t: State, owner: map<nat, Place>, i: nat, j: nat, o: nat)
    requires Inv(sb, s, owner) && Good(sb, t) && i < sb.ninodes && Truncated(sb, s, t, owner, i)
    requires j < sb.ninodes && o < MAXBYTES
    ensures Peek(sb, t, j, o) == if j == i then 0 else Peek(sb, s, j, o)
  {
    TruncatedAddrs(sb, s, t, owner, i);
    var c := Addr(sb, s, j, Slot(o / 1024));
    assert c != 0 ==> c in owner;
  }

  /** The order in which itrunc comes to the slots: the direct blocks, the blocks listed in the
      indirect block, the indirect block itself. */
  function Rank(k: nat): (r: nat) {
    if k < NDIRECT then k else if k == NDIRECT then 268 else k - 1
  }

  /** itrunc has freed the first r slots of file i: of s just the bitmap has changed, and in
      the bitmap just those bits. */
  ghost predicate Freed(sb: Superblock, s: State, t: seq<Block>, owner: map<nat, Place>, i: nat, r: nat) {
    && Fits(sb, s.blocks) && Fits(sb, t)
    && (forall c: nat {:trigger Marked(sb, t, c)} :: c < sb.size ==>
          (Marked(sb, t, c) <==>
             Marked(sb, s.blocks, c) && !(c in owner && owner[c].inum == i && Rank(owner[c].slot) < r)))
    && (forall c: nat {:trigger t[c]} :: c < sb.size && !(sb.bmapstart <= c < sb.datastart) ==> t[c] == s.blocks[c])
  }

  /** The block about to be freed is still marked: bfree does not panic. */
  lemma StillMarked(sb: Superblock, s: State, t: seq<Block>, owner: map<nat, Place>, i: nat, k: nat)
    requires Inv(sb, s, owner) && i < sb.ninodes && k < SLOTS && Freed(sb, s, t, owner, i, Rank(k)) == true
    ensures var a := Addr(sb, s, i, k); a != 0 ==> a < sb.size && Marked(sb, t, a)
  {
    var a := Addr(sb, s, i, k);
    assert a != 0 ==> a in owner && owner[a] == Place(i, k) && Marked(sb, s.blocks, a);
  }

  lemma FreeStep(sb: Superblock, s: State, t: seq<Block>, owner: map<nat, Place>, i: nat, k: nat, u: seq<Block>)
    requires Inv(sb, s, owner) && i < sb.ninodes && k < SLOTS && Freed(sb, s, t, owner, i, Rank(k)) == true
    requires Addr(sb, s, i, k) < sb.size && u == if Addr(sb, s, i, k) == 0 then t else Unmark(sb, t, Addr(sb, s, i, k))
    ensures Freed(sb, s, u, owner, i, Rank(k) + 1)
  {
    var a := Addr(sb, s, i, k);
    assert a != 0 ==> a in owner && owner[a] == Place(i, k);
    forall c: nat | c < sb.size
      ensures Marked(sb, u, c) <==>
              Marked(sb, s.blocks, c) && !(c in owner && owner[c].inum == i && Rank(owner[c].slot) < Rank(k) + 1)
    {
      MarkExact(sb, t, a, c);
      if c in owner && owner[c].inum == i {
        RankNext(sb, s, owner, i, k, c);
      }
    }
    assert sb.bmapstart <= BBlock(sb, a) < sb.datastart;
  }

  /** One slot more is one block more. */
  lemma RankNext(sb: Superblock, s: State, owner: map<nat, Place>, i: nat, k: nat, c: nat)
    requires Inv(sb, s, owner) && i < sb.ninodes && k < SLOTS && c in owner && owner[c].inum == i
    ensures Rank(owner[c].slot) < Rank(k) + 1 <==> Rank(owner[c].slot) < Rank(k) || c == Addr(sb, s, i, k)
    ensures c != 0
  {
    assert Addr(sb, s, i, owner[c].slot) == c;
    var a := Addr(sb, s, i, k);
    assert a != 0 ==> a in owner && owner[a] == Place(i, k);
    assert owner[c].slot < SLOTS;
  }

  /** Without an indirect block there is nothing left after the direct blocks. */
  lemma NoIndirect(sb: Superblock, s: State, t: seq<Block>, owner: map<nat, Place>, i: nat)
    requires Inv(sb, s, owner) && i < sb.ninodes && s.inodes[i].addrs[NDIRECT] == 0
    requires Freed(sb, s, t, owner, i, NDIRECT) == true
    ensures Freed(sb, s, t, owner, i, SLOTS)
  {
    forall c: nat | c in owner && owner[c].inum == i
      ensures owner[c].slot < NDIRECT
    {
      assert Addr(sb, s, i, owner[c].slot) == c;
    }
  }

  /** With every slot freed and the table emptied the file is truncated. */
  lemma FreedAll(sb: Superblock, s: State, t: State, owner: map<nat, Place>, i: nat)
    requires Inv(sb, s, owner) && i < sb.ninodes && Freed(sb, s, t.blocks, owner, i, SLOTS) == true
    requires t.inodes == s.inodes[i := s.inodes[i].(size := 0, addrs := NoAddrs())]
    ensures Good(sb, t) && Truncated(sb, s, t, owner, i)
    ensures forall j: nat :: j < sb.ninodes && j != i && Synced(sb, s, j) ==> Synced(sb, t, j)
  {
    assert forall c :: c in owner ==> Rank(owner[c].slot) < SLOTS;
    forall j: nat | j < sb.ninodes && j != i && Synced(sb, s, j)
      ensures Synced(sb, t, j)
    {
      Regions(sb, 0, j);
    }
  }

  /** What is left of the other files, and of file i, when it has been truncated. */
  lemma TruncatedContents(sb: Superblock, s: State, t: State, owner: map<nat, Place>, i: nat, j: nat)
    requires Inv(sb, s, owner) && Good(sb, t) && i < sb.ninodes && Truncated(sb, s, t, owner, i) == true
    requires j < sb.ninodes
    ensures t.inodes[j].size <= MAXBYTES && Contents(sb, t, j) == if j == i then [] else Contents(sb, s, j)
  {
    if j != i {
      forall o: nat | o < MAXBYTES
        ensures Peek(sb, t, j, o) == Peek(sb, s, j, o)
      {
        TruncatedBytes(sb, s, t, owner, i, j, o);
      }
    }
  }
}
