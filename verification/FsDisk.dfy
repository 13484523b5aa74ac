/** The on-disk structures of the file system inside plain blocks: the free bitmap, one bit
    per block, and the table of 64-byte inodes. */
module FsDisk {
  import opened Blocks

  const NDIRECT: nat := 12
  const NINDIRECT: nat := NWORDS
  const MAXFILE: nat := NDIRECT + NINDIRECT
  const IPB: nat := 16          // inodes in a block
  const INODEWORDS: nat := 16   // words in an inode
  // BPB, the bits in a block, is 8192; divisions are written with the numbers themselves

  type Half = h: int | 0 <= h < 0x1_0000

  /** The part of the super block that says where things are; `datastart` is the first block
      after the bitmap. */
  datatype Superblock = Superblock(size: nat, ninodes: nat, inodestart: nat, bmapstart: nat, datastart: nat)

  predicate GoodLayout(sb: Superblock) {
    && 0 < sb.inodestart && sb.inodestart + sb.ninodes / 16 + 1 <= sb.bmapstart
    && sb.bmapstart + sb.size / 8192 + 1 <= sb.datastart <= sb.size < 0x1_0000_0000
  }

  /** The block of the bitmap with the bit of block b. */
  function BBlock(sb: Superblock, b: nat): (r: nat) {
    b / 8192 + sb.bmapstart
  }

  /** The block of the inode table with inode i. */
  function IBlock(sb: Superblock, i: nat): (r: nat) {
    i / 16 + sb.inodestart
  }

  // ---------- bits of a byte ----------

  /** The k-th binary digit of x: (x & (1 << k)) != 0. */
  predicate BitSet(x: nat, k: nat) {
    if k == 0 then x % 2 == 1 else BitSet(x / 2, k - 1)
  }

  /** x | (1 << k) */
  function WithBit(x: nat, k: nat): (r: nat)
    ensures BitSet(r, k)
    ensures forall j: nat :: j != k ==> BitSet(r, j) == BitSet(x, j)
  {
    if k == 0 then (if x % 2 == 1 then x else x + 1)
    else 2 * WithBit(x / 2, k - 1) + x % 2
  }

  /** x & ~(1 << k) */
  function WithoutBit(x: nat, k: nat): (r: nat)
    ensures r <= x && !BitSet(r, k)
    ensures forall j: nat :: j != k ==> BitSet(r, j) == BitSet(x, j)
  {
    if k == 0 then (if x % 2 == 1 then x - 1 else x)
    else 2 * WithoutBit(x / 2, k - 1) + x % 2
  }

  function Exp2(n: nat): (r: nat) {
    if n == 0 then 1 else 2 * Exp2(n - 1)
  }

  lemma {:induction false} WithBitFits(x: nat, k: nat, n: nat)
    requires x < Exp2(n) && k < n
    ensures WithBit(x, k) < Exp2(n)
  {
    if k > 0 {
      WithBitFits(x / 2, k - 1, n - 1);
    }
  }

  function SetBit(x: Byte, k: nat): (r: Byte)
    requires k < 8
    ensures r == WithBit(x, k)
  {
    assert Exp2(8) == 256 by {
      assert Exp2(3) == 8 && Exp2(6) == 64;
    }
    WithBitFits(x, k, 8);
    WithBit(x, k)
  }

  // ---------- the bitmap ----------

  predicate Fits(sb: Superblock, blocks: seq<Block>) {
    GoodLayout(sb) && |blocks| == sb.size
  }

  predicate Marked(sb: Superblock, blocks: seq<Block>, b: nat)
    requires Fits(sb, blocks) && b < sb.size
  {
    var bi := b % 8192;
    BitSet(blocks[BBlock(sb, b)][bi / 8], bi % 8)
  }

  function Mark(sb: Superblock, blocks: seq<Block>, b: nat): (r: seq<Block>)
    requires Fits(sb, blocks) && b < sb.size
    ensures |r| == |blocks|
  {
    var bb, bi := BBlock(sb, b), b % 8192;
    blocks[bb := blocks[bb][bi / 8 := SetBit(blocks[bb][bi / 8], bi % 8)]]
  }

  function Unmark(sb: Superblock, blocks: seq<Block>, b: nat): (r: seq<Block>)
    requires Fits(sb, blocks) && b < sb.size
    ensures |r| == |blocks|
  {
    var bb, bi := BBlock(sb, b), b % 8192;
    var x: Byte := WithoutBit(blocks[bb][bi / 8], bi % 8);
    blocks[bb := blocks[bb][bi / 8 := x]]
  }

  /** Two blocks share a byte of the bitmap and a bit in it only if they are the same. */
  lemma BitPlace(b: nat, c: nat)
    requires b / 8192 == c / 8192 && b % 8192 / 8 == c % 8192 / 8 && b % 8192 % 8 == c % 8192 % 8
    ensures b == c
  {
    var p, q := b % 8192, c % 8192;
    assert p == 8 * (p / 8) + p % 8 && q == 8 * (q / 8) + q % 8;
  }

  lemma MarkExact(sb: Superblock, blocks: seq<Block>, b: nat, c: nat)
    requires Fits(sb, blocks) && b < sb.size && c < sb.size
    ensures Marked(sb, Mark(sb, blocks, b), c) <==> c == b || Marked(sb, blocks, c)
    ensures Marked(sb, Unmark(sb, blocks, b), c) <==> c != b && Marked(sb, blocks, c)
  {
    if b != c && b / 8192 == c / 8192 && b % 8192 / 8 == c % 8192 / 8 && b % 8192 % 8 == c % 8192 % 8 {
      BitPlace(b, c);
    }
  }

  /** The bitmap lies between the inode table and the data area. */
  lemma Regions(sb: Superblock, b: nat, i: nat)
    requires GoodLayout(sb) && b < sb.size && i < sb.ninodes
    ensures sb.bmapstart <= BBlock(sb, b) < sb.datastart
    ensures sb.inodestart <= IBlock(sb, i) < sb.bmapstart
  {
  }

  // ---------- the inode table ----------

  /** struct dinode; the halves are the bit patterns of its shorts. */
  datatype Inode = Inode(kind: Half, major: Half, minor: Half, nlink: Half, size: Word, addrs: seq<Word>)

  function Pack(x: Inode): (ws: seq<Word>)
    requires |x.addrs| == NDIRECT + 1
    ensures |ws| == INODEWORDS
  {
    var w0: int, w1: int := x.kind + 0x1_0000 * x.major as int, x.minor + 0x1_0000 * x.nlink as int;
    [w0, w1, x.size] + x.addrs
  }

  function Unpack(ws: seq<Word>): (x: Inode)
    requires |ws| == INODEWORDS
    ensures |x.addrs| == NDIRECT + 1
  {
    Inode(ws[0] % 0x1_0000, ws[0] / 0x1_0000, ws[1] % 0x1_0000, ws[1] / 0x1_0000, ws[2], ws[3..])
  }

  lemma UnpackPack(x: Inode)
    requires |x.addrs| == NDIRECT + 1
    ensures Unpack(Pack(x)) == x
  {
    assert Pack(x)[3..] == x.addrs;
  }

  function GetWords(b: Block, w: nat, n: nat): (ws: seq<Word>)
    requires w + n <= NWORDS
    ensures |ws| == n && forall k :: 0 <= k < n ==> ws[k] == GetWord(b, w + k)
  {
    if n == 0 then [] else GetWords(b, w, n - 1) + [GetWord(b, w + n - 1)]
  }

  function PutWords(b: Block, w: nat, ws: seq<Word>, k: nat): (r: Block)
    requires k <= |ws| && w + |ws| <= NWORDS
    ensures forall j: nat :: j < NWORDS ==>
              GetWord(r, j) == if w <= j < w + k then ws[j - w] else GetWord(b, j)
  {
    if k == 0 then b else PutWord(PutWords(b, w, ws, k - 1), w + k - 1, ws[k - 1])
  }

  lemma GetPutSame(b: Block, w: nat, ws: seq<Word>)
    requires w + |ws| <= NWORDS
    ensures GetWords(PutWords(b, w, ws, |ws|), w, |ws|) == ws
  {
    var r := PutWords(b, w, ws, |ws|);
    assert forall k :: 0 <= k < |ws| ==> GetWords(r, w, |ws|)[k] == GetWord(r, w + k);
  }

  lemma GetPutApart(b: Block, w: nat, ws: seq<Word>, v: nat, n: nat)
    requires w + |ws| <= NWORDS && v + n <= NWORDS && (v + n <= w || w + |ws| <= v)
    ensures GetWords(PutWords(b, w, ws, |ws|), v, n) == GetWords(b, v, n)
  {
    var r := PutWords(b, w, ws, |ws|);
    assert forall k :: 0 <= k < n ==> GetWords(r, v, n)[k] == GetWords(b, v, n)[k];
  }

  /** The p-th of the inodes in a block. */
  function GetSlot(b: Block, p: nat): (x: Inode)
    requires p < IPB
    ensures |x.addrs| == NDIRECT + 1
  {
    Unpack(GetWords(b, 16 * p, INODEWORDS))
  }

  lemma SlotsIndependent(b: Block, p: nat, x: Inode)
    requires p < IPB && |x.addrs| == NDIRECT + 1
    ensures var r := PutWords(b, 16 * p, Pack(x), |Pack(x)|);
            GetSlot(r, p) == x && forall q: nat :: q < IPB && q != p ==> GetSlot(r, q) == GetSlot(b, q)
  {
    var r := PutWords(b, 16 * p, Pack(x), |Pack(x)|);
    GetPutSame(b, 16 * p, Pack(x));
    UnpackPack(x);
    forall q: nat | q < IPB && q != p
      ensures GetSlot(r, q) == GetSlot(b, q)
    {
      GetPutApart(b, 16 * p, Pack(x), 16 * q, INODEWORDS);
    }
  }

  function PutSlot(b: Block, p: nat, x: Inode): (r: Block)
    requires p < IPB && |x.addrs| == NDIRECT + 1
    ensures GetSlot(r, p) == x
    ensures forall q: nat :: q < IPB && q != p ==> GetSlot(r, q) == GetSlot(b, q)
  {
    SlotsIndependent(b, p, x);
    PutWords(b, 16 * p, Pack(x), |Pack(x)|)
  }

  function GetInode(sb: Superblock, blocks: seq<Block>, i: nat): (x: Inode)
    requires Fits(sb, blocks) && i < sb.ninodes
    ensures |x.addrs| == NDIRECT + 1
  {
    GetSlot(blocks[IBlock(sb, i)], i % 16)
  }

  function PutInode(sb: Superblock, blocks: seq<Block>, i: nat, x: Inode): (r: seq<Block>)
    requires Fits(sb, blocks) && i < sb.ninodes && |x.addrs| == NDIRECT + 1
    ensures |r| == |blocks|
  {
    blocks[IBlock(sb, i) := PutSlot(blocks[IBlock(sb, i)], i % 16, x)]
  }

  lemma SlotsApart(i: nat, j: nat)
    requires i / 16 == j / 16 && i != j
    ensures i % 16 != j % 16
  {
  }

  /** iupdate followed by the copy in ilock gives the inode back, and leaves the others alone. */
  lemma InodeRoundTrip(sb: Superblock, blocks: seq<Block>, i: nat, x: Inode, j: nat)
    requires Fits(sb, blocks) && i < sb.ninodes && j < sb.ninodes && |x.addrs| == NDIRECT + 1
    ensures GetInode(sb, PutInode(sb, blocks, i, x), j) == if j == i then x else GetInode(sb, blocks, j)
  {
    if j != i && i / 16 == j / 16 {
      SlotsApart(i, j);
    }
  }
}
