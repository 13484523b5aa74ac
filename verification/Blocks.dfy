/** Disk blocks as byte strings, and the little-endian 32-bit words that the
    kernel reads and writes in them through casts to `uint*` and `struct logheader*`. */
module Blocks {

  const BSIZE: nat := 1024
  const NWORDS: nat := 256

  type Byte = x: int | 0 <= x < 256
  type Word = w: int | 0 <= w < 0x1_0000_0000
  type Block = b: seq<Byte> | |b| == BSIZE witness seq(BSIZE, i => 0)

  function ZeroBlock(): (b: Block)
    ensures forall k :: 0 <= k < BSIZE ==> b[k] == 0
  {
    seq(BSIZE, i => 0)
  }

  /** The number that a string of bytes stands for, least significant byte first. */
  function Number(bytes: seq<Byte>): (n: nat) {
    if |bytes| == 0 then 0 else bytes[0] as int + 0x100 * Number(bytes[1..])
  }

  function Digits(n: nat, len: nat): (bytes: seq<Byte>)
    ensures |bytes| == len
  {
    if len == 0 then [] else [n % 0x100] + Digits(n / 0x100, len - 1)
  }

  function Power(len: nat): (p: nat)
    ensures p > 0
  {
    if len == 0 then 1 else 0x100 * Power(len - 1)
  }

  lemma {:induction false} NumberOfDigits(n: nat, len: nat)
    requires n < Power(len)
    ensures Number(Digits(n, len)) == n
  {
    if len > 0 {
      NumberOfDigits(n / 0x100, len - 1);
      assert Digits(n, len)[1..] == Digits(n / 0x100, len - 1);
    }
  }

  lemma {:induction false} NumberBound(bytes: seq<Byte>)
    ensures Number(bytes) < Power(|bytes|)
  {
    if |bytes| > 0 {
      NumberBound(bytes[1..]);
    }
  }

  lemma {:induction false} NumberOfZeros(bytes: seq<Byte>)
    requires forall k :: 0 <= k < |bytes| ==> bytes[k] == 0
    ensures Number(bytes) == 0
  {
    if |bytes| > 0 {
      NumberOfZeros(bytes[1..]);
    }
  }

  lemma ZeroWord(i: nat)
    requires i < NWORDS
    ensures GetWord(ZeroBlock(), i) == 0
  {
    NumberOfZeros(ZeroBlock()[4 * i..4 * i + 4]);
  }

  lemma PowerOfFour()
    ensures Power(4) == 0x1_0000_0000
  {
    assert Power(2) == 0x1_0000;
  }

  function GetWord(b: Block, i: nat): (w: Word)
    requires i < NWORDS
  {
    NumberBound(b[4 * i..4 * i + 4]);
    PowerOfFour();
    Number(b[4 * i..4 * i + 4])
  }

  function PutWord(b: Block, i: nat, w: Word): (r: Block)
    requires i < NWORDS
    ensures GetWord(r, i) == w
    ensures forall j: nat :: j < NWORDS && j != i ==> GetWord(r, j) == GetWord(b, j)
  {
    PowerOfFour();
    NumberOfDigits(w, 4);
    var len := 4;
    var r: Block := b[..4 * i] + Digits(w, len) + b[4 * i + 4..];
    assert r[4 * i..4 * i + 4] == Digits(w, len);
    assert forall j: nat {:trigger GetWord(b, j)} :: j < NWORDS && j != i ==>
      r[4 * j..4 * j + 4] == b[4 * j..4 * j + 4];
    r
  }
}
