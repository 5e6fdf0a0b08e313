/** Where things lie on the disk, and the bitmap that says which blocks are used. */
module Bitmap {
  import opened Blocks

  const BITS_PER_BLOCK := 8192

  const INODES_PER_BLOCK := 16

  /** Where things lie: `size` blocks in all, inodes from `inodestart`, the bitmap from `bmapstart`, and file
      blocks from `dataStart`; every block before that is metadata and stays marked used. */
  datatype Layout = Layout(size: nat, inodestart: nat, bmapstart: nat, dataStart: nat) {
    ghost predicate Valid(n: nat) {
      && 0 < dataStart <= size <= n && n <= WORD_LIMIT
      && forall b: nat | b < size :: BitmapBlock(b) < dataStart
    }

    function BitmapBlock(b: nat): nat {
      b / BITS_PER_BLOCK + bmapstart
    }

    function InodeBlock(ino: nat): nat {
      ino / INODES_PER_BLOCK + inodestart
    }

    /** How many blocks the bitmap takes. */
    function BitmapLength(): nat {
      (size + BITS_PER_BLOCK - 1) / BITS_PER_BLOCK
    }
  }

  function Pow2(n: nat): nat {
    if n == 0 then 1 else 2 * Pow2(n - 1)
  }

  /** Whether `x & (1 << k)` is not zero. */
  predicate Bit(x: nat, k: nat) {
    if k == 0 then x % 2 == 1 else Bit(x / 2, k - 1)
  }

  /** `x | (1 << k)` or `x & ~(1 << k)`. */
  function PutBit(x: nat, k: nat, on: bool): nat {
    if k == 0 then x / 2 * 2 + (if on then 1 else 0) else x % 2 + 2 * PutBit(x / 2, k - 1, on)
  }

  lemma {:induction false} PutBitMeaning(x: nat, k: nat, on: bool, j: nat)
    ensures Bit(PutBit(x, k, on), j) <==> if j == k then on else Bit(x, j)
  {
    if k == 0 {
      assert PutBit(x, k, on) / 2 == x / 2;
    } else {
      var rest := PutBit(x / 2, k - 1, on);
      assert PutBit(x, k, on) / 2 == rest && PutBit(x, k, on) % 2 == x % 2;
      if j > 0 {
        PutBitMeaning(x / 2, k - 1, on, j - 1);
      }
    }
  }

  lemma {:induction false} PutBitBound(x: nat, k: nat, on: bool, n: nat)
    requires k < n && x < Pow2(n)
    ensures PutBit(x, k, on) < Pow2(n)
  {
    if k > 0 {
      PutBitBound(x / 2, k - 1, on, n - 1);
    }
  }

  // ---------- the bitmap of a disk ----------

  predicate Used(l: Layout, d: seq<Block>, b: nat)
    requires l.BitmapBlock(b) < |d|
  {
    var bit := b % BITS_PER_BLOCK;
    Bit(d[l.BitmapBlock(b)][bit / 8], bit % 8)
  }

  function MarkByte(x: Byte, k: nat, used: bool): Byte
    requires k < 8
  {
    assert Pow2(8) == 256;
    PutBitBound(x, k, used, 8);
    PutBit(x, k, used)
  }

  /** The disk with block `b` marked. */
  function Marked(l: Layout, d: seq<Block>, b: nat, used: bool): (r: seq<Block>)
    requires l.BitmapBlock(b) < |d|
    ensures |r| == |d|
    ensures forall c | 0 <= c < |d| && c != l.BitmapBlock(b) :: r[c] == d[c]
  {
    var bit := b % BITS_PER_BLOCK;
    var old_ := d[l.BitmapBlock(b)];
    d[l.BitmapBlock(b) := old_[bit / 8 := MarkByte(old_[bit / 8], bit % 8, used)]]
  }

  /** Marking a block changes its own mark and no other. */
  lemma MarkedMeaning(l: Layout, d: seq<Block>, b: nat, used: bool, c: nat)
    requires l.BitmapBlock(b) < |d| && l.BitmapBlock(c) < |d|
    ensures Used(l, Marked(l, d, b, used), c) <==> if c == b then used else Used(l, d, c)
  {
    var bit, bitc := b % BITS_PER_BLOCK, c % BITS_PER_BLOCK;
    if l.BitmapBlock(b) == l.BitmapBlock(c) && bit / 8 == bitc / 8 {
      PutBitMeaning(d[l.BitmapBlock(b)][bit / 8], bit % 8, used, bitc % 8);
      assert bit % 8 == bitc % 8 <==> b == c;
    }
  }
}
