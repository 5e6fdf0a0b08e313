module Wrappers {
  datatype Option<+T> = None | Some(value: T)

  lemma SubsetSize<T>(s: set<T>, t: set<T>)
    requires s <= t
    ensures |s| <= |t| && (|s| == |t| ==> s == t)
  {
    assert t == s + (t - s);
  }
}

/** Disk blocks: 1024 bytes, read and written as little-endian 32-bit words where
    the kernel casts a buffer to a structure of u32 fields. */
module Blocks {
  const BLOCK_SIZE := 1024
  const WORDS_PER_BLOCK := 256
  const WORD_LIMIT := 0x1_0000_0000

  type Byte = x: int | 0 <= x < 256
  type Word = x: int | 0 <= x < WORD_LIMIT
  type Block = b: seq<Byte> | |b| == BLOCK_SIZE witness seq(BLOCK_SIZE, i => 0)

  function ZeroBlock(): Block {
    seq(BLOCK_SIZE, i => 0)
  }

  function GetWord(b: Block, i: nat): Word
    requires i < WORDS_PER_BLOCK
  {
    var b0: int, b1: int, b2: int, b3: int := b[4 * i], b[4 * i + 1], b[4 * i + 2], b[4 * i + 3];
    b0 + 0x100 * b1 + 0x1_0000 * b2 + 0x100_0000 * b3
  }

  function SetWord(b: Block, i: nat, w: Word): Block
    requires i < WORDS_PER_BLOCK
  {
    b[4 * i := w % 0x100]
     [4 * i + 1 := w / 0x100 % 0x100]
     [4 * i + 2 := w / 0x100 / 0x100 % 0x100]
     [4 * i + 3 := w / 0x100 / 0x100 / 0x100]
  }

  /** A word written is read back, and no other word of the block changes. */
  lemma WordRoundTrip(b: Block, i: nat, w: Word, j: nat)
    requires i < WORDS_PER_BLOCK && j < WORDS_PER_BLOCK
    ensures GetWord(SetWord(b, i, w), j) == if i == j then w else GetWord(b, j)
  {
    var b' := SetWord(b, i, w);
    if i == j {
      assert b'[4 * i] == w % 0x100;
      assert b'[4 * i + 1] == w / 0x100 % 0x100;
      assert b'[4 * i + 2] == w / 0x100 / 0x100 % 0x100;
      assert b'[4 * i + 3] == w / 0x100 / 0x100 / 0x100;
    } else {
      assert b'[4 * j] == b[4 * j] && b'[4 * j + 1] == b[4 * j + 1];
      assert b'[4 * j + 2] == b[4 * j + 2] && b'[4 * j + 3] == b[4 * j + 3];
    }
  }
}
