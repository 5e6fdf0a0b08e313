/** Inodes on the disk: sixteen records to a block, each a device number, the size, the addresses, and the
    type and link count. */
module Inodes {
  import opened Blocks
  import opened Bitmap
  import opened Files

  const RECORD_WORDS := WORDS_PER_BLOCK / INODES_PER_BLOCK

  /** What a record's words can hold. */
  predicate Storable(x: DiskInode) {
    x.size < WORD_LIMIT && forall j | 0 <= j <= DIRECT :: x.addrs[j] < WORD_LIMIT
  }

  function GetWords(b: Block, at: nat, n: nat): (ws: seq<nat>)
    requires at + n <= WORDS_PER_BLOCK
    ensures |ws| == n && forall j | 0 <= j < n :: ws[j] == GetWord(b, at + j)
  {
    if n == 0 then [] else GetWords(b, at, n - 1) + [GetWord(b, at + n - 1)]
  }

  /** The `k`-th record of an inode block. */
  function GetInode(b: Block, k: nat): DiskInode
    requires k < INODES_PER_BLOCK
  {
    RawInode(GetWords(b, RECORD_WORDS * k + 2, DIRECT + 1), GetWord(b, RECORD_WORDS * k + 1))
  }

  function PutAddrs(b: Block, at: nat, addrs: seq<nat>, n: nat): Block
    requires n <= |addrs| && at + n <= WORDS_PER_BLOCK && forall j | 0 <= j < |addrs| :: addrs[j] < WORD_LIMIT
  {
    if n == 0 then b else SetWord(PutAddrs(b, at, addrs, n - 1), at + n - 1, addrs[n - 1])
  }

  /** A record given a new size and new addresses; the device, the type and the link count stay. */
  function PutInode(b: Block, k: nat, x: DiskInode): Block
    requires k < INODES_PER_BLOCK && Storable(x)
  {
    PutAddrs(SetWord(b, RECORD_WORDS * k + 1, x.size), RECORD_WORDS * k + 2, x.addrs, DIRECT + 1)
  }

  lemma {:induction false} PutAddrsAt(b: Block, at: nat, addrs: seq<nat>, n: nat, j: nat)
    requires n <= |addrs| && at + n <= WORDS_PER_BLOCK && forall j | 0 <= j < |addrs| :: addrs[j] < WORD_LIMIT
    requires j < WORDS_PER_BLOCK
    ensures GetWord(PutAddrs(b, at, addrs, n), j) == if at <= j < at + n then addrs[j - at] else GetWord(b, j)
  {
    hide GetWord, SetWord;
    if n > 0 {
      PutAddrsAt(b, at, addrs, n - 1, j);
      WordRoundTrip(PutAddrs(b, at, addrs, n - 1), at + n - 1, addrs[n - 1], j);
    }
  }

  /** Only the record's own size and address words change, and they are the new ones. */
  lemma PutInodeWord(b: Block, k: nat, x: DiskInode, j: nat)
    requires k < INODES_PER_BLOCK && Storable(x) && j < WORDS_PER_BLOCK
    ensures var at := RECORD_WORDS * k;
            GetWord(PutInode(b, k, x), j) == if j == at + 1 then x.size
                                             else if at + 2 <= j < at + 3 + DIRECT then x.addrs[j - at - 2]
                                             else GetWord(b, j)
  {
    hide GetWord, SetWord, PutAddrs;
    PutAddrsAt(SetWord(b, RECORD_WORDS * k + 1, x.size), RECORD_WORDS * k + 2, x.addrs, DIRECT + 1, j);
    WordRoundTrip(b, RECORD_WORDS * k + 1, x.size, j);
  }

  /** A record stored is read back, and no other record of the block changes. */
  lemma InodeRoundTrip(b: Block, k: nat, x: DiskInode, j: nat)
    requires k < INODES_PER_BLOCK && j < INODES_PER_BLOCK && Storable(x)
    ensures GetInode(PutInode(b, k, x), j) == if j == k then x else GetInode(b, j)
  {
    hide GetWord, PutInode;
    var at := RECORD_WORDS * j;
    var got, want := GetInode(PutInode(b, k, x), j), if j == k then x else GetInode(b, j);
    PutInodeWord(b, k, x, at + 1);
    forall i | 0 <= i <= DIRECT ensures got.addrs[i] == want.addrs[i] {
      PutInodeWord(b, k, x, at + 2 + i);
    }
    assert got.addrs == want.addrs;
  }

  // ---------- the inodes of a disk ----------

  /** The first `n` inodes as the disk's blocks hold them. */
  function InodesOn(l: Layout, d: seq<Block>, n: nat): (r: seq<DiskInode>)
    requires forall i: nat | i < n :: l.InodeBlock(i) < |d|
    ensures |r| == n
  {
    seq(n, i requires 0 <= i < n => GetInode(d[l.InodeBlock(i)], i % INODES_PER_BLOCK))
  }

  /** Inode.update: the inode's record in its block. */
  function Updated(l: Layout, d: seq<Block>, ino: nat, x: DiskInode): (r: seq<Block>)
    requires l.InodeBlock(ino) < |d| && Storable(x)
    ensures |r| == |d| && forall b | 0 <= b < |d| && b != l.InodeBlock(ino) :: r[b] == d[b]
  {
    d[l.InodeBlock(ino) := PutInode(d[l.InodeBlock(ino)], ino % INODES_PER_BLOCK, x)]
  }

  /** Then the disk's inodes are as before, but for this one. */
  lemma UpdatedInodes(l: Layout, d: seq<Block>, n: nat, ino: nat, x: DiskInode)
    requires (forall i: nat | i < n :: l.InodeBlock(i) < |d|) && ino < n && Storable(x)
    ensures InodesOn(l, Updated(l, d, ino, x), n) == InodesOn(l, d, n)[ino := x]
  {
    hide GetInode, PutInode;
    forall i: nat | i < n ensures InodesOn(l, Updated(l, d, ino, x), n)[i] == InodesOn(l, d, n)[ino := x][i] {
      InodeRoundTrip(d[l.InodeBlock(ino)], ino % INODES_PER_BLOCK, x, i % INODES_PER_BLOCK);
      if l.InodeBlock(i) == l.InodeBlock(ino) {
        SameRecord(ino, i);
      }
    }
  }

  lemma SameRecord(i: nat, j: nat)
    requires i / INODES_PER_BLOCK == j / INODES_PER_BLOCK
    ensures i % INODES_PER_BLOCK == j % INODES_PER_BLOCK <==> i == j
  {
  }

  lemma SameInodes(l: Layout, d: seq<Block>, d': seq<Block>, n: nat)
    requires |d'| == |d| && forall i: nat | i < n :: l.InodeBlock(i) < |d| && d'[l.InodeBlock(i)] == d[l.InodeBlock(i)]
    ensures InodesOn(l, d', n) == InodesOn(l, d, n)
  {
  }

  /** An inode block of zeroes holds empty inodes. */
  lemma ZeroInode(k: nat)
    requires k < INODES_PER_BLOCK
    ensures GetInode(ZeroBlock(), k) == EMPTY_INODE
  {
    forall j: nat | j < WORDS_PER_BLOCK ensures GetWord(ZeroBlock(), j) == 0 {
    }
    assert GetInode(ZeroBlock(), k).addrs == EMPTY_INODE.addrs;
  }
}
