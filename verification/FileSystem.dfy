/** Files: the block allocator, and inodes that map file blocks to disk blocks directly or through an
    indirect block. Contents are those the buffer cache presents. */
module Files {
  import opened Blocks
  import opened Bitmap
  import opened Wrappers

  const DIRECT := 12
  const INDIRECT := 256
  const MAX_BLOCKS := DIRECT + INDIRECT

  datatype RawInode = RawInode(addrs: seq<nat>, size: nat)
  type DiskInode = x: RawInode | |x.addrs| == DIRECT + 1 witness RawInode(seq(DIRECT + 1, i => 0), 0)

  const EMPTY_INODE: DiskInode := RawInode(seq(DIRECT + 1, i => 0), 0)

  /** The places of an inode that name a disk block. */
  datatype Slot =
    | Direct(ino: nat, k: nat)
    | Pointer(ino: nat)         // the indirect block itself
    | Indirect(ino: nat, k: nat)

  predicate IsSlot(n: nat, s: Slot) {
    && s.ino < n
    && match s case Direct(_, k) => k < DIRECT case Pointer(_) => true case Indirect(_, k) => k < INDIRECT
  }

  /** The block a slot names, 0 for none. */
  function BlockAt(d: seq<Block>, inodes: seq<DiskInode>, s: Slot): nat
    requires IsSlot(|inodes|, s)
  {
    match s
    case Direct(i, k) => inodes[i].addrs[k]
    case Pointer(i) => inodes[i].addrs[DIRECT]
    case Indirect(i, k) =>
      var p := inodes[i].addrs[DIRECT];
      if p == 0 || p >= |d| then 0 else GetWord(d[p], k)
  }

  /** The slot of an inode's `i`-th file block. */
  function FileSlot(ino: nat, i: nat): Slot {
    if i < DIRECT then Direct(ino, i) else Indirect(ino, i - DIRECT)
  }

  /** The contents of an inode's `i`-th file block, if it has one. */
  function DataAt(d: seq<Block>, inodes: seq<DiskInode>, ino: nat, i: nat): Option<Block>
    requires ino < |inodes| && i < MAX_BLOCKS
  {
    var b := BlockAt(d, inodes, FileSlot(ino, i));
    if b == 0 || b >= |d| then None else Some(d[b])
  }

  /** `owner` is the inverse of the slots: no block is named twice. */
  ghost predicate Mapped(l: Layout, d: seq<Block>, inodes: seq<DiskInode>, owner: map<nat, Slot>) {
    && (forall s | IsSlot(|inodes|, s) && BlockAt(d, inodes, s) != 0 ::
          BlockAt(d, inodes, s) in owner && owner[BlockAt(d, inodes, s)] == s)
    && (forall b | b in owner ::
          l.dataStart <= b < l.size && IsSlot(|inodes|, owner[b]) && BlockAt(d, inodes, owner[b]) == b)
  }

  /** Exactly the metadata, the mapped blocks and those in `extra` are marked used. */
  ghost predicate Accounted(l: Layout, d: seq<Block>, owner: map<nat, Slot>, extra: set<nat>)
    requires l.Valid(|d|)
  {
    forall b: nat | b < l.size :: Used(l, d, b) <==> b < l.dataStart || b in owner || b in extra
  }

  ghost predicate Consistent(l: Layout, d: seq<Block>, inodes: seq<DiskInode>, owner: map<nat, Slot>, extra: set<nat>) {
    l.Valid(|d|) && Mapped(l, d, inodes, owner) && Accounted(l, d, owner, extra)
  }

  /** Every slot names the same block, except that `s` now names `b`. */
  ghost predicate Renamed(d: seq<Block>, inodes: seq<DiskInode>, d': seq<Block>, inodes': seq<DiskInode>, s: Slot, b: nat) {
    && |inodes'| == |inodes| && |d'| == |d| && IsSlot(|inodes|, s)
    && (forall i | 0 <= i < |inodes| :: inodes'[i].size == inodes[i].size)
    && forall t | IsSlot(|inodes|, t) :: BlockAt(d', inodes', t) == if t == s then b else BlockAt(d, inodes, t)
  }

  lemma Named(l: Layout, d: seq<Block>, inodes: seq<DiskInode>, owner: map<nat, Slot>, s: Slot)
    requires Mapped(l, d, inodes, owner) && IsSlot(|inodes|, s) && BlockAt(d, inodes, s) != 0
    ensures var b := BlockAt(d, inodes, s);
            b in owner && owner[b] == s && l.dataStart <= b < l.size
  {
  }

  // ---------- changing the map ----------

  /** Blocks no inode names may change freely. */
  lemma OtherBlocks(l: Layout, d: seq<Block>, d': seq<Block>, inodes: seq<DiskInode>, owner: map<nat, Slot>)
    requires Mapped(l, d, inodes, owner) && |d'| == |d|
    requires forall b | b in owner && b < |d| :: d'[b] == d[b]
    ensures Mapped(l, d', inodes, owner)
    ensures forall s | IsSlot(|inodes|, s) :: BlockAt(d', inodes, s) == BlockAt(d, inodes, s)
    ensures forall ino, i | 0 <= ino < |inodes| && 0 <= i < MAX_BLOCKS :: DataAt(d', inodes, ino, i) == DataAt(d, inodes, ino, i)
  {
    forall s | IsSlot(|inodes|, s) ensures BlockAt(d', inodes, s) == BlockAt(d, inodes, s) {
      if s.Indirect? && inodes[s.ino].addrs[DIRECT] != 0 {
        assert BlockAt(d, inodes, Pointer(s.ino)) in owner;
      }
    }
    forall ino, i | 0 <= ino < |inodes| && 0 <= i < MAX_BLOCKS
      ensures DataAt(d', inodes, ino, i) == DataAt(d, inodes, ino, i)
    {
      var s := FileSlot(ino, i);
      assert IsSlot(|inodes|, s);
      assert BlockAt(d, inodes, s) != 0 ==> BlockAt(d, inodes, s) in owner;
    }
  }

  lemma RenamedMapped(l: Layout, d: seq<Block>, inodes: seq<DiskInode>, owner: map<nat, Slot>,
                      d': seq<Block>, inodes': seq<DiskInode>, s: Slot, b: nat)
    requires Mapped(l, d, inodes, owner) && Renamed(d, inodes, d', inodes', s, b)
    requires BlockAt(d, inodes, s) == 0 && b !in owner && 0 < l.dataStart <= b < l.size
    ensures Mapped(l, d', inodes', owner[b := s])
  {
    var owner' := owner[b := s];
    forall t | IsSlot(|inodes'|, t) && BlockAt(d', inodes', t) != 0
      ensures BlockAt(d', inodes', t) in owner' && owner'[BlockAt(d', inodes', t)] == t
    {
      assert t != s ==> BlockAt(d, inodes, t) in owner && owner[BlockAt(d, inodes, t)] == t;
    }
    forall c | c in owner'
      ensures l.dataStart <= c < l.size && IsSlot(|inodes'|, owner'[c]) && BlockAt(d', inodes', owner'[c]) == c
    {
      assert c != b ==> BlockAt(d, inodes, owner[c]) == c;
    }
  }

  function WithAddr(inodes: seq<DiskInode>, ino: nat, k: nat, b: nat): seq<DiskInode>
    requires ino < |inodes| && k <= DIRECT
  {
    inodes[ino := inodes[ino].(addrs := inodes[ino].addrs[k := b])]
  }

  lemma DirectRenamed(d: seq<Block>, inodes: seq<DiskInode>, ino: nat, k: nat, b: nat)
    requires ino < |inodes| && k < DIRECT
    ensures Renamed(d, inodes, d, WithAddr(inodes, ino, k, b), Direct(ino, k), b)
  {
  }

  /** A fresh indirect block names nothing. */
  lemma PointerRenamed(d: seq<Block>, inodes: seq<DiskInode>, ino: nat, b: nat)
    requires ino < |inodes| && inodes[ino].addrs[DIRECT] == 0 && b < |d| && d[b] == ZeroBlock()
    ensures Renamed(d, inodes, d, WithAddr(inodes, ino, DIRECT, b), Pointer(ino), b)
  {
    assert forall k: nat | k < INDIRECT :: GetWord(ZeroBlock(), k) == 0;
  }

  lemma IndirectRenamed(l: Layout, d: seq<Block>, inodes: seq<DiskInode>, owner: map<nat, Slot>, ino: nat, k: nat, b: nat)
    requires Mapped(l, d, inodes, owner) && l.Valid(|d|) && ino < |inodes| && k < INDIRECT && b < WORD_LIMIT
    requires inodes[ino].addrs[DIRECT] != 0
    ensures inodes[ino].addrs[DIRECT] < |d|
    ensures var p := inodes[ino].addrs[DIRECT];
            Renamed(d, inodes, d[p := SetWord(d[p], k, b)], inodes, Indirect(ino, k), b)
  {
    var p := inodes[ino].addrs[DIRECT];
    assert BlockAt(d, inodes, Pointer(ino)) in owner && owner[p] == Pointer(ino);
    var d' := d[p := SetWord(d[p], k, b)];
    forall t | IsSlot(|inodes|, t)
      ensures BlockAt(d', inodes, t) == if t == Indirect(ino, k) then b else BlockAt(d, inodes, t)
    {
      if t.Indirect? {
        if t.ino == ino {
          WordRoundTrip(d[p], k, b, t.k);
        } else if inodes[t.ino].addrs[DIRECT] != 0 {
          assert BlockAt(d, inodes, Pointer(t.ino)) in owner;
        }
      }
    }
  }

  /** A freshly allocated block becomes slot `s`'s. */
  lemma AdoptConsistent(l: Layout, d: seq<Block>, inodes: seq<DiskInode>, owner: map<nat, Slot>,
                        d': seq<Block>, inodes': seq<DiskInode>, s: Slot, b: nat)
    requires Consistent(l, d, inodes, owner, {b}) && Renamed(d, inodes, d', inodes', s, b)
    requires BlockAt(d, inodes, s) == 0 && b !in owner && l.dataStart <= b < l.size
    requires forall c | 0 <= c < l.dataStart :: d'[c] == d[c]
    ensures Consistent(l, d', inodes', owner[b := s], {})
  {
    RenamedMapped(l, d, inodes, owner, d', inodes', s, b);
    forall c: nat | c < l.size ensures Used(l, d', c) <==> Used(l, d, c) {
      assert l.BitmapBlock(c) < l.dataStart;
    }
  }

  /** Then only that slot's file block changes: it appears, zeroed. */
  lemma AdoptData(l: Layout, d: seq<Block>, inodes: seq<DiskInode>, owner: map<nat, Slot>,
                  d': seq<Block>, inodes': seq<DiskInode>, s: Slot, b: nat)
    requires Mapped(l, d, inodes, owner) && Renamed(d, inodes, d', inodes', s, b)
    requires 0 < b < |d| && d'[b] == ZeroBlock()
    requires forall c | c in owner && c < |d| && !owner[c].Pointer? :: d'[c] == d[c]
    ensures forall ino, i | 0 <= ino < |inodes| && 0 <= i < MAX_BLOCKS ::
              DataAt(d', inodes', ino, i)
              == if FileSlot(ino, i) == s then Some(ZeroBlock()) else DataAt(d, inodes, ino, i)
  {
    forall ino, i | 0 <= ino < |inodes| && 0 <= i < MAX_BLOCKS
      ensures DataAt(d', inodes', ino, i)
              == if FileSlot(ino, i) == s then Some(ZeroBlock()) else DataAt(d, inodes, ino, i)
    {
      var t := FileSlot(ino, i);
      assert IsSlot(|inodes|, t);
      assert BlockAt(d, inodes, t) != 0 ==> BlockAt(d, inodes, t) in owner && owner[BlockAt(d, inodes, t)] == t;
    }
  }

  /** Sizes are not part of the map. */
  lemma ResizedConsistent(l: Layout, d: seq<Block>, inodes: seq<DiskInode>, inodes': seq<DiskInode>,
                          owner: map<nat, Slot>, extra: set<nat>)
    requires Consistent(l, d, inodes, owner, extra)
    requires |inodes'| == |inodes| && forall i | 0 <= i < |inodes| :: inodes'[i].addrs == inodes[i].addrs
    ensures Consistent(l, d, inodes', owner, extra)
  {
    forall s | IsSlot(|inodes|, s) ensures BlockAt(d, inodes', s) == BlockAt(d, inodes, s) {
      SameBlockAt(d, inodes, inodes', s);
    }
  }

  // ---------- a file is a byte sequence ----------

  const MAX_BYTES := MAX_BLOCKS * BLOCK_SIZE

  function ByteAt(d: seq<Block>, inodes: seq<DiskInode>, ino: nat, p: nat): Option<Byte>
    requires ino < |inodes| && p < MAX_BYTES
  {
    match DataAt(d, inodes, ino, p / BLOCK_SIZE)
    case None => None
    case Some(data) => Some(data[p % BLOCK_SIZE])
  }

  /** No hole below the size. */
  ghost predicate Whole(d: seq<Block>, inodes: seq<DiskInode>, ino: nat)
    requires ino < |inodes|
  {
    inodes[ino].size <= MAX_BYTES && forall p: nat | p < inodes[ino].size :: ByteAt(d, inodes, ino, p).Some?
  }

  ghost function Content(d: seq<Block>, inodes: seq<DiskInode>, ino: nat): (c: seq<Byte>)
    requires ino < |inodes| && Whole(d, inodes, ino)
    ensures |c| == inodes[ino].size
    ensures forall p: nat | p < |c| :: ByteAt(d, inodes, ino, p) == Some(c[p])
  {
    seq(inodes[ino].size, p requires 0 <= p < inodes[ino].size => ByteAt(d, inodes, ino, p).value)
  }

  /** `s` laid over `c` from `offset` on. */
  function Overlay(c: seq<Byte>, offset: nat, s: seq<Byte>): seq<Byte>
    requires offset <= |c|
  {
    c[..offset] + s + (if offset + |s| < |c| then c[offset + |s|..] else [])
  }

  /** `chunk` laid over a block from byte `r` on. */
  function OverlayBlock(data: Block, r: nat, chunk: seq<Byte>): (b: Block)
    requires r + |chunk| <= BLOCK_SIZE
    ensures forall k | 0 <= k < BLOCK_SIZE :: b[k] == if r <= k < r + |chunk| then chunk[k - r] else data[k]
  {
    data[..r] + chunk + data[r + |chunk|..]
  }

  /** Storing into a block that is not an indirect block changes no name. */
  lemma StoreKeepsNames(l: Layout, d: seq<Block>, inodes: seq<DiskInode>, owner: map<nat, Slot>, b: nat, data: Block)
    requires Consistent(l, d, inodes, owner, {}) && b in owner && !owner[b].Pointer?
    ensures b < |d| && Consistent(l, d[b := data], inodes, owner, {})
    ensures forall t | IsSlot(|inodes|, t) :: BlockAt(d[b := data], inodes, t) == BlockAt(d, inodes, t)
  {
    var d' := d[b := data];
    forall t | IsSlot(|inodes|, t) ensures BlockAt(d', inodes, t) == BlockAt(d, inodes, t) {
      if t.Indirect? && inodes[t.ino].addrs[DIRECT] != 0 {
        Named(l, d, inodes, owner, Pointer(t.ino));
      }
    }
    assert Mapped(l, d', inodes, owner);
    hide Mapped;
    forall c: nat | c < l.size ensures Used(l, d', c) <==> Used(l, d, c) {
      assert l.BitmapBlock(c) < l.dataStart <= b;
    }
  }

  lemma StoreDataAt(l: Layout, d: seq<Block>, inodes: seq<DiskInode>, owner: map<nat, Slot>, s: Slot, data: Block, ino: nat, i: nat)
    requires Consistent(l, d, inodes, owner, {}) && ino < |inodes| && i < MAX_BLOCKS
    requires IsSlot(|inodes|, s) && !s.Pointer? && BlockAt(d, inodes, s) != 0
    ensures BlockAt(d, inodes, s) < |d|
    ensures DataAt(d[BlockAt(d, inodes, s) := data], inodes, ino, i)
            == if FileSlot(ino, i) == s then Some(data) else DataAt(d, inodes, ino, i)
  {
    hide Mapped, Accounted;
    var t := FileSlot(ino, i);
    Named(l, d, inodes, owner, s);
    StoreKeepsNames(l, d, inodes, owner, BlockAt(d, inodes, s), data);
    if BlockAt(d, inodes, t) != 0 {
      Named(l, d, inodes, owner, t);
    }
  }

  /** Storing into a block that holds file data changes that file block only. */
  lemma StoreData(l: Layout, d: seq<Block>, inodes: seq<DiskInode>, owner: map<nat, Slot>, ino: nat, index: nat, data: Block)
    requires Consistent(l, d, inodes, owner, {}) && ino < |inodes| && index < MAX_BLOCKS
    requires BlockAt(d, inodes, FileSlot(ino, index)) != 0
    ensures BlockAt(d, inodes, FileSlot(ino, index)) < |d|
    ensures var d' := d[BlockAt(d, inodes, FileSlot(ino, index)) := data];
            && Consistent(l, d', inodes, owner, {})
            && forall ino', i | 0 <= ino' < |inodes| && 0 <= i < MAX_BLOCKS ::
                 DataAt(d', inodes, ino', i)
                 == if ino' == ino && i == index then Some(data) else DataAt(d, inodes, ino', i)
  {
    var s := FileSlot(ino, index);
    hide Mapped, Accounted, BlockAt;
    Named(l, d, inodes, owner, s);
    StoreKeepsNames(l, d, inodes, owner, BlockAt(d, inodes, s), data);
    forall ino', i | 0 <= ino' < |inodes| && 0 <= i < MAX_BLOCKS
      ensures DataAt(d[BlockAt(d, inodes, s) := data], inodes, ino', i)
              == if ino' == ino && i == index then Some(data) else DataAt(d, inodes, ino', i)
    {
      StoreDataAt(l, d, inodes, owner, s, data, ino', i);
    }
  }

  lemma Position(p: nat)
    requires p < MAX_BYTES
    ensures p / BLOCK_SIZE < MAX_BLOCKS
    ensures p == BLOCK_SIZE * (p / BLOCK_SIZE) + p % BLOCK_SIZE
  {
  }

  /** The next position exists, and its block holds the file's bytes up to the block's end. */
  lemma NextPosition(d: seq<Block>, inodes: seq<DiskInode>, ino: nat, p: nat)
    requires ino < |inodes| && Whole(d, inodes, ino) && p < inodes[ino].size
    ensures p / BLOCK_SIZE < MAX_BLOCKS && DataAt(d, inodes, ino, p / BLOCK_SIZE).Some?
  {
    assert ByteAt(d, inodes, ino, p).Some?;
  }

  lemma ChunkContent(d: seq<Block>, inodes: seq<DiskInode>, ino: nat, p: nat, n: nat, data: Block)
    requires ino < |inodes| && Whole(d, inodes, ino) && p + n <= inodes[ino].size
    requires p / BLOCK_SIZE < MAX_BLOCKS && p % BLOCK_SIZE + n <= BLOCK_SIZE
    requires DataAt(d, inodes, ino, p / BLOCK_SIZE) == Some(data)
    ensures data[p % BLOCK_SIZE..p % BLOCK_SIZE + n] == Content(d, inodes, ino)[p..p + n]
  {
    var c := Content(d, inodes, ino);
    var a, b := data[p % BLOCK_SIZE..p % BLOCK_SIZE + n], c[p..p + n];
    forall k | 0 <= k < n ensures a[k] == b[k] {
      assert (p + k) / BLOCK_SIZE == p / BLOCK_SIZE && (p + k) % BLOCK_SIZE == p % BLOCK_SIZE + k;
      assert ByteAt(d, inodes, ino, p + k) == Some(c[p + k]);
    }
  }

  ghost predicate SameSizes(d: seq<Block>, inodes: seq<DiskInode>, d': seq<Block>, inodes': seq<DiskInode>) {
    && |inodes'| == |inodes| && |d'| == |d|
    && (forall i | 0 <= i < |inodes| :: inodes'[i].size == inodes[i].size)
  }

  ghost predicate SameData(d: seq<Block>, inodes: seq<DiskInode>, d': seq<Block>, inodes': seq<DiskInode>) {
    && SameSizes(d, inodes, d', inodes')
    && (forall ino, i | 0 <= ino < |inodes| && 0 <= i < MAX_BLOCKS ::
          DataAt(d', inodes', ino, i) == DataAt(d, inodes, ino, i))
  }

  /** Nothing but that slot `s` may have become a zeroed block if it had none. */
  ghost predicate GainedAtMost(d: seq<Block>, inodes: seq<DiskInode>, d': seq<Block>, inodes': seq<DiskInode>, s: Slot) {
    && SameSizes(d, inodes, d', inodes')
    && (forall ino, i | 0 <= ino < |inodes| && 0 <= i < MAX_BLOCKS ::
          DataAt(d', inodes', ino, i)
          == if FileSlot(ino, i) == s && DataAt(d, inodes, ino, i).None? then Some(ZeroBlock())
             else DataAt(d, inodes, ino, i))
  }

  lemma NoChange(d: seq<Block>, inodes: seq<DiskInode>)
    ensures SameData(d, inodes, d, inodes)
  {
  }

  lemma GainedAfterSame(d: seq<Block>, inodes: seq<DiskInode>, d1: seq<Block>, inodes1: seq<DiskInode>,
                        d2: seq<Block>, inodes2: seq<DiskInode>, s: Slot)
    requires SameData(d, inodes, d1, inodes1)
    ensures GainedAtMost(d1, inodes1, d2, inodes2, s) ==> GainedAtMost(d, inodes, d2, inodes2, s)
  {
  }

  /** After `w` bytes of `source` have been stored at `offset`: those bytes are in place, every
      other byte of the file that existed is as it was, and other files have not changed. */
  ghost predicate Stored(d: seq<Block>, inodes: seq<DiskInode>, d': seq<Block>, inodes': seq<DiskInode>,
                         ino: nat, offset: nat, source: seq<Byte>, w: nat)
    requires ino < |inodes| && w <= |source|
  {
    && SameSizes(d, inodes, d', inodes')
    && (forall other, i | 0 <= other < |inodes| && other != ino && 0 <= i < MAX_BLOCKS ::
          DataAt(d', inodes', other, i) == DataAt(d, inodes, other, i))
    && (forall p: nat | p < MAX_BYTES ::
          var now, was := ByteAt(d', inodes', ino, p), ByteAt(d, inodes, ino, p);
          if offset <= p < offset + w then now == Some(source[p - offset]) else was.Some? ==> now == was)
  }

  lemma StoredNone(d: seq<Block>, inodes: seq<DiskInode>, ino: nat, offset: nat, source: seq<Byte>)
    requires ino < |inodes|
    ensures Stored(d, inodes, d, inodes, ino, offset, source, 0)
  {
  }

  lemma StoredSizes(d: seq<Block>, inodes: seq<DiskInode>, d': seq<Block>, inodes': seq<DiskInode>,
                    ino: nat, offset: nat, source: seq<Byte>, w: nat)
    requires ino < |inodes| && w <= |source| && Stored(d, inodes, d', inodes', ino, offset, source, w)
    ensures SameSizes(d, inodes, d', inodes')
  {
  }

  lemma StoredSame(d: seq<Block>, inodes: seq<DiskInode>, d1: seq<Block>, inodes1: seq<DiskInode>,
                   d2: seq<Block>, inodes2: seq<DiskInode>, ino: nat, offset: nat, source: seq<Byte>, w: nat)
    requires ino < |inodes| && w <= |source|
    requires Stored(d, inodes, d1, inodes1, ino, offset, source, w) && SameData(d1, inodes1, d2, inodes2)
    ensures Stored(d, inodes, d2, inodes2, ino, offset, source, w)
  {
    assert forall p: nat | p < MAX_BYTES :: ByteAt(d2, inodes2, ino, p) == ByteAt(d1, inodes1, ino, p);
  }

  /** A block that appeared, zeroed, where there was none changes no byte that existed. */
  lemma StoredGained(d: seq<Block>, inodes: seq<DiskInode>, d1: seq<Block>, inodes1: seq<DiskInode>,
                     d2: seq<Block>, inodes2: seq<DiskInode>, ino: nat, offset: nat, source: seq<Byte>, w: nat)
    requires ino < |inodes| && w < |source| && offset + |source| <= MAX_BYTES
    requires Stored(d, inodes, d1, inodes1, ino, offset, source, w)
    requires GainedAtMost(d1, inodes1, d2, inodes2, FileSlot(ino, (offset + w) / BLOCK_SIZE))
    ensures Stored(d, inodes, d2, inodes2, ino, offset, source, w)
  {
    forall p: nat | p < MAX_BYTES
      ensures var now, was := ByteAt(d2, inodes2, ino, p), ByteAt(d, inodes, ino, p);
              if offset <= p < offset + w then now == Some(source[p - offset]) else was.Some? ==> now == was
    {
      assert ByteAt(d1, inodes1, ino, p).Some? ==> ByteAt(d2, inodes2, ino, p) == ByteAt(d1, inodes1, ino, p);
    }
  }

  /** One round of the write loop. */
  lemma StoredMore(d: seq<Block>, inodes: seq<DiskInode>, d1: seq<Block>, inodes1: seq<DiskInode>,
                   d2: seq<Block>, inodes2: seq<DiskInode>, d3: seq<Block>,
                   ino: nat, offset: nat, source: seq<Byte>, w: nat, n: nat)
    requires ino < |inodes| && w + n <= |source| && offset + |source| <= MAX_BYTES && n > 0
    requires Stored(d, inodes, d1, inodes1, ino, offset, source, w)
    requires var index := (offset + w) / BLOCK_SIZE;
             && index < MAX_BLOCKS && (offset + w) % BLOCK_SIZE + n <= BLOCK_SIZE
             && GainedAtMost(d1, inodes1, d2, inodes2, FileSlot(ino, index))
             && DataAt(d2, inodes2, ino, index).Some? && |d3| == |d2|
             && forall ino', i | 0 <= ino' < |inodes2| && 0 <= i < MAX_BLOCKS ::
                  DataAt(d3, inodes2, ino', i)
                  == if ino' == ino && i == index
                     then Some(OverlayBlock(DataAt(d2, inodes2, ino, index).value, (offset + w) % BLOCK_SIZE, source[w..w + n]))
                     else DataAt(d2, inodes2, ino', i)
    ensures Stored(d, inodes, d3, inodes2, ino, offset, source, w + n)
  {
    var q, r := (offset + w) / BLOCK_SIZE, (offset + w) % BLOCK_SIZE;
    forall p: nat | p < MAX_BYTES
      ensures var now, was := ByteAt(d3, inodes2, ino, p), ByteAt(d, inodes, ino, p);
              if offset <= p < offset + w + n then now == Some(source[p - offset]) else was.Some? ==> now == was
    {
      assert ByteAt(d1, inodes1, ino, p).Some? ==> ByteAt(d2, inodes2, ino, p) == ByteAt(d1, inodes1, ino, p);
      if p / BLOCK_SIZE == q {
        assert r <= p % BLOCK_SIZE < r + n <==> offset + w <= p < offset + w + n;
      } else {
        assert !(offset + w <= p < offset + w + n);
        assert ByteAt(d3, inodes2, ino, p) == ByteAt(d2, inodes2, ino, p);
      }
    }
  }

  /** A round that stores `n` bytes, or none. */
  lemma PieceStored(d: seq<Block>, inodes: seq<DiskInode>, d1: seq<Block>, inodes1: seq<DiskInode>,
                    d2: seq<Block>, inodes2: seq<DiskInode>, d3: seq<Block>,
                    ino: nat, offset: nat, source: seq<Byte>, w: nat, n: nat, b: nat)
    requires ino < |inodes| && w < |source| && w + n <= |source| && offset + |source| <= MAX_BYTES
    requires Stored(d, inodes, d1, inodes1, ino, offset, source, w)
    requires var index := (offset + w) / BLOCK_SIZE;
             && index < MAX_BLOCKS && (offset + w) % BLOCK_SIZE + n <= BLOCK_SIZE && b < |d2|
             && GainedAtMost(d1, inodes1, d2, inodes2, FileSlot(ino, index)) && DataAt(d2, inodes2, ino, index) == Some(d2[b])
             && d3 == d2[b := OverlayBlock(d2[b], (offset + w) % BLOCK_SIZE, source[w..w + n])]
             && forall ino', i | 0 <= ino' < |inodes2| && 0 <= i < MAX_BLOCKS ::
                  DataAt(d3, inodes2, ino', i) == if ino' == ino && i == index then Some(d3[b]) else DataAt(d2, inodes2, ino', i)
    ensures Stored(d, inodes, d3, inodes2, ino, offset, source, w + n)
  {
    hide Stored, GainedAtMost, DataAt;
    if n > 0 {
      GainedKeeps(d1, inodes1, d2, inodes2, FileSlot(ino, (offset + w) / BLOCK_SIZE));
      StoredMore(d, inodes, d1, inodes1, d2, inodes2, d3, ino, offset, source, w, n);
    } else {
      NothingOverlaid(d2[b], (offset + w) % BLOCK_SIZE, source[w..w + n]);
      assert d3 == d2;
      StoredGained(d, inodes, d1, inodes1, d2, inodes2, ino, offset, source, w);
    }
  }

  lemma GainedKeeps(d: seq<Block>, inodes: seq<DiskInode>, d': seq<Block>, inodes': seq<DiskInode>, s: Slot)
    requires GainedAtMost(d, inodes, d', inodes', s)
    ensures |d'| == |d| && |inodes'| == |inodes|
  {
  }

  lemma NothingOverlaid(data: Block, r: nat, chunk: seq<Byte>)
    requires chunk == [] && r <= BLOCK_SIZE
    ensures OverlayBlock(data, r, chunk) == data
  {
  }

  /** What the whole write amounts to, once the size is set. The file ends after the `c` bytes that count,
      though `w` are stored. */
  lemma StoredContent(d: seq<Block>, inodes: seq<DiskInode>, d': seq<Block>, inodes1: seq<DiskInode>, inodes': seq<DiskInode>,
                      ino: nat, offset: nat, source: seq<Byte>, c: nat, w: nat)
    requires ino < |inodes| && c <= w <= |source| && offset <= inodes[ino].size && offset + |source| <= MAX_BYTES
    requires forall i | 0 <= i < |inodes| :: Whole(d, inodes, i)
    requires Stored(d, inodes, d', inodes1, ino, offset, source, w)
    requires inodes' == inodes1[ino := inodes1[ino].(size := if offset + c > inodes[ino].size then offset + c else inodes[ino].size)]
    ensures forall i | 0 <= i < |inodes| :: Whole(d', inodes', i)
    ensures inodes'[ino].size <= |Overlay(Content(d, inodes, ino), offset, source[..w])|
    ensures Content(d', inodes', ino) == Overlay(Content(d, inodes, ino), offset, source[..w])[..inodes'[ino].size]
    ensures forall i | 0 <= i < |inodes| && i != ino :: Content(d', inodes', i) == Content(d, inodes, i)
  {
    forall i, p: nat | 0 <= i < |inodes| && p < MAX_BYTES ensures ByteAt(d', inodes', i, p) == ByteAt(d', inodes1, i, p) {
      SameBlockAt(d', inodes1, inodes', FileSlot(i, p / BLOCK_SIZE));
    }
    forall i | 0 <= i < |inodes| ensures Whole(d', inodes', i) {
      assert Whole(d, inodes, i);
      forall p: nat | p < inodes'[i].size ensures ByteAt(d', inodes', i, p).Some? {
        assert (i == ino && offset <= p < offset + w) || ByteAt(d, inodes, i, p).Some?;
      }
    }
    assert Whole(d, inodes, ino);
    var old_, new_ := Content(d, inodes, ino), Content(d', inodes', ino);
    forall p | 0 <= p < |new_| ensures new_[p] == Overlay(old_, offset, source[..w])[p] {
      assert ByteAt(d', inodes', ino, p) == Some(new_[p]);
    }
    forall i | 0 <= i < |inodes| && i != ino ensures Content(d', inodes', i) == Content(d, inodes, i) {
      assert Whole(d, inodes, i);
      var was, now := Content(d, inodes, i), Content(d', inodes', i);
      forall p | 0 <= p < |was| ensures now[p] == was[p] {
        assert ByteAt(d', inodes1, i, p) == ByteAt(d, inodes, i, p);
      }
    }
  }

  lemma SameBlockAt(d: seq<Block>, inodes: seq<DiskInode>, inodes': seq<DiskInode>, s: Slot)
    requires |inodes'| == |inodes| && forall i | 0 <= i < |inodes| :: inodes'[i].addrs == inodes[i].addrs
    requires IsSlot(|inodes|, s)
    ensures BlockAt(d, inodes', s) == BlockAt(d, inodes, s)
  {
  }

  // ---------- the block allocator ----------

  /** BlockBitmap.findFree. */
  method FindFree(bytes: Block, maxBits: nat) returns (r: Option<nat>)
    requires maxBits <= BITS_PER_BLOCK
    ensures r.None? ==> forall i: nat | i < maxBits :: Bit(bytes[i / 8], i % 8)
    ensures r.Some? ==> r.value < maxBits && !Bit(bytes[r.value / 8], r.value % 8)
                        && forall i: nat | i < r.value :: Bit(bytes[i / 8], i % 8)
  {
    var i := 0;
    while i < maxBits
      invariant i <= maxBits
      invariant forall j: nat | j < i :: Bit(bytes[j / 8], j % 8)
    {
      if !Bit(bytes[i / 8], i % 8) {
        return Some(i);
      }
      i := i + 1;
    }
    return None;
  }

  lemma BitPosition(start: nat, i: nat)
    requires start % BITS_PER_BLOCK == 0 && i < BITS_PER_BLOCK
    ensures (start + i) / BITS_PER_BLOCK == start / BITS_PER_BLOCK && (start + i) % BITS_PER_BLOCK == i
  {
  }

  lemma UsedRun(l: Layout, d: seq<Block>, start: nat, n: nat)
    requires start % BITS_PER_BLOCK == 0 && n <= BITS_PER_BLOCK && l.BitmapBlock(start) < |d|
    requires forall i: nat | i < n :: Bit(d[l.BitmapBlock(start)][i / 8], i % 8)
    ensures forall b: nat | start <= b < start + n :: l.BitmapBlock(b) < |d| && Used(l, d, b)
  {
    forall b: nat | start <= b < start + n ensures l.BitmapBlock(b) < |d| && Used(l, d, b) {
      BitPosition(start, b - start);
      assert Bit(d[l.BitmapBlock(start)][(b - start) / 8], (b - start) % 8);
    }
  }

  /** Marking an unmapped block used and zeroing it leaves every file alone. */
  lemma AllocatedConsistent(l: Layout, d: seq<Block>, inodes: seq<DiskInode>, owner: map<nat, Slot>, b: nat)
    requires Consistent(l, d, inodes, owner, {}) && b < l.size && !Used(l, d, b)
    ensures l.dataStart <= b && b !in owner
    ensures var d' := Marked(l, d, b, true)[b := ZeroBlock()];
            Consistent(l, d', inodes, owner, {b}) && SameFiles(l, d, d', inodes, owner)
  {
    var d1 := Marked(l, d, b, true);
    var d' := d1[b := ZeroBlock()];
    assert b !in owner;
    OtherBlocks(l, d, d', inodes, owner);
    forall c: nat | c < l.size ensures Used(l, d', c) <==> c < l.dataStart || c in owner || c in {b} {
      MarkedMeaning(l, d, b, true, c);
      assert l.BitmapBlock(c) != b;
    }
  }

  /** No inode's blocks or their contents differ. */
  ghost predicate SameFiles(l: Layout, d: seq<Block>, d': seq<Block>, inodes: seq<DiskInode>, owner: map<nat, Slot>) {
    && |d'| == |d|
    && (forall b | b in owner && b < |d| :: d'[b] == d[b])
    && (forall s | IsSlot(|inodes|, s) :: BlockAt(d', inodes, s) == BlockAt(d, inodes, s))
    && (forall ino, i | 0 <= ino < |inodes| && 0 <= i < MAX_BLOCKS :: DataAt(d', inodes, ino, i) == DataAt(d, inodes, ino, i))
  }

  // ---------- giving blocks back ----------

  /** `owner` without the slots of `ino` named so far. */
  function WithoutIndirect(owner: map<nat, Slot>, ino: nat, k: nat): map<nat, Slot> {
    map b | b in owner && !(owner[b].Indirect? && owner[b].ino == ino && owner[b].k < k) :: owner[b]
  }

  function WithoutInode(owner: map<nat, Slot>, ino: nat): map<nat, Slot> {
    map b | b in owner && owner[b].ino != ino :: owner[b]
  }

  /** Clearing a mark takes one block out of the account. */
  lemma UnmarkAccounted(l: Layout, d: seq<Block>, owner: map<nat, Slot>, owner': map<nat, Slot>, b: nat)
    requires l.Valid(|d|) && Accounted(l, d, owner, {}) && l.dataStart <= b < l.size
    requires forall c :: c in owner' <==> c in owner && c != b
    ensures Accounted(l, Marked(l, d, b, false), owner', {})
  {
    forall c: nat | c < l.size ensures Used(l, Marked(l, d, b, false), c) <==> c < l.dataStart || c in owner' {
      MarkedMeaning(l, d, b, false, c);
    }
  }

  lemma UnmarkKeepsFiles(l: Layout, d: seq<Block>, inodes: seq<DiskInode>, owner: map<nat, Slot>, b: nat)
    requires l.Valid(|d|) && Mapped(l, d, inodes, owner) && b < l.size
    ensures var d' := Marked(l, d, b, false);
            && Mapped(l, d', inodes, owner) && SameFiles(l, d, d', inodes, owner)
  {
    OtherBlocks(l, d, Marked(l, d, b, false), inodes, owner);
  }

  /** An emptied direct slot. */
  lemma DropDirect(l: Layout, d: seq<Block>, inodes: seq<DiskInode>, owner: map<nat, Slot>, ino: nat, k: nat)
    requires Mapped(l, d, inodes, owner) && 0 < l.dataStart && ino < |inodes| && k < DIRECT
    ensures var inodes' := WithAddr(inodes, ino, k, 0);
            && Mapped(l, d, inodes', owner - {inodes[ino].addrs[k]})
            && Renamed(d, inodes, d, inodes', Direct(ino, k), 0)
  {
    DirectRenamed(d, inodes, ino, k, 0);
    var inodes', owner' := WithAddr(inodes, ino, k, 0), owner - {inodes[ino].addrs[k]};
    forall t | IsSlot(|inodes'|, t) && BlockAt(d, inodes', t) != 0
      ensures BlockAt(d, inodes', t) in owner' && owner'[BlockAt(d, inodes', t)] == t
    {
      Named(l, d, inodes, owner, t);
      if inodes[ino].addrs[k] != 0 {
        Named(l, d, inodes, owner, Direct(ino, k));
      }
    }
  }

  /** An inode stripped of its indirect block loses all the blocks named there. */
  lemma DropPointer(l: Layout, d: seq<Block>, inodes: seq<DiskInode>, owner: map<nat, Slot>, ino: nat)
    requires Mapped(l, d, inodes, owner) && 0 < l.dataStart && ino < |inodes|
    requires forall k | 0 <= k < DIRECT :: inodes[ino].addrs[k] == 0
    ensures var inodes' := WithAddr(inodes, ino, DIRECT, 0);
            && Mapped(l, d, inodes', WithoutInode(owner, ino))
            && forall t | IsSlot(|inodes|, t) :: BlockAt(d, inodes', t) == if t.ino == ino then 0 else BlockAt(d, inodes, t)
  {
    var inodes', owner' := WithAddr(inodes, ino, DIRECT, 0), WithoutInode(owner, ino);
    forall t | IsSlot(|inodes|, t) ensures BlockAt(d, inodes', t) == if t.ino == ino then 0 else BlockAt(d, inodes, t) {}
    forall t | IsSlot(|inodes'|, t) && BlockAt(d, inodes', t) != 0
      ensures BlockAt(d, inodes', t) in owner' && owner'[BlockAt(d, inodes', t)] == t
    {
      Named(l, d, inodes, owner, t);
    }
  }

  /** The next entry of an indirect block: marked used, and the only block freed by dropping it. */
  lemma EntryAccount(l: Layout, d: seq<Block>, inodes: seq<DiskInode>, owner: map<nat, Slot>, ino: nat, k: nat)
    requires l.Valid(|d|) && Mapped(l, d, inodes, owner) && ino < |inodes| && k < INDIRECT
    requires inodes[ino].addrs[DIRECT] != 0
    requires Accounted(l, d, WithoutIndirect(owner, ino, k), {})
    ensures inodes[ino].addrs[DIRECT] < |d|
    ensures var b := GetWord(d[inodes[ino].addrs[DIRECT]], k);
            if b == 0 then WithoutIndirect(owner, ino, k + 1) == WithoutIndirect(owner, ino, k)
            else
              && l.dataStart <= b < l.size && Used(l, d, b)
              && forall c :: c in WithoutIndirect(owner, ino, k + 1) <==> c in WithoutIndirect(owner, ino, k) && c != b
  {
    Named(l, d, inodes, owner, Pointer(ino));
    var b := BlockAt(d, inodes, Indirect(ino, k));
    if b != 0 {
      Named(l, d, inodes, owner, Indirect(ino, k));
      assert b in WithoutIndirect(owner, ino, k);
    }
    forall c | c in owner && owner[c] == Indirect(ino, k) ensures c == b {
      assert BlockAt(d, inodes, owner[c]) == c;
    }
  }

  lemma NothingFreed(owner: map<nat, Slot>, ino: nat)
    ensures WithoutIndirect(owner, ino, 0) == owner
  {
  }

  /** With its entries freed and its direct slots empty, an inode has only its indirect block left. */
  lemma PointerAccount(l: Layout, d: seq<Block>, inodes: seq<DiskInode>, owner: map<nat, Slot>, ino: nat)
    requires l.Valid(|d|) && Mapped(l, d, inodes, owner) && ino < |inodes| && inodes[ino].addrs[DIRECT] != 0
    requires forall k | 0 <= k < DIRECT :: inodes[ino].addrs[k] == 0
    requires Accounted(l, d, WithoutIndirect(owner, ino, INDIRECT), {})
    ensures var p := inodes[ino].addrs[DIRECT];
            && l.dataStart <= p < l.size && Used(l, d, p)
            && forall c :: c in WithoutInode(owner, ino) <==> c in WithoutIndirect(owner, ino, INDIRECT) && c != p
  {
    var p := inodes[ino].addrs[DIRECT];
    Named(l, d, inodes, owner, Pointer(ino));
    assert p in WithoutIndirect(owner, ino, INDIRECT);
    forall c | c in owner && owner[c].ino == ino && !owner[c].Indirect? ensures c == p {
      assert BlockAt(d, inodes, owner[c]) == c;
    }
  }

  /** Files other than `ino` are untouched, and `ino` owns no more than before. */
  ghost predicate Stripped(d: seq<Block>, inodes: seq<DiskInode>, owner: map<nat, Slot>,
                           d': seq<Block>, inodes': seq<DiskInode>, owner': map<nat, Slot>, ino: nat) {
    && SameSizes(d, inodes, d', inodes') && ino < |inodes|
    && (forall b | b in owner' :: b in owner && owner'[b] == owner[b] && (b < |d| ==> d'[b] == d[b]))
    && (forall b | b in owner && owner[b].ino != ino :: b in owner')
    && (forall t | IsSlot(|inodes|, t) && t.ino != ino :: BlockAt(d', inodes', t) == BlockAt(d, inodes, t))
  }

  /** An inode without addresses owns nothing. */
  lemma BareInode(l: Layout, d: seq<Block>, inodes: seq<DiskInode>, owner: map<nat, Slot>, ino: nat)
    requires Mapped(l, d, inodes, owner) && 0 < l.dataStart && ino < |inodes|
    requires forall k | 0 <= k <= DIRECT :: inodes[ino].addrs[k] == 0
    ensures WithoutInode(owner, ino) == owner
    ensures forall i | 0 <= i < MAX_BLOCKS :: DataAt(d, inodes, ino, i) == None
  {
    forall b | b in owner ensures owner[b].ino != ino {
      assert BlockAt(d, inodes, owner[b]) == b;
    }
  }

  lemma StrippedData(l: Layout, d: seq<Block>, inodes: seq<DiskInode>, owner: map<nat, Slot>,
                     d': seq<Block>, inodes1: seq<DiskInode>, owner': map<nat, Slot>, ino: nat, other: nat, i: nat)
    requires Mapped(l, d, inodes, owner) && Stripped(d, inodes, owner, d', inodes1, owner', ino)
    requires other < |inodes| && other != ino && i < MAX_BLOCKS
    ensures DataAt(d', inodes1, other, i) == DataAt(d, inodes, other, i)
  {
    var t := FileSlot(other, i);
    assert IsSlot(|inodes|, t);
    hide Mapped;
    if BlockAt(d, inodes, t) != 0 {
      Named(l, d, inodes, owner, t);
    }
  }

  lemma TruncatedMeaning(l: Layout, d: seq<Block>, inodes: seq<DiskInode>, owner: map<nat, Slot>,
                         d': seq<Block>, inodes1: seq<DiskInode>, inodes': seq<DiskInode>, owner': map<nat, Slot>, ino: nat)
    requires Consistent(l, d, inodes, owner, {}) && Consistent(l, d', inodes1, owner', {})
    requires Stripped(d, inodes, owner, d', inodes1, owner', ino) && WithoutInode(owner', ino) == owner'
    requires inodes' == inodes1[ino := inodes1[ino].(size := 0)]
    ensures owner' == WithoutInode(owner, ino)
    ensures forall other, i | 0 <= other < |inodes| && other != ino && 0 <= i < MAX_BLOCKS ::
              DataAt(d', inodes', other, i) == DataAt(d, inodes, other, i)
    ensures forall i | 0 <= i < MAX_BLOCKS :: DataAt(d', inodes', ino, i) == DataAt(d', inodes1, ino, i)
    ensures forall b: nat | b < l.size ::
              Used(l, d', b) <==> Used(l, d, b) && !(b in owner && owner[b].ino == ino)
  {
    StrippedOwner(d, inodes, owner, d', inodes1, owner', ino);
    assert forall b: nat | b < l.size :: Used(l, d', b) <==> Used(l, d, b) && !(b in owner && owner[b].ino == ino);
    hide Mapped, Accounted, BlockAt, Used, WithoutInode;
    forall other, i | 0 <= other < |inodes| && 0 <= i < MAX_BLOCKS
      ensures DataAt(d', inodes', other, i) == DataAt(d', inodes1, other, i)
      ensures other != ino ==> DataAt(d', inodes', other, i) == DataAt(d, inodes, other, i)
    {
      SameBlockAt(d', inodes1, inodes', FileSlot(other, i));
      if other != ino {
        StrippedData(l, d, inodes, owner, d', inodes1, owner', ino, other, i);
      }
    }
  }

  lemma StrippedOwner(d: seq<Block>, inodes: seq<DiskInode>, owner: map<nat, Slot>,
                      d': seq<Block>, inodes1: seq<DiskInode>, owner': map<nat, Slot>, ino: nat)
    requires Stripped(d, inodes, owner, d', inodes1, owner', ino) && WithoutInode(owner', ino) == owner'
    ensures owner' == WithoutInode(owner, ino)
  {
    forall b ensures b in owner' <==> b in WithoutInode(owner, ino) {
      assert b in owner' <==> b in WithoutInode(owner', ino);
    }
  }

  // ---------- what an operation logs ----------

  /** Which file block a data slot is for. */
  function FileIndex(s: Slot): nat
    requires !s.Pointer?
  {
    if s.Direct? then s.k else DIRECT + s.k
  }

  /** The inode's indirect block, and its file blocks from `first` to `last`. */
  predicate Touches(s: Slot, ino: nat, first: nat, last: nat) {
    s.ino == ino && (s.Pointer? || first <= FileIndex(s) <= last)
  }

  predicate InBitmap(l: Layout, b: nat) {
    l.bmapstart <= b < l.bmapstart + l.BitmapLength()
  }

  /** What was logged since is bitmap blocks and what serves those file blocks. */
  ghost predicate LoggedFor(l: Layout, owner: map<nat, Slot>, before: set<nat>, after: set<nat>, ino: nat, first: nat, last: nat) {
    && before <= after
    && forall b | b in after && b !in before :: InBitmap(l, b) || (b in owner && Touches(owner[b], ino, first, last))
  }

  /** Blocks keep their slots, and a block that is new in one has been logged. */
  ghost predicate Grown(owner: map<nat, Slot>, owner': map<nat, Slot>, after: set<nat>) {
    && (forall b | b in owner :: b in owner' && owner'[b] == owner[b])
    && (forall b | b in owner' && b !in owner :: b in after)
  }

  /** Only inode `ino` may differ. */
  ghost predicate OthersKept(inodes: seq<DiskInode>, inodes': seq<DiskInode>, ino: nat) {
    |inodes'| == |inodes| && forall i | 0 <= i < |inodes| && i != ino :: inodes'[i] == inodes[i]
  }

  /** Every block that changed is a bitmap or a file block, and has been given to log.write. */
  ghost predicate Journaled(l: Layout, d: seq<Block>, d': seq<Block>, before: set<nat>, after: set<nat>) {
    && before <= after && |d'| == |d|
    && forall b | 0 <= b < |d| && d'[b] != d[b] :: b in after && (InBitmap(l, b) || l.dataStart <= b)
  }

  lemma JournaledTwice(l: Layout, d: seq<Block>, d1: seq<Block>, d2: seq<Block>, s: set<nat>, s1: set<nat>, s2: set<nat>)
    requires Journaled(l, d, d1, s, s1) && Journaled(l, d1, d2, s1, s2)
    ensures Journaled(l, d, d2, s, s2) && s <= s1 <= s2
  {
  }

  lemma JournaledMore(l: Layout, d: seq<Block>, d1: seq<Block>, s: set<nat>, s1: set<nat>, s2: set<nat>)
    requires Journaled(l, d, d1, s, s1) && s1 <= s2
    ensures Journaled(l, d, d1, s, s2)
  {
  }

  lemma JournaledNone(l: Layout, d: seq<Block>, s: set<nat>)
    ensures Journaled(l, d, d, s, s)
  {
  }

  lemma JournaledStore(l: Layout, d: seq<Block>, b: nat, data: Block, s: set<nat>)
    requires l.dataStart <= b < |d|
    ensures Journaled(l, d, d[b := data], s, s + {b})
  {
  }

  lemma JournaledPiece(l: Layout, d1: seq<Block>, d2: seq<Block>, b: nat, data: Block, s: set<nat>, s2: set<nat>, n: nat)
    requires Journaled(l, d1, d2, s, s2) && l.dataStart <= b < |d2| && (n == 0 ==> data == d2[b])
    ensures Journaled(l, d1, d2[b := data], s, s2 + {b}) && (n == 0 ==> Journaled(l, d1, d2[b := data], s, s2 + {}))
  {
    assert s2 + {} == s2;
    assert n == 0 ==> d2[b := data] == d2;
  }

  /** What an allocation stores: the mark, and zeroes. */
  lemma JournaledAllocation(l: Layout, d: seq<Block>, b: nat, s: set<nat>)
    requires l.BitmapBlock(b) < |d| && l.dataStart <= b < |d| && b < l.size
    ensures Journaled(l, d, Marked(l, d, b, true)[b := ZeroBlock()], s, s + {l.BitmapBlock(b), b})
  {
    BitmapHolds(l, b);
  }

  /** Only bitmap blocks have been logged since. */
  ghost predicate BitmapLogged(l: Layout, before: set<nat>, after: set<nat>) {
    before <= after && forall b | b in after && b !in before :: InBitmap(l, b)
  }

  lemma BitmapHolds(l: Layout, b: nat)
    requires b < l.size
    ensures InBitmap(l, l.BitmapBlock(b))
  {
    var q, r := b / BITS_PER_BLOCK, b % BITS_PER_BLOCK;
    assert b == BITS_PER_BLOCK * q + r && l.size >= BITS_PER_BLOCK * q + 1;
    assert (BITS_PER_BLOCK * (q + 1)) / BITS_PER_BLOCK == q + 1;
  }

  lemma LoggedMore(l: Layout, owner: map<nat, Slot>, owner': map<nat, Slot>, before: set<nat>, middle: set<nat>, after: set<nat>,
                   ino: nat, first: nat, last: nat, index: nat)
    requires Grown(owner, owner', after) && first <= index <= last
    requires LoggedFor(l, owner, before, middle, ino, first, last) && LoggedFor(l, owner', middle, after, ino, index, index)
    ensures LoggedFor(l, owner', before, after, ino, first, last) && before <= middle <= after
  {
  }

  lemma NoneLogged(l: Layout, owner: map<nat, Slot>, s: set<nat>, ino: nat, first: nat, last: nat)
    ensures Grown(owner, owner, s) && LoggedFor(l, owner, s, s, ino, first, last)
  {
  }

  /** What giving slot `s` block `b` logs: a bitmap block, the new block, and perhaps the indirect block. */
  lemma AllocationLogged(l: Layout, owner: map<nat, Slot>, before: set<nat>, b: nat, s: Slot, also: set<nat>, ino: nat, index: nat)
    requires b < l.size && b !in owner && Touches(s, ino, index, index)
    requires forall p | p in also :: p in owner && owner[p] == Pointer(ino)
    ensures Grown(owner, owner[b := s], before + {l.BitmapBlock(b), b} + also)
    ensures LoggedFor(l, owner[b := s], before, before + {l.BitmapBlock(b), b} + also, ino, index, index)
  {
    BitmapHolds(l, b);
  }

  lemma GrownTwice(owner: map<nat, Slot>, owner1: map<nat, Slot>, owner2: map<nat, Slot>, s1: set<nat>, s2: set<nat>)
    requires Grown(owner, owner1, s1) && Grown(owner1, owner2, s2) && s1 <= s2
    ensures Grown(owner, owner2, s2)
  {
  }

  lemma GrownLater(owner: map<nat, Slot>, owner': map<nat, Slot>, s: set<nat>, s': set<nat>)
    requires Grown(owner, owner', s) && s <= s'
    ensures Grown(owner, owner', s')
  {
  }

  lemma LoggedToo(l: Layout, owner: map<nat, Slot>, before: set<nat>, after: set<nat>, ino: nat, first: nat, last: nat, x: nat)
    requires LoggedFor(l, owner, before, after, ino, first, last)
    ensures LoggedFor(l, owner, before + {x}, after + {x}, ino, first, last)
  {
  }

  /** The last file block that `n` bytes from `offset` on touch. */
  function LastBlock(offset: nat, n: nat): nat {
    if n == 0 then offset / BLOCK_SIZE else (offset + n - 1) / BLOCK_SIZE
  }

  lemma BetweenBlocks(offset: nat, n: nat, k: nat)
    requires k < n
    ensures offset / BLOCK_SIZE <= (offset + k) / BLOCK_SIZE <= LastBlock(offset, n)
  {
  }

  function Interval(from: nat, n: nat): (r: set<nat>)
    ensures |r| == n && forall b :: b in r <==> from <= b < from + n
  {
    if n == 0 then {} else Interval(from, n - 1) + {from + n - 1}
  }

  /** The blocks of `n` file blocks from `first` on, or 0 for those without. */
  ghost function FileBlocks(d: seq<Block>, inodes: seq<DiskInode>, ino: nat, first: nat, n: nat): (r: set<nat>)
    requires ino < |inodes|
    ensures |r| <= n
    ensures forall i: nat | first <= i < first + n && i < MAX_BLOCKS :: BlockAt(d, inodes, FileSlot(ino, i)) in r
  {
    if n == 0 then {}
    else
      var i := first + n - 1;
      FileBlocks(d, inodes, ino, first, n - 1) + {if i < MAX_BLOCKS then BlockAt(d, inodes, FileSlot(ino, i)) else 0}
  }

  lemma LoggedIs(l: Layout, d: seq<Block>, inodes: seq<DiskInode>, owner: map<nat, Slot>, before: set<nat>, after: set<nat>,
                 ino: nat, first: nat, last: nat, b: nat)
    requires Mapped(l, d, inodes, owner) && ino < |inodes| && first <= last && b in after && b !in before
    requires LoggedFor(l, owner, before, after, ino, first, last)
    ensures InBitmap(l, b) || b == BlockAt(d, inodes, Pointer(ino)) || b in FileBlocks(d, inodes, ino, first, last - first + 1)
  {
    if !InBitmap(l, b) {
      var s := owner[b];
      assert BlockAt(d, inodes, s) == b;
      assert !s.Pointer? ==> s == FileSlot(ino, FileIndex(s));
    }
  }

  /** A write logs at most its file blocks, the indirect block and the bitmap. */
  lemma LoggedSize(l: Layout, d: seq<Block>, inodes: seq<DiskInode>, owner: map<nat, Slot>, before: set<nat>, after: set<nat>,
                   ino: nat, first: nat, last: nat)
    requires Mapped(l, d, inodes, owner) && ino < |inodes| && first <= last
    requires LoggedFor(l, owner, before, after, ino, first, last)
    ensures |after| <= |before| + l.BitmapLength() + 1 + (last - first + 1)
  {
    hide Mapped, LoggedFor, BlockAt;
    var bitmap, files := Interval(l.bmapstart, l.BitmapLength()), FileBlocks(d, inodes, ino, first, last - first + 1);
    var all := before + bitmap + {BlockAt(d, inodes, Pointer(ino))} + files;
    forall b | b in after ensures b in all {
      if b !in before {
        LoggedIs(l, d, inodes, owner, before, after, ino, first, last, b);
      }
    }
    SubsetSize(after, all);
  }

  lemma {:induction false} ZeroBits(k: nat)
    ensures !Bit(0, k)
  {
    if k > 0 {
      ZeroBits(k - 1);
    }
  }

  /** A bitmap of zeroes marks nothing. */
  lemma ZeroUnused(l: Layout, d: seq<Block>)
    requires l.Valid(|d|) && forall b | 0 <= b < |d| :: d[b] == ZeroBlock()
    ensures forall c: nat | c < l.size :: !Used(l, d, c)
  {
    forall c: nat | c < l.size ensures !Used(l, d, c) {
      ZeroBits(c % BITS_PER_BLOCK % 8);
    }
  }

  /** `filled` is what a failing copy has put in its destination. */
  datatype ReadResult = Bytes(data: seq<Byte>) | ReadOffsetOverflows | BadAddress(filled: seq<Byte>)

  /** Bytes that one round of the write loop is for: up to the end of a block. */
  function Piece(offset: nat, written: nat, length: nat): nat
    requires written <= length
  {
    var left, room := length - written, BLOCK_SIZE - (offset + written) % BLOCK_SIZE;
    if left < room then left else room
  }

  /** A round starts where the write does or where a block does. */
  predicate AtPiece(offset: nat, written: nat, length: nat) {
    written == 0 || written == length || (offset + written) % BLOCK_SIZE == 0
  }

  lemma NextPiece(offset: nat, written: nat, length: nat)
    requires written < length
    ensures Piece(offset, written, length) > 0 && AtPiece(offset, written + Piece(offset, written, length), length)
  {
    var room := BLOCK_SIZE - (offset + written) % BLOCK_SIZE;
    assert (offset + written + room) % BLOCK_SIZE == 0;
  }

  /** When a copy fails after `readable` bytes, all that was stored counts just when the failing byte is the
      first of a round, that is, of the write or of a block. */
  lemma FaultAtPiece(offset: nat, count: nat, readable: nat, length: nat)
    requires count <= readable < length && readable < count + Piece(offset, count, length) && AtPiece(offset, count, length)
    ensures readable == count <==> AtPiece(offset, readable, length)
  {
    var a, k := offset + count, readable - count;
    assert a % BLOCK_SIZE + k < BLOCK_SIZE;
    assert (a + k) % BLOCK_SIZE == a % BLOCK_SIZE + k;
  }

  lemma FirstPiece(offset: nat, length: nat)
    ensures AtPiece(offset, 0, length)
  {
  }

  /** `faulted` says that bytes to write could not be copied from the user. */
  datatype WriteResult = Written(count: nat, faulted: bool) | OutOfInodeRange | OffsetOverflows | FileOverflow

  class FileSystem {
    const layout: Layout
    var disk: seq<Block>
    var inodes: seq<DiskInode>
    ghost var owner: map<nat, Slot>
    var logged: set<nat>            // what the current operation has given to log.write

    ghost predicate Valid()
      reads this
    {
      Consistent(layout, disk, inodes, owner, {})
    }

    /** A new file system of `n` blocks and `ninodes` inodes: every metadata block is marked used, nothing
        else is, and every file is empty. */
    constructor (layout: Layout, n: nat, ninodes: nat)
      requires layout.Valid(n)
      ensures Valid() && AllWhole() && this.layout == layout && |disk| == n && |inodes| == ninodes && owner == map[] && logged == {}
      ensures forall b: nat | b < layout.size :: Used(layout, disk, b) <==> b < layout.dataStart
      ensures forall b | 0 <= b < n && !InBitmap(layout, b) :: disk[b] == ZeroBlock()
      ensures forall ino | 0 <= ino < ninodes :: inodes[ino] == EMPTY_INODE && Content(disk, inodes, ino) == []
    {
      var d: seq<Block> := seq(n, i => ZeroBlock());
      ZeroUnused(layout, d);
      for b := 0 to layout.dataStart
        invariant |d| == n && forall c: nat | c < layout.size :: Used(layout, d, c) <==> c < b
        invariant forall c | 0 <= c < n && !InBitmap(layout, c) :: d[c] == ZeroBlock()
      {
        ghost var d0 := d;
        BitmapHolds(layout, b);
        d := Marked(layout, d, b, true);
        forall c: nat | c < layout.size ensures Used(layout, d, c) <==> c < b + 1 {
          MarkedMeaning(layout, d0, b, true, c);
        }
      }
      this.layout, disk, owner, logged := layout, d, map[], {};
      inodes := seq(ninodes, i => EMPTY_INODE);
      new;
      hide Used, Marked;
      forall ino | 0 <= ino < ninodes ensures Content(disk, inodes, ino) == [] {
      }
    }

    /** DiskBlock.allocate: the lowest free block, marked and zeroed. */
    method Allocate() returns (r: Option<nat>)
      requires Valid()
      modifies `disk, `logged
      ensures Journaled(layout, old(disk), disk, old(logged), logged)
      ensures logged == old(logged) + if r.Some? then {layout.BitmapBlock(r.value), r.value} else {}
      ensures r.None? ==> disk == old(disk) && forall b: nat | b < layout.size :: Used(layout, disk, b)
      ensures r.Some? ==>
                && layout.dataStart <= r.value < layout.size && r.value !in owner
                && !Used(layout, old(disk), r.value)
                && (forall b: nat | b < r.value :: Used(layout, old(disk), b))
                && Consistent(layout, disk, inodes, owner, {r.value})
                && SameFiles(layout, old(disk), disk, inodes, owner)
                && disk[r.value] == ZeroBlock()
    {
      hide Accounted, Mapped, Bit, Marked, SameFiles, Journaled;
      JournaledNone(layout, disk, logged);
      var start := 0;
      while start < layout.size
        invariant start % BITS_PER_BLOCK == 0 && disk == old(disk) && logged == old(logged)
        invariant forall b: nat | b < start && b < layout.size :: Used(layout, disk, b)
      {
        var remaining := layout.size - start;
        var maxBits := if remaining < BITS_PER_BLOCK then remaining else BITS_PER_BLOCK;
        BitPosition(start, 0);
        var found := FindFree(disk[layout.BitmapBlock(start)], maxBits);
        UsedRun(layout, disk, start, if found.Some? then found.value else maxBits);
        if found.Some? {
          var b := start + found.value;
          BitPosition(start, found.value);
          AllocatedConsistent(layout, disk, inodes, owner, b);
          JournaledAllocation(layout, disk, b, logged);
          disk := Marked(layout, disk, b, true);
          disk := disk[b := ZeroBlock()];
          logged := logged + {layout.BitmapBlock(b), b};
          return Some(b);
        }
        start := start + BITS_PER_BLOCK;
      }
      return None;
    }

    ghost predicate NoFreeBlock()
      requires layout.Valid(|disk|)
      reads this
    {
      forall b: nat | b < layout.size :: Used(layout, disk, b)
    }

    /** A block for an empty slot of the inode itself. */
    method AllocateAddr(ino: nat, k: nat) returns (r: Option<nat>)
      requires Valid() && ino < |inodes| && k <= DIRECT && inodes[ino].addrs[k] == 0
      modifies this
      ensures Valid()
      ensures Journaled(layout, old(disk), disk, old(logged), logged)
      ensures logged == old(logged) + if r.Some? then {layout.BitmapBlock(r.value), r.value} else {}
      ensures r.None? ==> NoFreeBlock() && disk == old(disk) && inodes == old(inodes) && owner == old(owner)
      ensures r.Some? ==>
                && inodes == WithAddr(old(inodes), ino, k, r.value)
                && owner == old(owner)[r.value := if k == DIRECT then Pointer(ino) else Direct(ino, k)]
                && layout.dataStart <= r.value < layout.size && r.value !in old(owner)
                && 0 < r.value < |disk| && disk[r.value] == ZeroBlock()
                && (if k == DIRECT then SameData(old(disk), old(inodes), disk, inodes) else GainedAtMost(old(disk), old(inodes), disk, inodes, Direct(ino, k)))
    {
      hide Accounted, Mapped, Journaled;
      r := Allocate();
      if r.None? {
        return;
      }
      var b := r.value;
      ghost var s := if k == DIRECT then Pointer(ino) else Direct(ino, k);
      ghost var inodes' := WithAddr(inodes, ino, k, b);
      if k == DIRECT {
        PointerRenamed(disk, inodes, ino, b);
      } else {
        DirectRenamed(disk, inodes, ino, k, b);
      }
      AdoptConsistent(layout, disk, inodes, owner, disk, inodes', s, b);
      AdoptData(layout, disk, inodes, owner, disk, inodes', s, b);
      inodes := inodes[ino := inodes[ino].(addrs := inodes[ino].addrs[k := b])];
      owner := owner[b := s];
    }

    /** A block for an empty entry of the inode's indirect block. */
    method AllocateEntry(ino: nat, k: nat) returns (r: Option<nat>)
      requires Valid() && ino < |inodes| && k < INDIRECT
      requires inodes[ino].addrs[DIRECT] != 0 && BlockAt(disk, inodes, Indirect(ino, k)) == 0
      modifies `disk, `owner, `logged
      ensures Valid()
      ensures Journaled(layout, old(disk), disk, old(logged), logged)
      ensures logged == old(logged) + if r.Some? then {layout.BitmapBlock(r.value), r.value, inodes[ino].addrs[DIRECT]} else {}
      ensures r.None? ==> NoFreeBlock() && disk == old(disk) && owner == old(owner)
      ensures r.Some? ==>
                && GainedAtMost(old(disk), old(inodes), disk, inodes, Indirect(ino, k))
                && BlockAt(disk, inodes, Indirect(ino, k)) == r.value
                && owner == old(owner)[r.value := Indirect(ino, k)]
                && layout.dataStart <= r.value < layout.size && r.value !in old(owner)
    {
      hide Accounted, Mapped, GetWord, SetWord, Journaled;
      r := Allocate();
      if r.None? {
        return;
      }
      var b, p := r.value, inodes[ino].addrs[DIRECT];
      ghost var s := Indirect(ino, k);
      IndirectRenamed(layout, disk, inodes, owner, ino, k, b);
      Named(layout, disk, inodes, owner, Pointer(ino));
      ghost var disk' := disk[p := SetWord(disk[p], k, b)];
      AdoptConsistent(layout, disk, inodes, owner, disk', inodes, s, b);
      AdoptData(layout, disk, inodes, owner, disk', inodes, s, b);
      JournaledStore(layout, disk, p, SetWord(disk[p], k, b), logged);
      JournaledTwice(layout, old(disk), disk, disk', old(logged), logged, logged + {p});
      disk := disk[p := SetWord(disk[p], k, b)];
      logged := logged + {p};
      owner := owner[b := s];
    }

    /** getBlock for the blocks the inode names itself. */
    method GetDirect(ino: nat, index: nat) returns (r: Option<nat>)
      requires Valid() && ino < |inodes| && index < DIRECT
      modifies this
      ensures Valid()
      ensures r.None? ==> NoFreeBlock() && SameData(old(disk), old(inodes), disk, inodes) && disk == old(disk)
      ensures r.Some? ==> GainedAtMost(old(disk), old(inodes), disk, inodes, Direct(ino, index))
      ensures r.Some? ==> r.value in owner && owner[r.value] == Direct(ino, index) && BlockAt(disk, inodes, Direct(ino, index)) == r.value
      ensures old(inodes)[ino].addrs[index] != 0 ==>
                r.Some? && disk == old(disk) && inodes == old(inodes) && owner == old(owner) && logged == old(logged)
      ensures Journaled(layout, old(disk), disk, old(logged), logged)
      ensures Grown(old(owner), owner, logged) && LoggedFor(layout, owner, old(logged), logged, ino, index, index)
      ensures OthersKept(old(inodes), inodes, ino)
    {
      hide Accounted, Mapped, GetWord, Grown, LoggedFor, Journaled;
      JournaledNone(layout, disk, logged);
      NoneLogged(layout, owner, logged, ino, index, index);
      if inodes[ino].addrs[index] != 0 {
        Named(layout, disk, inodes, owner, Direct(ino, index));
        return Some(inodes[ino].addrs[index]);
      }
      ghost var owner0, logged0 := owner, logged;
      r := AllocateAddr(ino, index);
      assert r.None? ==> logged == logged0;
      if r.Some? {
        AllocationLogged(layout, owner0, logged0, r.value, Direct(ino, index), {}, ino, index);
        assert logged0 + {layout.BitmapBlock(r.value), r.value} + {} == logged;
      }
    }

    /** getBlock for the blocks the indirect block names. */
    method GetIndirect(ino: nat, k: nat) returns (r: Option<nat>)
      requires Valid() && ino < |inodes| && k < INDIRECT && inodes[ino].addrs[DIRECT] != 0
      modifies `disk, `owner, `logged
      ensures Valid()
      ensures r.None? ==> NoFreeBlock() && disk == old(disk)
      ensures r.Some? ==> GainedAtMost(old(disk), inodes, disk, inodes, Indirect(ino, k))
      ensures r.Some? ==> r.value in owner && owner[r.value] == Indirect(ino, k) && BlockAt(disk, inodes, Indirect(ino, k)) == r.value
      ensures BlockAt(old(disk), inodes, Indirect(ino, k)) != 0 ==>
                r.Some? && disk == old(disk) && owner == old(owner) && logged == old(logged)
      ensures Journaled(layout, old(disk), disk, old(logged), logged)
      ensures Grown(old(owner), owner, logged) && LoggedFor(layout, owner, old(logged), logged, ino, DIRECT + k, DIRECT + k)
    {
      hide Accounted, Mapped, GetWord, Grown, LoggedFor, Journaled;
      JournaledNone(layout, disk, logged);
      NoneLogged(layout, owner, logged, ino, DIRECT + k, DIRECT + k);
      Named(layout, disk, inodes, owner, Pointer(ino));
      var block := GetWord(disk[inodes[ino].addrs[DIRECT]], k);
      if block != 0 {
        Named(layout, disk, inodes, owner, Indirect(ino, k));
        return Some(block);
      }
      ghost var owner0, logged0, p := owner, logged, inodes[ino].addrs[DIRECT];
      r := AllocateEntry(ino, k);
      assert r.None? ==> logged == logged0;
      if r.Some? {
        AllocationLogged(layout, owner0, logged0, r.value, Indirect(ino, k), {p}, ino, DIRECT + k);
        assert logged0 + {layout.BitmapBlock(r.value), r.value} + {p} == logged;
      }
    }

    /** getBlock: the disk block of the inode's `index`-th file block, allocated if there is none. */
    method GetBlock(ino: nat, index: nat) returns (r: Option<nat>)
      requires Valid() && ino < |inodes| && index < MAX_BLOCKS
      modifies this
      ensures Valid()
      ensures r.None? ==> NoFreeBlock() && SameData(old(disk), old(inodes), disk, inodes)
      ensures r.None? && index < DIRECT ==> old(NoFreeBlock())
      ensures r.Some? ==>
                && GainedAtMost(old(disk), old(inodes), disk, inodes, FileSlot(ino, index))
                && r.value in owner && owner[r.value] == FileSlot(ino, index)
                && BlockAt(disk, inodes, FileSlot(ino, index)) == r.value
      ensures DataAt(old(disk), old(inodes), ino, index).Some? ==>
                r.Some? && disk == old(disk) && inodes == old(inodes) && owner == old(owner) && logged == old(logged)
      ensures Journaled(layout, old(disk), disk, old(logged), logged)
      ensures Grown(old(owner), owner, logged) && LoggedFor(layout, owner, old(logged), logged, ino, index, index)
      ensures OthersKept(old(inodes), inodes, ino)
    {
      hide Accounted, Mapped, GetWord, Grown, LoggedFor, GainedAtMost, SameData, Journaled;
      JournaledNone(layout, disk, logged);
      if index < DIRECT {
        r := GetDirect(ino, index);
        return;
      }
      var k := index - DIRECT;
      ghost var owner1, logged1, disk1, inodes1 := owner, logged, disk, inodes;
      NoneLogged(layout, owner, logged, ino, index, index);
      NoChange(disk, inodes);
      if inodes[ino].addrs[DIRECT] == 0 {
        r := AllocateAddr(ino, DIRECT);
        if r.None? {
          assert logged == logged1;
          return;
        }
        AllocationLogged(layout, owner1, logged1, r.value, Pointer(ino), {}, ino, index);
        assert logged1 + {layout.BitmapBlock(r.value), r.value} + {} == logged;
      }
      ghost var owner2, logged2, disk2 := owner, logged, disk;
      r := GetIndirect(ino, k);
      GainedAfterSame(disk1, inodes1, disk2, inodes, disk, inodes, Indirect(ino, k));
      JournaledTwice(layout, disk1, disk2, disk, logged1, logged2, logged);
      GrownTwice(owner1, owner2, owner, logged2, logged);
      LoggedMore(layout, owner2, owner, logged1, logged2, logged, ino, index, index, index);
    }

    // ---------- read and write ----------

    ghost predicate AllWhole()
      reads this
    {
      forall ino | 0 <= ino < |inodes| :: Whole(disk, inodes, ino)
    }

    /** Inode.read. Past the end there is nothing; otherwise the requested slice, clipped to the
        size; and no block is ever allocated. It fails exactly when the user can take only the first `room`
        bytes and there are more, and then those are there. */
    method Read(ino: nat, offset: nat, count: nat, room: nat) returns (r: ReadResult)
      requires Valid() && AllWhole() && ino < |inodes|
      modifies this
      ensures disk == old(disk) && inodes == old(inodes) && owner == old(owner)
      ensures r == ReadOffsetOverflows <==> offset <= inodes[ino].size && offset + count >= WORD_LIMIT
      ensures r.BadAddress? <==>
                && offset <= inodes[ino].size && offset + count < WORD_LIMIT
                && room < (if offset + count > inodes[ino].size then inodes[ino].size - offset else count)
      ensures r.BadAddress? ==> r.filled == Content(disk, inodes, ino)[offset..offset + room]
      ensures r.Bytes? ==>
                r.data == if offset > inodes[ino].size then []
                          else var c := Content(disk, inodes, ino);
                               c[offset..if offset + count < |c| then offset + count else |c|]
    {
      hide Mapped, Accounted, Whole, ByteAt, Content;
      if offset > inodes[ino].size {
        return Bytes([]);
      }
      if offset + count >= WORD_LIMIT {
        return ReadOffsetOverflows;
      }
      var toRead := count;
      if offset + count > inodes[ino].size {
        toRead := inodes[ino].size - offset;
      }
      var data: seq<Byte> := [];
      var current := offset;
      while |data| < toRead
        invariant disk == old(disk) && inodes == old(inodes) && owner == old(owner)
        invariant |data| <= toRead && |data| <= room && current == offset + |data| && Valid() && AllWhole()
        invariant data == Content(disk, inodes, ino)[offset..current]
        decreases toRead - |data|
      {
        var chunk := ReadNext(ino, current, toRead - |data|);
        if |data| + |chunk| > room {
          ghost var c := Content(disk, inodes, ino);
          assert c[offset..current] + chunk[..room - |data|] == c[offset..offset + room];
          return BadAddress(data + chunk[..room - |data|]);
        }
        assert Content(disk, inodes, ino)[offset..current] + chunk
            == Content(disk, inodes, ino)[offset..current + |chunk|];
        data := data + chunk;
        current := current + |chunk|;
      }
      return Bytes(data);
    }

    /** One round of Inode.read's loop: up to the end of a block, and always something. */
    method ReadNext(ino: nat, current: nat, wanted: nat) returns (chunk: seq<Byte>)
      requires Valid() && ino < |inodes| && Whole(disk, inodes, ino)
      requires 0 < wanted && current + wanted <= inodes[ino].size
      modifies this
      ensures disk == old(disk) && inodes == old(inodes) && owner == old(owner)
      ensures 0 < |chunk| <= wanted && chunk == Content(disk, inodes, ino)[current..current + |chunk|]
    {
      hide Mapped, Accounted, Whole, ByteAt, Content;
      NextPosition(disk, inodes, ino, current);
      var block := GetBlock(ino, current / BLOCK_SIZE);
      var r := current % BLOCK_SIZE;
      var n := if wanted < BLOCK_SIZE - r then wanted else BLOCK_SIZE - r;
      Named(layout, disk, inodes, owner, FileSlot(ino, current / BLOCK_SIZE));
      ChunkContent(disk, inodes, ino, current, n, disk[block.value]);
      chunk := disk[block.value][r..r + n];
    }

    /** Inode.write. The bytes written replace exactly that stretch of the file, which grows if they end
        past its end; fewer are written only when no block is left or a copy from the user fails. Of the
        source the user has only the first `readable` bytes. When a copy fails part-way, its first bytes
        are in the block all the same, neither counted nor logged. */
    method Write(ino: nat, offset: nat, source: seq<Byte>, readable: nat) returns (r: WriteResult, ghost loose: set<nat>)
      requires Valid() && AllWhole() && ino < |inodes| && readable <= |source|
      modifies this
      ensures Valid() && AllWhole() && |inodes| == |old(inodes)|
      ensures r == OutOfInodeRange <==> offset > old(inodes)[ino].size
      ensures r == OffsetOverflows <==> offset <= old(inodes)[ino].size && offset + |source| >= WORD_LIMIT
      ensures r == FileOverflow <==>
                offset <= old(inodes)[ino].size && MAX_BYTES < offset + |source| < WORD_LIMIT
      ensures !r.Written? ==> disk == old(disk) && inodes == old(inodes) && owner == old(owner)
      ensures r.Written? ==>
                && r.count <= readable && AtPiece(offset, r.count, |source|)
                && (r.count < |source| ==> r.faulted || NoFreeBlock())
                && (r.faulted ==> r.count < |source| && readable < r.count + Piece(offset, r.count, |source|))
                && (r.count == 0 && source != [] && offset / BLOCK_SIZE < DIRECT ==> r.faulted || old(NoFreeBlock()))
                && (r.count == 0 && source != [] && offset < old(inodes)[ino].size ==> r.faulted)
      ensures r.Written? ==>
                var size, stored := old(inodes)[ino].size, if r.faulted then readable else r.count;
                && inodes[ino].size == (if offset + r.count > size then offset + r.count else size)
                && inodes[ino].size <= |Overlay(Content(old(disk), old(inodes), ino), offset, source[..stored])|
                && Content(disk, inodes, ino)
                   == Overlay(Content(old(disk), old(inodes), ino), offset, source[..stored])[..inodes[ino].size]
                && forall other | 0 <= other < |inodes| && other != ino ::
                     Content(disk, inodes, other) == Content(old(disk), old(inodes), other)
      ensures !r.Written? ==> logged == old(logged)
      ensures Journaled(layout, old(disk), disk, old(logged), logged + loose)
      ensures !(r.Written? && r.faulted && r.count < readable) ==> loose == {}
      ensures r.Written? ==>
                && LoggedFor(layout, owner, old(logged) + {layout.InodeBlock(ino)}, logged, ino, offset / BLOCK_SIZE, LastBlock(offset, |source|))
                && Grown(old(owner), owner, logged) && OthersKept(old(inodes), inodes, ino)
                && forall b | b in loose :: b in owner && owner[b] == FileSlot(ino, (offset + r.count) / BLOCK_SIZE)
    {
      hide Mapped, Accounted, Whole, ByteAt, Content, DataAt, BlockAt, Stored, GainedAtMost, SameData, Journaled,
           Overlay, Piece, AtPiece, Used, Grown, LoggedFor, LastBlock;
      loose := {};
      assert logged + loose == logged;
      JournaledNone(layout, disk, logged);
      if offset > inodes[ino].size {
        return OutOfInodeRange, {};
      }
      if offset + |source| >= WORD_LIMIT {
        return OffsetOverflows, {};
      }
      if offset + |source| > BLOCK_SIZE * MAX_BLOCKS {
        return FileOverflow, {};
      }
      var written, faulted := 0, false;
      StoredNone(disk, inodes, ino, offset, source);
      ghost var first, last := offset / BLOCK_SIZE, LastBlock(offset, |source|);
      NoneLogged(layout, owner, logged, ino, first, last);
      FirstPiece(offset, |source|);
      if offset < inodes[ino].size {
        NextPosition(disk, inodes, ino, offset);
      }
      while written < |source|
        invariant written <= readable && Valid() && AtPiece(offset, written, |source|)
        invariant Stored(old(disk), old(inodes), disk, inodes, ino, offset, source, written)
        invariant SameSizes(old(disk), old(inodes), disk, inodes)
        invariant LoggedFor(layout, owner, old(logged), logged, ino, first, last)
        invariant Grown(old(owner), owner, logged) && OthersKept(old(inodes), inodes, ino)
        invariant Journaled(layout, old(disk), disk, old(logged), logged) && !faulted && loose == {}
        invariant written == 0 ==> disk == old(disk) && inodes == old(inodes) && owner == old(owner)
        decreases |source| - written
      {
        ghost var owner0, logged0, disk0 := owner, logged, disk;
        var next: nat;
        next, faulted, loose := WriteNext(ino, offset, source, readable, written, old(disk), old(inodes));
        JournaledTwice(layout, old(disk), disk0, disk, old(logged), logged0, logged + loose);
        BetweenBlocks(offset, |source|, written);
        LoggedMore(layout, owner0, owner, old(logged), logged0, logged, ino, first, last, (offset + written) / BLOCK_SIZE);
        GrownTwice(old(owner), owner0, owner, logged0, logged);
        if next == written {
          break;
        }
        assert logged + loose == logged;
        written := next;
      }
      ghost var stored := if faulted then readable else written;
      assert loose == {} ==> logged + loose == logged;
      ghost var before := inodes;
      LoggedToo(layout, owner, old(logged), logged, ino, first, last, layout.InodeBlock(ino));
      GrownLater(old(owner), owner, logged, logged + {layout.InodeBlock(ino)});
      JournaledMore(layout, old(disk), disk, old(logged), logged + loose, logged + {layout.InodeBlock(ino)} + loose);
      SetSize(ino, offset + written);
      StoredContent(old(disk), old(inodes), disk, before, inodes, ino, offset, source, written, stored);
      r := Written(written, faulted);
    }

    /** The end of Inode.write: the file reaches up to `end` at least, and the inode is logged. */
    method SetSize(ino: nat, end: nat)
      requires Valid() && ino < |inodes|
      modifies `inodes, `logged
      ensures Valid() && logged == old(logged) + {layout.InodeBlock(ino)}
      ensures inodes == old(inodes)[ino := old(inodes)[ino].(size := if end > old(inodes)[ino].size then end else old(inodes)[ino].size)]
    {
      hide Mapped, Accounted;
      ghost var before := inodes;
      if end > inodes[ino].size {
        inodes := inodes[ino := inodes[ino].(size := end)];
      }
      logged := logged + {layout.InodeBlock(ino)};
      ResizedConsistent(layout, disk, before, inodes, owner, {});
    }

    /** One round of Inode.write's loop: up to the end of a block, as far as the user's bytes go. */
    method WriteNext(ino: nat, offset: nat, source: seq<Byte>, readable: nat, written: nat,
                     ghost d: seq<Block>, ghost before: seq<DiskInode>)
      returns (next: nat, faulted: bool, ghost loose: set<nat>)
      requires Valid() && ino < |before| == |inodes| && written < |source| && offset + |source| <= MAX_BYTES
      requires written <= readable <= |source|
      requires Stored(d, before, disk, inodes, ino, offset, source, written)
      modifies this
      ensures Valid() && next <= readable && (next == written || next == written + Piece(offset, written, |source|))
      ensures next == written ==> faulted || NoFreeBlock()
      ensures next == written && (offset + written) / BLOCK_SIZE < DIRECT ==> faulted || old(NoFreeBlock())
      ensures next == written && DataAt(old(disk), old(inodes), ino, (offset + written) / BLOCK_SIZE).Some? ==> faulted
      ensures faulted ==> next == written && readable < written + Piece(offset, written, |source|)
      ensures AtPiece(offset, written, |source|) ==> AtPiece(offset, next, |source|)
      ensures SameSizes(d, before, disk, inodes)
      ensures Stored(d, before, disk, inodes, ino, offset, source, if faulted then readable else next)
      ensures Grown(old(owner), owner, logged) && OthersKept(old(inodes), inodes, ino)
      ensures forall b | b in loose :: b in owner && owner[b] == FileSlot(ino, (offset + written) / BLOCK_SIZE)
      ensures Journaled(layout, old(disk), disk, old(logged), logged + loose) && (!faulted || readable == written ==> loose == {})
      ensures var index := (offset + written) / BLOCK_SIZE; LoggedFor(layout, owner, old(logged), logged, ino, index, index)
    {
      hide Mapped, Accounted, Stored, BlockAt, OverlayBlock, ByteAt, Journaled, AtPiece, Used;
      loose := {};
      var current := offset + written;
      Position(current);
      NextPiece(offset, written, |source|);
      StoredSizes(d, before, disk, inodes, ino, offset, source, written);
      ghost var d1, i1 := disk, inodes;
      var block := GetBlock(ino, current / BLOCK_SIZE);
      assert logged + loose == logged;
      if block.None? {
        StoredSame(d, before, d1, i1, disk, inodes, ino, offset, source, written);
        StoredSizes(d, before, disk, inodes, ino, offset, source, written);
        return written, false, {};
      }
      var b := block.value;
      var r := current % BLOCK_SIZE;
      var n := Piece(offset, written, |source|);
      ghost var logged2, d2 := logged, disk;
      faulted := readable < written + n;
      if faulted {
        n := readable - written;
      }
      Named(layout, disk, inodes, owner, FileSlot(ino, current / BLOCK_SIZE));
      var data := OverlayBlock(disk[b], r, source[written..written + n]);
      StoreData(layout, disk, inodes, owner, ino, current / BLOCK_SIZE, data);
      disk := disk[b := data];
      PieceStored(d, before, d1, i1, d2, inodes, disk, ino, offset, source, written, n, b);
      JournaledPiece(layout, d1, d2, b, data, old(logged), logged2, n);
      StoredSizes(d, before, disk, inodes, ino, offset, source, written + n);
      if faulted {
        loose := if n > 0 then {b} else {};
        return written, true, loose;
      }
      logged := logged + {b};
      assert logged + {} == logged;
      return written + n, false, {};
    }

    /** A chunk's worth of writing, the inode's block included. */
    lemma FitsBudget(ino: nat, offset: nat, n: nat)
      requires Valid() && ino < |inodes| && n <= MAX_CHUNK
      requires LoggedFor(layout, owner, {} + {layout.InodeBlock(ino)}, logged, ino, offset / BLOCK_SIZE, LastBlock(offset, n))
      ensures |logged| <= 6 + layout.BitmapLength()
    {
      var x := layout.InodeBlock(ino);
      ChunkBlocks(offset, n);
      assert LoggedFor(layout, owner, {}, logged - {x}, ino, offset / BLOCK_SIZE, LastBlock(offset, n));
      LoggedSize(layout, disk, inodes, owner, {}, logged - {x}, ino, offset / BLOCK_SIZE, LastBlock(offset, n));
    }

    // ---------- truncate ----------

    /** DiskBlock.free; markFree panics on a block that is not marked used. */
    method Free(b: nat)
      requires layout.Valid(|disk|) && b < layout.size && Used(layout, disk, b)
      modifies `disk, `logged
      ensures disk == Marked(layout, old(disk), b, false) && logged == old(logged) + {layout.BitmapBlock(b)}
      ensures Journaled(layout, old(disk), disk, old(logged), logged) && BitmapLogged(layout, old(logged), logged)
    {
      BitmapHolds(layout, b);
      disk := Marked(layout, disk, b, false);
      logged := logged + {layout.BitmapBlock(b)};
    }

    /** One direct slot of truncate. */
    method FreeDirect(ino: nat, k: nat)
      requires Valid() && ino < |inodes| && k < DIRECT
      modifies this
      ensures Valid() && inodes == WithAddr(old(inodes), ino, k, 0)
      ensures owner == old(owner) - {old(inodes)[ino].addrs[k]}
      ensures forall c | c in old(owner) && old(owner)[c].ino != ino :: c in owner
      ensures |disk| == |old(disk)| && forall b | b in owner && b < |disk| :: disk[b] == old(disk)[b]
      ensures forall t | IsSlot(|inodes|, t) ::
                BlockAt(disk, inodes, t) == if t == Direct(ino, k) then 0 else BlockAt(old(disk), old(inodes), t)
      ensures Journaled(layout, old(disk), disk, old(logged), logged) && BitmapLogged(layout, old(logged), logged)
    {
      hide Mapped, Accounted, Marked, Journaled;
      JournaledNone(layout, disk, logged);
      var b := inodes[ino].addrs[k];
      DropDirect(layout, disk, inodes, owner, ino, k);
      if b != 0 {
        Named(layout, disk, inodes, owner, Direct(ino, k));
        UsedOwned(b);
        ghost var owner' := owner - {b};
        UnmarkAccounted(layout, disk, owner, owner', b);
        UnmarkKeepsFiles(layout, disk, WithAddr(inodes, ino, k, 0), owner', b);
        Free(b);
        owner := owner';
      } else {
        ZeroUnowned();
        assert owner - {0} == owner;
      }
      inodes := inodes[ino := inodes[ino].(addrs := inodes[ino].addrs[k := 0])];
    }

    lemma UsedOwned(b: nat)
      requires layout.Valid(|disk|) && Accounted(layout, disk, owner, {}) && b in owner && b < layout.size
      ensures Used(layout, disk, b)
    {
    }

    lemma ZeroUnowned()
      requires layout.Valid(|disk|) && Mapped(layout, disk, inodes, owner)
      ensures 0 !in owner
    {
    }

    /** While truncate works through the indirect block: the entries below `k` are marked free,
        nothing else has changed. */
    ghost predicate Freeing(ino: nat, k: nat)
      reads this
    {
      && layout.Valid(|disk|) && Mapped(layout, disk, inodes, owner)
      && Accounted(layout, disk, WithoutIndirect(owner, ino, k), {})
    }

    /** One entry of the indirect block. */
    method FreeEntry(ino: nat, k: nat)
      requires Freeing(ino, k) && ino < |inodes| && k < INDIRECT && inodes[ino].addrs[DIRECT] != 0
      modifies `disk, `logged
      ensures Freeing(ino, k + 1) && SameFiles(layout, old(disk), disk, inodes, owner)
      ensures Journaled(layout, old(disk), disk, old(logged), logged) && BitmapLogged(layout, old(logged), logged)
    {
      JournaledNone(layout, disk, logged);
      Named(layout, disk, inodes, owner, Pointer(ino));
      var b := GetWord(disk[inodes[ino].addrs[DIRECT]], k);
      EntryAccount(layout, disk, inodes, owner, ino, k);
      hide Mapped, Accounted, Marked, WithoutIndirect, Used, Journaled;
      if b != 0 {
        UnmarkAccounted(layout, disk, WithoutIndirect(owner, ino, k), WithoutIndirect(owner, ino, k + 1), b);
        UnmarkKeepsFiles(layout, disk, inodes, owner, b);
        Free(b);
      }
    }

    /** The indirect block of truncate, once the direct slots are empty. */
    method FreeIndirect(ino: nat)
      requires Valid() && ino < |inodes| && inodes[ino].addrs[DIRECT] != 0
      requires forall k | 0 <= k < DIRECT :: inodes[ino].addrs[k] == 0
      modifies this
      ensures Valid() && inodes == WithAddr(old(inodes), ino, DIRECT, 0)
      ensures owner == WithoutInode(old(owner), ino)
      ensures |disk| == |old(disk)| && forall b | b in owner && b < |disk| :: disk[b] == old(disk)[b]
      ensures forall t | IsSlot(|inodes|, t) ::
                BlockAt(disk, inodes, t) == if t.ino == ino then 0 else BlockAt(old(disk), old(inodes), t)
      ensures Journaled(layout, old(disk), disk, old(logged), logged) && BitmapLogged(layout, old(logged), logged)
    {
      NothingFreed(owner, ino);
      hide Mapped, Accounted, Marked, WithoutIndirect, Journaled;
      JournaledNone(layout, disk, logged);
      var k := 0;
      while k < INDIRECT
        invariant k <= INDIRECT && inodes == old(inodes) && owner == old(owner)
        invariant Freeing(ino, k) && SameFiles(layout, old(disk), disk, inodes, owner)
        invariant Journaled(layout, old(disk), disk, old(logged), logged) && BitmapLogged(layout, old(logged), logged)
      {
        ghost var disk0, logged0 := disk, logged;
        FreeEntry(ino, k);
        JournaledTwice(layout, old(disk), disk0, disk, old(logged), logged0, logged);
        k := k + 1;
      }
      var p := inodes[ino].addrs[DIRECT];
      PointerAccount(layout, disk, inodes, owner, ino);
      UnmarkAccounted(layout, disk, WithoutIndirect(owner, ino, INDIRECT), WithoutInode(owner, ino), p);
      UnmarkKeepsFiles(layout, disk, inodes, owner, p);
      ghost var disk1, logged1 := disk, logged;
      Free(p);
      JournaledTwice(layout, old(disk), disk1, disk, old(logged), logged1, logged);
      DropPointer(layout, disk, inodes, owner, ino);
      inodes := inodes[ino := inodes[ino].(addrs := inodes[ino].addrs[DIRECT := 0])];
      owner := WithoutInode(owner, ino);
    }

    /** truncate: the inode gives up every block it has, and exactly those become free. */
    method Truncate(ino: nat)
      requires Valid() && ino < |inodes|
      modifies this
      ensures Valid() && |inodes| == |old(inodes)| && |disk| == |old(disk)|
      ensures owner == WithoutInode(old(owner), ino)
      ensures inodes[ino].size == 0 && forall i | 0 <= i < MAX_BLOCKS :: DataAt(disk, inodes, ino, i) == None
      ensures forall other, i | 0 <= other < |inodes| && other != ino && 0 <= i < MAX_BLOCKS ::
                DataAt(disk, inodes, other, i) == DataAt(old(disk), old(inodes), other, i)
      ensures forall other | 0 <= other < |inodes| && other != ino :: inodes[other].size == old(inodes)[other].size
      ensures forall b: nat | b < layout.size ::
                Used(layout, disk, b) <==> Used(layout, old(disk), b) && !(b in old(owner) && old(owner)[b].ino == ino)
      ensures Journaled(layout, old(disk), disk, old(logged), logged) && layout.InodeBlock(ino) in logged
      ensures BitmapLogged(layout, old(logged) + {layout.InodeBlock(ino)}, logged)
      ensures OthersKept(old(inodes), inodes, ino)
    {
      hide Mapped, Accounted, BlockAt, Used, DataAt, Journaled;
      JournaledNone(layout, disk, logged);
      var k := 0;
      while k < DIRECT
        invariant k <= DIRECT && Valid()
        invariant Stripped(old(disk), old(inodes), old(owner), disk, inodes, owner, ino)
        invariant forall j | 0 <= j < k :: inodes[ino].addrs[j] == 0
        invariant Journaled(layout, old(disk), disk, old(logged), logged) && OthersKept(old(inodes), inodes, ino) && BitmapLogged(layout, old(logged), logged)
      {
        ghost var disk0, logged0 := disk, logged;
        FreeDirect(ino, k);
        JournaledTwice(layout, old(disk), disk0, disk, old(logged), logged0, logged);
        k := k + 1;
      }
      ghost var disk1, logged1 := disk, logged;
      if inodes[ino].addrs[DIRECT] != 0 {
        FreeIndirect(ino);
        JournaledTwice(layout, old(disk), disk1, disk, old(logged), logged1, logged);
      }
      BareInode(layout, disk, inodes, owner, ino);
      ghost var before := inodes;
      inodes := inodes[ino := inodes[ino].(size := 0)];
      JournaledMore(layout, old(disk), disk, old(logged), logged, logged + {layout.InodeBlock(ino)});
      logged := logged + {layout.InodeBlock(ino)};
      ResizedConsistent(layout, disk, before, inodes, owner, {});
      TruncatedMeaning(layout, old(disk), old(inodes), old(owner), disk, before, inodes, owner, ino);
    }
  }
  // ---------- open files ----------

  /** (max_num_operation_blocks - 1 - 1 - 2) / 2 blocks. */
  const MAX_CHUNK := (10 - 1 - 1 - 2) / 2 * BLOCK_SIZE

  lemma ChunkBlocks(offset: nat, n: nat)
    requires n <= MAX_CHUNK
    ensures LastBlock(offset, n) <= offset / BLOCK_SIZE + 3
  {
  }

  /** Writing on where the last write ended. */
  lemma OverlayTwice(c: seq<Byte>, offset: nat, s: seq<Byte>, t: seq<Byte>)
    requires offset <= |c|
    ensures offset + |s| <= |Overlay(c, offset, s)|
    ensures Overlay(Overlay(c, offset, s), offset + |s|, t) == Overlay(c, offset, s + t)
  {
    var a, b := Overlay(Overlay(c, offset, s), offset + |s|, t), Overlay(c, offset, s + t);
    assert |a| == |b|;
    forall i | 0 <= i < |a| ensures a[i] == b[i] {
    }
  }

  /** `now` is `was` with `stored` laid over it, cut off where the first `count` bytes of it end unless the
      file went on. */
  ghost predicate LaidOver(was: seq<Byte>, now: seq<Byte>, offset: nat, stored: seq<Byte>, count: nat)
    requires offset <= |was|
  {
    && count <= |stored|
    && |now| == (if offset + count > |was| then offset + count else |was|) <= |Overlay(was, offset, stored)|
    && now == Overlay(was, offset, stored)[..|now|]
  }

  lemma NothingLaid(was: seq<Byte>, offset: nat)
    requires offset <= |was|
    ensures LaidOver(was, was, offset, [], 0)
  {
  }

  lemma FrontOfPiece(source: seq<Byte>, w: nat, count: nat, k: nat)
    requires w + count <= |source| && k <= count
    ensures source[w..w + count][..k] == source[w..w + k]
  {
  }

  lemma LaidSize(was: seq<Byte>, now: seq<Byte>, offset: nat, stored: seq<Byte>, count: nat)
    requires offset <= |was| && LaidOver(was, now, offset, stored, count)
    ensures offset + count <= |now|
  {
  }

  /** Laying on where the last chunk ended; only of the last one may more be stored than counts. */
  lemma LaidOn(was: seq<Byte>, between: seq<Byte>, now: seq<Byte>, offset: nat, source: seq<Byte>, w: nat, stored: nat, count: nat)
    requires offset <= |was| && count <= stored && w + stored <= |source|
    requires LaidOver(was, between, offset, source[..w], w)
    requires offset + w <= |between| && LaidOver(between, now, offset + w, source[w..w + stored], count)
    ensures LaidOver(was, now, offset, source[..w + stored], w + count)
  {
    hide Overlay;
    var s, t := source[..w], source[w..w + stored];
    assert s + t == source[..w + stored];
    OverlaySize(was, offset, s);
    assert between == Overlay(was, offset, s);
    OverlayTwice(was, offset, s, t);
  }

  lemma OverlaySize(c: seq<Byte>, offset: nat, s: seq<Byte>)
    requires offset <= |c|
    ensures |Overlay(c, offset, s)| == if offset + |s| > |c| then offset + |s| else |c|
  {
  }

  lemma ShorterPiece(offset: nat, written: nat, length: nat)
    requires written <= length
    ensures written + Piece(offset, written, length) <= length
  {
  }

  datatype FileWriteResult = WroteAll | InodeRefused | WriteFailed(faulted: bool)

  /** An open file on an inode. */
  class OpenFile {
    const fs: FileSystem
    const ino: nat
    var offset: nat

    constructor (fs: FileSystem, ino: nat)
      ensures this.fs == fs && this.ino == ino && offset == 0
    {
      this.fs, this.ino, offset := fs, ino, 0;
    }

    /** One round of File.write's loop, an operation of its own. With a bitmap of one block it logs at
        most seven blocks, within the ten an operation may. */
    method WriteChunk(source: seq<Byte>, readable: nat) returns (r: WriteResult, ghost loose: set<nat>)
      requires fs.Valid() && fs.AllWhole() && ino < |fs.inodes| && readable <= |source| <= MAX_CHUNK
      modifies this, fs
      ensures fs.Valid() && fs.AllWhole() && |fs.inodes| == |old(fs.inodes)|
      ensures |fs.logged| <= 6 + fs.layout.BitmapLength() && Journaled(fs.layout, old(fs.disk), fs.disk, {}, fs.logged + loose)
      ensures !(r.Written? && r.faulted && r.count < readable) ==> loose == {}
      ensures !r.Written? ==> offset == old(offset) && fs.disk == old(fs.disk) && fs.inodes == old(fs.inodes)
      ensures old(offset) <= old(fs.inodes)[ino].size && old(offset) + |source| <= MAX_BYTES ==> r.Written?
      ensures r.Written? ==>
                && r.count <= readable && (r.count < |source| ==> r.faulted || fs.NoFreeBlock())
                && (r.faulted ==> r.count < |source| && readable < |source|)
                && offset == old(offset) + r.count && old(offset) <= old(fs.inodes)[ino].size
                && LaidOver(Content(old(fs.disk), old(fs.inodes), ino), Content(fs.disk, fs.inodes, ino), old(offset),
                            source[..if r.faulted then readable else r.count], r.count)
                && forall other | 0 <= other < |fs.inodes| && other != ino ::
                     Content(fs.disk, fs.inodes, other) == Content(old(fs.disk), old(fs.inodes), other)
    {
      hide Mapped, Accounted, Whole, ByteAt, LoggedFor, LastBlock, Journaled, Piece, AtPiece, Overlay;
      fs.logged := {};
      r, loose := fs.Write(ino, offset, source, readable);
      if r.Written? {
        fs.FitsBudget(ino, offset, |source|);
        ShorterPiece(offset, r.count, |source|);
        offset := offset + r.count;
      }
    }

    /** File.write on an inode: the file ends up with the bytes from the old offset to the new one laid over
        it, and the call succeeds exactly when those are all of them. Of a piece whose copy fails the bytes
        the user has are laid over the file too, as far as the file goes. */
    method Write(source: seq<Byte>, readable: nat) returns (r: FileWriteResult)
      requires fs.Valid() && fs.AllWhole() && ino < |fs.inodes| && readable <= |source|
      modifies this, fs
      ensures fs.Valid() && fs.AllWhole() && |fs.inodes| == |old(fs.inodes)|
      ensures old(offset) <= offset <= old(offset) + readable
      ensures r == WroteAll <==> offset == old(offset) + |source|
      ensures r == WriteFailed(false) ==> fs.NoFreeBlock()
      ensures r == WriteFailed(true) ==> readable < |source|
      ensures r == InodeRefused ==> old(offset) > old(fs.inodes)[ino].size || old(offset) + |source| > MAX_BYTES
      ensures old(offset) > old(fs.inodes)[ino].size ==> fs.disk == old(fs.disk) && fs.inodes == old(fs.inodes) && offset == old(offset)
      ensures old(offset) <= old(fs.inodes)[ino].size ==>
                LaidOver(Content(old(fs.disk), old(fs.inodes), ino), Content(fs.disk, fs.inodes, ino), old(offset),
                         source[..if r == WriteFailed(true) then readable else offset - old(offset)], offset - old(offset))
      ensures forall other | 0 <= other < |fs.inodes| && other != ino ::
                Content(fs.disk, fs.inodes, other) == Content(old(fs.disk), old(fs.inodes), other)
    {
      hide Mapped, Accounted, Whole, ByteAt, Content, LoggedFor, LastBlock, Overlay, LaidOver, Journaled, Used;
      var written := 0;
      ghost var was := Content(fs.disk, fs.inodes, ino);
      if offset <= |was| {
        NothingLaid(was, offset);
      }
      while written < |source|
        invariant fs.Valid() && fs.AllWhole() && |fs.inodes| == |old(fs.inodes)|
        invariant written <= readable && offset == old(offset) + written
        invariant written == 0 ==> fs.disk == old(fs.disk) && fs.inodes == old(fs.inodes)
        invariant written > 0 ==> old(offset) <= |was|
        invariant old(offset) <= |was| ==> LaidOver(was, Content(fs.disk, fs.inodes, ino), old(offset), source[..written], written)
        invariant forall other | 0 <= other < |fs.inodes| && other != ino ::
                    Content(fs.disk, fs.inodes, other) == Content(old(fs.disk), old(fs.inodes), other)
        decreases |source| - written
      {
        var count := if |source| - written < MAX_CHUNK then |source| - written else MAX_CHUNK;
        var there := if readable - written < count then readable - written else count;
        ghost var between := Content(fs.disk, fs.inodes, ino);
        if old(offset) <= |was| {
          LaidSize(was, between, old(offset), source[..written], written);
        }
        var chunk, loose := WriteChunk(source[written..written + count], there);
        if !chunk.Written? {
          return InodeRefused;
        }
        ghost var stored := if chunk.faulted then there else chunk.count;
        FrontOfPiece(source, written, count, stored);
        LaidOn(was, between, Content(fs.disk, fs.inodes, ino), old(offset), source, written, stored, chunk.count);
        if chunk.count != count {
          return WriteFailed(chunk.faulted);
        }
        written := written + count;
      }
      return WroteAll;
    }
  }

  /** A run in which a failed write changes what it does not report: the user has one of two bytes, none
      are counted, and the file's first byte is another. */
  method StrayByte() returns (fs: FileSystem, r: WriteResult, ghost before: seq<Byte>)
    ensures fs.Valid() && fs.AllWhole() && |fs.inodes| == 1 && r == Written(0, true)
    ensures before == [7, 7] && Content(fs.disk, fs.inodes, 0) == [1, 7]
  {
    hide Mapped, Accounted, Whole, ByteAt, LoggedFor, LastBlock, Journaled;
    var layout := Layout(100, 3, 10, 11);
    assert layout.Valid(100);
    fs := new FileSystem(layout, 100, 1);
    assert !Used(layout, fs.disk, 11);
    ghost var loose;
    r, loose := fs.Write(0, 0, [7, 7], 2);
    before := Content(fs.disk, fs.inodes, 0);
    assert Overlay([], 0, [7, 7][..2]) == [7, 7];
    fs.logged := {};
    r, loose := fs.Write(0, 0, [1, 2], 1);
    assert Overlay([7, 7], 0, [1, 2][..1]) == [1, 7];
  }
}
