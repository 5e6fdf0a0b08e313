/** The file layer over the log, across crashes. Operations change what the buffer cache presents; a group of
    them commits as one transaction; after a crash the kernel starts over from what recovery left on the disk. */
module Volumes {
  import opened Blocks
  import opened Bitmap
  import opened Files
  import opened Inodes
  import opened Journal
  import opened Wrappers
  import C = BufferCaching
  import L = Logging

  /** Boot block and superblock, then the log, the inodes, the bitmap and the file blocks. */
  datatype Plan = Plan(layout: Layout, log: Region, ninodes: nat) {
    ghost predicate Valid(n: nat) {
      && layout.Valid(n) && Fits(log, n)
      && log.start + log.size <= layout.inodestart <= layout.bmapstart
      && (forall i: nat | i < ninodes :: layout.InodeBlock(i) < layout.bmapstart)
      && layout.bmapstart + layout.BitmapLength() <= layout.dataStart
    }
  }

  lemma MetadataApart(p: Plan, n: nat)
    requires p.Valid(n)
    ensures forall i: nat | i < p.ninodes ::
              var b := p.layout.InodeBlock(i); b < p.layout.dataStart && b < n && !p.log.IsLog(b) && !InBitmap(p.layout, b)
    ensures forall b: nat | InBitmap(p.layout, b) || p.layout.dataStart <= b :: !p.log.IsLog(b)
    ensures forall b: nat | InBitmap(p.layout, b) :: b < p.layout.dataStart <= p.layout.size <= n
  {
  }

  // ---------- files on a disk ----------

  ghost predicate NoHoles(d: seq<Block>, inodes: seq<DiskInode>) {
    forall ino | 0 <= ino < |inodes| :: Whole(d, inodes, ino)
  }

  ghost function FilesOf(d: seq<Block>, inodes: seq<DiskInode>): (files: seq<seq<Byte>>)
    requires NoHoles(d, inodes)
    ensures |files| == |inodes|
  {
    seq(|inodes|, ino requires 0 <= ino < |inodes| => Content(d, inodes, ino))
  }

  /** Everything as the disk's own blocks say it: the inodes, the blocks they name, the bitmap. */
  ghost predicate Sound(p: Plan, d: DiskState, owner: map<nat, Slot>) {
    && p.Valid(|d|)
    && Consistent(p.layout, d, InodesOn(p.layout, d, p.ninodes), owner, {})
    && NoHoles(d, InodesOn(p.layout, d, p.ninodes))
  }

  ghost function FilesOn(p: Plan, d: DiskState): seq<seq<Byte>>
    requires p.Valid(|d|) && NoHoles(d, InodesOn(p.layout, d, p.ninodes))
  {
    FilesOf(d, InodesOn(p.layout, d, p.ninodes))
  }

  /** The same files, but for the bytes of some file blocks. */
  ghost predicate Alike(files: seq<seq<Byte>>, files': seq<seq<Byte>>, stray: set<(nat, nat)>) {
    && |files| == |files'|
    && forall i | 0 <= i < |files| ::
         && |files[i]| == |files'[i]|
         && forall k | 0 <= k < |files[i]| :: (i, k / BLOCK_SIZE) in stray || files[i][k] == files'[i][k]
  }

  lemma AlikeNone(files: seq<seq<Byte>>, files': seq<seq<Byte>>)
    requires Alike(files, files', {})
    ensures files == files'
  {
    forall i | 0 <= i < |files| ensures files[i] == files'[i] {
    }
  }

  lemma AlikeSame(files: seq<seq<Byte>>, stray: set<(nat, nat)>)
    ensures Alike(files, files, stray)
  {
  }

  lemma AlikeTwice(a: seq<seq<Byte>>, b: seq<seq<Byte>>, c: seq<seq<Byte>>, stray: set<(nat, nat)>)
    requires Alike(a, b, stray) && Alike(b, c, stray)
    ensures Alike(a, c, stray)
  {
  }

  lemma AlikeMore(a: seq<seq<Byte>>, b: seq<seq<Byte>>, stray: set<(nat, nat)>, stray': set<(nat, nat)>)
    requires Alike(a, b, stray) && stray <= stray'
    ensures Alike(a, b, stray') && Alike(b, a, stray')
  {
  }

  // ---------- what operations do to the files ----------

  datatype Call =
    | WriteInode(ino: nat, offset: nat, source: seq<Byte>, readable: nat)
    | TruncateInode(ino: nat)
    | Recycle(block: nat)       // the cache gives a block's buffer to another block

  predicate Legal(c: Call, ninodes: nat) {
    match c
    case WriteInode(ino, _, source, readable) => ino < ninodes && readable <= |source|
    case TruncateInode(ino) => ino < ninodes
    case Recycle(_) => true
  }

  datatype Done = Done(call: Call, result: WriteResult)

  /** The files after a call: a write lays the bytes that count over the file. */
  function After(files: seq<seq<Byte>>, x: Done): seq<seq<Byte>> {
    match x.call
    case WriteInode(ino, offset, source, _) =>
      if x.result.Written? && ino < |files| && offset <= |files[ino]| && x.result.count <= |source|
      then files[ino := Overlay(files[ino], offset, source[..x.result.count])] else files
    case TruncateInode(ino) => if ino < |files| then files[ino := []] else files
    case Recycle(_) => files
  }

  function AfterAll(files: seq<seq<Byte>>, xs: seq<Done>): seq<seq<Byte>> {
    if xs == [] then files else After(AfterAll(files, xs[..|xs| - 1]), xs[|xs| - 1])
  }

  /** Why a write was refused, and how much of it counts when it was not. */
  predicate Explains(files: seq<seq<Byte>>, x: Done) {
    match x.call
    case WriteInode(ino, offset, source, readable) =>
      && ino < |files|
      && (x.result == OutOfInodeRange <==> offset > |files[ino]|)
      && (x.result == OffsetOverflows <==> offset <= |files[ino]| && offset + |source| >= WORD_LIMIT)
      && (x.result == FileOverflow <==> offset <= |files[ino]| && MAX_BYTES < offset + |source| < WORD_LIMIT)
      && (x.result.Written? ==> x.result.count <= readable && (x.result.faulted ==> readable < |source|))
    case _ => true
  }

  predicate ExplainsAll(files: seq<seq<Byte>>, xs: seq<Done>) {
    xs == [] || (ExplainsAll(files, xs[..|xs| - 1]) && Explains(AfterAll(files, xs[..|xs| - 1]), xs[|xs| - 1]))
  }

  /** A write that was let in, met no bad address, and still left bytes out. */
  predicate CutShort(x: Done) {
    x.call.WriteInode? && x.result.Written? && !x.result.faulted && x.result.count < |x.call.source|
  }

  /** Blocks that calls can log. */
  function Cost(l: Layout, c: Call): nat {
    match c
    case WriteInode(_, offset, source, _) =>
      var first, last := offset / BLOCK_SIZE, LastBlock(offset, |source|);
      l.BitmapLength() + 2 + (if last < first then 0 else last - first + 1)
    case TruncateInode(_) => l.BitmapLength() + 1
    case Recycle(_) => 0
  }

  function CostAll(l: Layout, cs: seq<Call>): nat {
    if cs == [] then 0 else CostAll(l, cs[..|cs| - 1]) + Cost(l, cs[|cs| - 1])
  }

  /** The file block in which a write's copy failed part-way. */
  function StrayOf(x: Done): set<(nat, nat)> {
    match x.call
    case WriteInode(ino, offset, _, readable) =>
      if x.result.Written? && x.result.faulted && x.result.count < readable
      then {(ino, (offset + x.result.count) / BLOCK_SIZE)} else {}
    case _ => {}
  }

  function StrayAll(xs: seq<Done>): set<(nat, nat)> {
    if xs == [] then {} else StrayAll(xs[..|xs| - 1]) + StrayOf(xs[|xs| - 1])
  }

  /** Calls take files that are alike to files that are alike. */
  lemma AfterAlike(a: seq<seq<Byte>>, b: seq<seq<Byte>>, x: Done, stray: set<(nat, nat)>)
    requires Alike(a, b, stray)
    ensures Alike(After(a, x), After(b, x), stray) && (Explains(a, x) <==> Explains(b, x))
  {
    if x.call.WriteInode? {
      var ino := x.call.ino;
      if x.result.Written? && ino < |a| && x.call.offset <= |a[ino]| && x.result.count <= |x.call.source| {
        assert |a[ino]| == |b[ino]|;
        var s := x.call.source[..x.result.count];
        var a', b' := Overlay(a[ino], x.call.offset, s), Overlay(b[ino], x.call.offset, s);
        forall k | 0 <= k < |a'| ensures (ino, k / BLOCK_SIZE) in stray || a'[k] == b'[k] {
          assert k < |a[ino]| ==> (ino, k / BLOCK_SIZE) in stray || a[ino][k] == b[ino][k];
        }
      }
    }
  }

  // ---------- the disk beside what the cache presents ----------

  /** Where a disk differs from what the cache presents, other than in blocks yet to be committed: only in free
      blocks, and in file blocks a write failed in. */
  ghost predicate Beside(p: Plan, d: DiskState, v: seq<Block>, owner: map<nat, Slot>, logged: set<nat>, stray: set<(nat, nat)>) {
    && |d| == |v|
    && forall b | 0 <= b < |d| && !p.log.IsLog(b) && b !in logged && d[b] != v[b] ::
         && p.layout.dataStart <= b
         && (b in owner ==> !owner[b].Pointer? && (owner[b].ino, FileIndex(owner[b])) in stray)
  }

  lemma BesideInodes(p: Plan, d: DiskState, v: seq<Block>, owner: map<nat, Slot>, stray: set<(nat, nat)>)
    requires p.Valid(|d|) && Beside(p, d, v, owner, {}, stray)
    ensures InodesOn(p.layout, d, p.ninodes) == InodesOn(p.layout, v, p.ninodes)
  {
    MetadataApart(p, |d|);
    SameInodes(p.layout, v, d, p.ninodes);
  }

  lemma BesideConsistent(p: Plan, d: DiskState, v: seq<Block>, inodes: seq<DiskInode>, owner: map<nat, Slot>, stray: set<(nat, nat)>)
    requires p.Valid(|d|) && Beside(p, d, v, owner, {}, stray) && Consistent(p.layout, v, inodes, owner, {})
    ensures Consistent(p.layout, d, inodes, owner, {})
    ensures forall s | IsSlot(|inodes|, s) :: BlockAt(d, inodes, s) == BlockAt(v, inodes, s)
  {
    var l := p.layout;
    MetadataApart(p, |d|);
    forall s | IsSlot(|inodes|, s) ensures BlockAt(d, inodes, s) == BlockAt(v, inodes, s) {
      if s.Indirect? && inodes[s.ino].addrs[DIRECT] != 0 {
        Named(l, v, inodes, owner, Pointer(s.ino));
      }
    }
    forall b: nat | b < l.size ensures Used(l, d, b) <==> Used(l, v, b) {
      BitmapHolds(l, b);
    }
  }

  lemma BesideData(p: Plan, d: DiskState, v: seq<Block>, inodes: seq<DiskInode>, owner: map<nat, Slot>, stray: set<(nat, nat)>,
                   ino: nat, i: nat)
    requires p.Valid(|d|) && Beside(p, d, v, owner, {}, stray) && Consistent(p.layout, v, inodes, owner, {})
    requires ino < |inodes| && i < MAX_BLOCKS
    ensures DataAt(d, inodes, ino, i).Some? <==> DataAt(v, inodes, ino, i).Some?
    ensures (ino, i) !in stray ==> DataAt(d, inodes, ino, i) == DataAt(v, inodes, ino, i)
  {
    var s := FileSlot(ino, i);
    BesideConsistent(p, d, v, inodes, owner, stray);
    assert IsSlot(|inodes|, s) && FileIndex(s) == i;
    MetadataApart(p, |d|);
    hide Mapped, Accounted;
    if BlockAt(v, inodes, s) != 0 {
      Named(p.layout, v, inodes, owner, s);
    }
  }

  /** So the disk is as sound as what the cache presents, and holds the same files but for stray bytes. */
  lemma BesideSound(p: Plan, d: DiskState, v: seq<Block>, inodes: seq<DiskInode>, owner: map<nat, Slot>, stray: set<(nat, nat)>)
    requires p.Valid(|d|) && Beside(p, d, v, owner, {}, stray) && Consistent(p.layout, v, inodes, owner, {})
    requires inodes == InodesOn(p.layout, v, p.ninodes) && NoHoles(v, inodes)
    ensures Sound(p, d, owner) && Alike(FilesOf(v, inodes), FilesOn(p, d), stray)
  {
    BesideInodes(p, d, v, owner, stray);
    BesideConsistent(p, d, v, inodes, owner, stray);
    hide Consistent, Beside, DataAt, Plan.Valid;
    forall ino | 0 <= ino < |inodes| ensures Whole(d, inodes, ino) {
      assert Whole(v, inodes, ino);
      forall k: nat | k < inodes[ino].size ensures ByteAt(d, inodes, ino, k).Some? {
        Position(k);
        BesideData(p, d, v, inodes, owner, stray, ino, k / BLOCK_SIZE);
        assert ByteAt(v, inodes, ino, k).Some?;
      }
    }
    forall ino, k | 0 <= ino < |inodes| && 0 <= k < inodes[ino].size
      ensures (ino, k / BLOCK_SIZE) in stray || FilesOf(v, inodes)[ino][k] == FilesOf(d, inodes)[ino][k]
    {
      assert Whole(v, inodes, ino) && Whole(d, inodes, ino);
      Position(k);
      BesideData(p, d, v, inodes, owner, stray, ino, k / BLOCK_SIZE);
      assert ByteAt(v, inodes, ino, k) == Some(FilesOf(v, inodes)[ino][k]);
      assert ByteAt(d, inodes, ino, k) == Some(FilesOf(d, inodes)[ino][k]);
    }
  }

  // ---------- one operation ----------

  /** An operation logs what it changes, but for a block whose copy failed. */
  lemma StepBeside(p: Plan, d: DiskState, v: seq<Block>, owner: map<nat, Slot>, logged: set<nat>, stray: set<(nat, nat)>,
                   v': seq<Block>, owner': map<nat, Slot>, logged': set<nat>, stray': set<(nat, nat)>, loose: set<nat>)
    requires Beside(p, d, v, owner, logged, stray) && logged <= logged' && stray <= stray'
    requires Journaled(p.layout, v, v', logged, logged' + loose)
    requires forall b | b in owner' && b !in logged' :: b in owner && owner'[b] == owner[b]
    requires forall b | b in loose ::
               && p.layout.dataStart <= b && b in owner' && !owner'[b].Pointer?
               && (owner'[b].ino, FileIndex(owner'[b])) in stray'
    ensures Beside(p, d, v', owner', logged', stray')
  {
  }

  lemma StoreBeside(p: Plan, d: DiskState, v: seq<Block>, owner: map<nat, Slot>, logged: set<nat>, stray: set<(nat, nat)>,
                    b: nat, data: Block)
    requires Beside(p, d, v, owner, logged, stray) && b < |v| && b in logged
    ensures Beside(p, d, v[b := data], owner, logged, stray)
  {
  }

  /** The blocks given to the log are home blocks. */
  ghost predicate HomeBlocks(p: Plan, n: nat, logged: set<nat>) {
    forall b | b in logged :: b < n && !p.log.IsLog(b)
  }

  lemma WriteHome(p: Plan, n: nat, d: seq<Block>, inodes: seq<DiskInode>, owner: map<nat, Slot>, before: set<nat>, after: set<nat>,
                  ino: nat, first: nat, last: nat)
    requires p.Valid(n) && ino < p.ninodes && HomeBlocks(p, n, before) && Consistent(p.layout, d, inodes, owner, {})
    requires LoggedFor(p.layout, owner, before + {p.layout.InodeBlock(ino)}, after, ino, first, last)
    ensures HomeBlocks(p, n, after) && before <= after && p.layout.InodeBlock(ino) in after
  {
    MetadataApart(p, n);
    assert p.layout.InodeBlock(ino) in before + {p.layout.InodeBlock(ino)};
    forall b | b in after ensures b < n && !p.log.IsLog(b) {
      if b !in before && b != p.layout.InodeBlock(ino) && !InBitmap(p.layout, b) {
        assert b in owner;
      }
    }
  }

  lemma TruncateHome(p: Plan, n: nat, before: set<nat>, after: set<nat>, ino: nat)
    requires p.Valid(n) && ino < p.ninodes && HomeBlocks(p, n, before)
    requires BitmapLogged(p.layout, before + {p.layout.InodeBlock(ino)}, after)
    ensures HomeBlocks(p, n, after) && before <= after && |after| <= |before| + p.layout.BitmapLength() + 1
  {
    MetadataApart(p, n);
    SubsetSize(after, before + {p.layout.InodeBlock(ino)} + Interval(p.layout.bmapstart, p.layout.BitmapLength()));
  }

  lemma WriteCost(l: Layout, d: seq<Block>, inodes: seq<DiskInode>, owner: map<nat, Slot>, before: set<nat>, after: set<nat>, c: Call)
    requires Consistent(l, d, inodes, owner, {}) && c.WriteInode? && c.ino < |inodes|
    requires LoggedFor(l, owner, before + {l.InodeBlock(c.ino)}, after, c.ino, c.offset / BLOCK_SIZE, LastBlock(c.offset, |c.source|))
    ensures |after| <= |before| + Cost(l, c)
  {
    hide LoggedFor, Mapped, Accounted;
    LoggedSize(l, d, inodes, owner, before + {l.InodeBlock(c.ino)}, after, c.ino, c.offset / BLOCK_SIZE, LastBlock(c.offset, |c.source|));
  }

  /** The inode blocks are not the file layer's to change. */
  lemma InodesLeft(p: Plan, v: seq<Block>, v': seq<Block>, before: set<nat>, after: set<nat>)
    requires p.Valid(|v|) && Journaled(p.layout, v, v', before, after)
    ensures |v'| == |v| && InodesOn(p.layout, v', p.ninodes) == InodesOn(p.layout, v, p.ninodes)
  {
    MetadataApart(p, |v|);
    SameInodes(p.layout, v, v', p.ninodes);
  }

  lemma StorableInode(l: Layout, d: seq<Block>, inodes: seq<DiskInode>, owner: map<nat, Slot>, ino: nat)
    requires Consistent(l, d, inodes, owner, {}) && ino < |inodes| && inodes[ino].size <= MAX_BYTES
    ensures Storable(inodes[ino])
  {
    forall k | 0 <= k <= DIRECT ensures inodes[ino].addrs[k] < WORD_LIMIT {
      var s := if k == DIRECT then Pointer(ino) else Direct(ino, k);
      assert BlockAt(d, inodes, s) == inodes[ino].addrs[k];
      if inodes[ino].addrs[k] != 0 {
        Named(l, d, inodes, owner, s);
      }
    }
  }

  lemma LayoutValid(l: Layout, d: seq<Block>, inodes: seq<DiskInode>, owner: map<nat, Slot>)
    requires Consistent(l, d, inodes, owner, {})
    ensures l.Valid(|d|)
  {
  }

  ghost predicate Full(l: Layout, d: seq<Block>)
    requires l.Valid(|d|)
  {
    forall b: nat | b < l.size :: Used(l, d, b)
  }

  /** Storing in a metadata block outside the bitmap touches no file. */
  lemma StoreOutside(p: Plan, v: seq<Block>, inodes: seq<DiskInode>, owner: map<nat, Slot>, b: nat, data: Block)
    requires p.Valid(|v|) && Consistent(p.layout, v, inodes, owner, {}) && NoHoles(v, inodes)
    requires b < p.layout.dataStart && !InBitmap(p.layout, b)
    ensures Consistent(p.layout, v[b := data], inodes, owner, {})
    ensures NoHoles(v[b := data], inodes) && FilesOf(v[b := data], inodes) == FilesOf(v, inodes)
    ensures Full(p.layout, v) ==> Full(p.layout, v[b := data])
  {
    var l, v' := p.layout, v[b := data];
    OtherBlocks(l, v, v', inodes, owner);
    forall c: nat | c < l.size ensures Used(l, v', c) <==> Used(l, v, c) {
      BitmapHolds(l, c);
    }
    SameDataSameFiles(v, inodes, v', inodes);
  }

  lemma SameDataSameFiles(d: seq<Block>, inodes: seq<DiskInode>, d': seq<Block>, inodes': seq<DiskInode>)
    requires SameData(d, inodes, d', inodes') && NoHoles(d, inodes)
    ensures NoHoles(d', inodes') && FilesOf(d', inodes') == FilesOf(d, inodes)
  {
    hide DataAt;
    forall ino | 0 <= ino < |inodes| ensures Whole(d', inodes', ino) && Content(d', inodes', ino) == Content(d, inodes, ino) {
      assert Whole(d, inodes, ino);
      forall k: nat | k < MAX_BYTES ensures ByteAt(d', inodes', ino, k) == ByteAt(d, inodes, ino, k) {
      }
      var was, now := Content(d, inodes, ino), Content(d', inodes', ino);
      forall k | 0 <= k < |was| ensures now[k] == was[k] {
        assert ByteAt(d, inodes, ino, k) == Some(was[k]) && ByteAt(d', inodes', ino, k) == Some(now[k]);
      }
    }
  }

  lemma SameBlock(offset: nat, count: nat, length: nat, k: nat)
    requires count < length && offset + count <= k < offset + count + Piece(offset, count, length)
    ensures k / BLOCK_SIZE == (offset + count) / BLOCK_SIZE
  {
    var a := offset + count;
    assert a % BLOCK_SIZE + (k - a) < BLOCK_SIZE;
  }

  lemma Explained(files: seq<seq<Byte>>, x: Done, size: nat)
    requires x.call.WriteInode? && x.call.ino < |files| && size == |files[x.call.ino]|
    requires x.result == OutOfInodeRange <==> x.call.offset > size
    requires x.result == OffsetOverflows <==> x.call.offset <= size && x.call.offset + |x.call.source| >= WORD_LIMIT
    requires x.result == FileOverflow <==> x.call.offset <= size && MAX_BYTES < x.call.offset + |x.call.source| < WORD_LIMIT
    requires x.result.Written? ==> x.result.count <= x.call.readable && (x.result.faulted ==> x.call.readable < |x.call.source|)
    ensures Explains(files, x)
  {
  }

  lemma RefusedAlike(files: seq<seq<Byte>>, x: Done)
    requires x.call.WriteInode? && !x.result.Written?
    ensures StrayOf(x) == {} && Alike(files, After(files, x), {})
  {
  }

  /** What is stored and does not count lies in the file block the copy failed in. */
  lemma WroteAlike(files: seq<seq<Byte>>, files': seq<seq<Byte>>, x: Done, stored: nat)
    requires x.call.WriteInode? && x.call.ino < |files| == |files'| && x.result.Written?
    requires forall i | 0 <= i < |files| && i != x.call.ino :: files'[i] == files[i]
    requires var c, r, was, now := x.call, x.result, files[x.call.ino], files'[x.call.ino];
             && r.count <= c.readable <= |c.source| && c.offset <= |was|
             && stored == (if r.faulted then c.readable else r.count)
             && (r.faulted ==> r.count < |c.source| && c.readable < r.count + Piece(c.offset, r.count, |c.source|))
             && |now| == (if c.offset + r.count > |was| then c.offset + r.count else |was|)
             && |now| <= |Overlay(was, c.offset, c.source[..stored])|
             && now == Overlay(was, c.offset, c.source[..stored])[..|now|]
    ensures Alike(files', After(files, x), StrayOf(x))
  {
    var c, r := x.call, x.result;
    var now, then_ := files'[c.ino], After(files, x)[c.ino];
    hide Piece;
    forall k | 0 <= k < |now| ensures (c.ino, k / BLOCK_SIZE) in StrayOf(x) || now[k] == then_[k] {
      if c.offset + r.count <= k < c.offset + stored {
        SameBlock(c.offset, r.count, |c.source|, k);
      }
    }
  }

  lemma NewVolume(p: Plan, d: DiskState)
    requires p.Valid(|d|) && forall b | 0 <= b < |d| && !InBitmap(p.layout, b) :: d[b] == ZeroBlock()
    ensures Quiet(p.log, d)
    ensures forall i: nat | i < p.ninodes :: InodesOn(p.layout, d, p.ninodes)[i] == EMPTY_INODE
  {
    MetadataApart(p, |d|);
    assert GetWord(ZeroBlock(), 0) == 0;
    forall i: nat | i < p.ninodes ensures InodesOn(p.layout, d, p.ninodes)[i] == EMPTY_INODE {
      ZeroInode(i % INODES_PER_BLOCK);
    }
  }

  // ---------- a group of operations ----------

  /** The blocks of a set, each once. */
  ghost predicate Lists(h: seq<nat>, s: set<nat>) {
    Distinct(h) && forall b :: b in h <==> b in s
  }

  method List(s: set<nat>) returns (h: seq<nat>)
    ensures Lists(h, s) && |h| == |s|
  {
    var left := s;
    h := [];
    while left != {}
      invariant left <= s && Lists(h, s - left) && |h| + |left| == |s|
      decreases left
    {
      var b :| b in left;
      assert b !in h;
      h, left := h + [b], left - {b};
    }
    assert s - left == s;
  }

  /** With the logged blocks in place the disk holds what the cache presents. */
  lemma InstalledBeside(p: Plan, d: DiskState, v: seq<Block>, owner: map<nat, Slot>, logged: set<nat>, stray: set<(nat, nat)>,
                        h: seq<nat>, d': DiskState)
    requires Beside(p, d, v, owner, logged, stray) && HomeBlocks(p, |d|, logged) && Lists(h, logged)
    requires (forall i | 0 <= i < |h| :: h[i] < |v|) && SameHome(p.log, d', Installed(d, h, L.Pending(v, h)))
    ensures |d'| == |d| && Beside(p, d', v, owner, {}, stray)
  {
    var vals := L.Pending(v, h);
    hide Installed, Distinct;
    forall b | 0 <= b < |d| && !p.log.IsLog(b) ensures d'[b] == if b in logged then v[b] else d[b] {
      if b in logged {
        var i :| 0 <= i < |h| && h[i] == b;
        InstalledAt(d, h, vals, i);
      } else {
        assert b !in h;
        InstalledElsewhere(d, h, vals, b);
      }
    }
  }

  lemma LoggableHome(p: Plan, n: nat, logged: set<nat>, h: seq<nat>)
    requires p.Valid(n) && HomeBlocks(p, n, logged) && Lists(h, logged) && |h| <= LOG_SIZE && |h| < p.log.size
    ensures Loggable(p.log, n, h)
  {
    assert forall i | 0 <= i < |h| :: h[i] in logged;
  }

  lemma ListedHome(p: Plan, n: nat, logged: set<nat>, h: seq<nat>)
    requires HomeBlocks(p, n, logged) && Lists(h, logged)
    ensures forall i | 0 <= i < |h| :: h[i] < n
  {
    assert forall i | 0 <= i < |h| :: h[i] in logged;
  }

  predicate FitsLog(p: Plan, h: seq<nat>) {
    |h| <= LOG_SIZE && |h| < p.log.size
  }

  /** The commit's header write, after those of its `n` blocks to the log, is behind. */
  predicate PastHeader(e: Ending, n: nat) {
    e.Finished? || e.at > n
  }

  /** A crash at a write the commit does not have is one after its last. */
  function Within(e: Ending, n: nat): Ending {
    var most := if n == 0 then 0 else 2 * n + 2;
    if e.Finished? then e else Stopped(if e.at < most then e.at else most, e.recoveries)
  }

  /** The disk after the commit of blocks `h`, or after the crash in it and the restart. More blocks than the
      log takes are a panic before anything is written. */
  function DiskAfter(p: Plan, d: DiskState, v: seq<Block>, h: seq<nat>, e: Ending): (r: DiskState)
    requires p.Valid(|d|) && Quiet(p.log, d) && forall i | 0 <= i < |h| :: h[i] < |v|
    requires FitsLog(p, h) ==> Loggable(p.log, |d|, h)
    ensures |r| == |d| && Quiet(p.log, r)
  {
    if FitsLog(p, h) then RunOne(p.log, d, Transaction(h, L.Pending(v, h), Within(e, |h|)))
    else RunOne(p.log, d, Transaction([], [], Stopped(0, if e.Finished? then [] else e.recoveries)))
  }

  /** A group that got past its header write is on the disk whole; of any other nothing is. */
  lemma CommitBeside(p: Plan, d: DiskState, v: seq<Block>, owner: map<nat, Slot>, logged: set<nat>, stray: set<(nat, nat)>,
                     h: seq<nat>, e: Ending)
    requires p.Valid(|d|) && Quiet(p.log, d) && Beside(p, d, v, owner, logged, stray)
    requires HomeBlocks(p, |d|, logged) && Lists(h, logged) && forall i | 0 <= i < |h| :: h[i] < |v|
    ensures FitsLog(p, h) ==> Loggable(p.log, |d|, h)
    ensures var d' := DiskAfter(p, d, v, h, e);
            if FitsLog(p, h) && PastHeader(e, |h|) then Beside(p, d', v, owner, {}, stray) else SameHome(p.log, d', d)
  {
    hide Beside, HomeBlocks, Lists, Quiet, Loggable, RunOne, SameHome, Plan.Valid;
    if FitsLog(p, h) {
      LoggableHome(p, |d|, logged, h);
      if PastHeader(e, |h|) {
        if h == [] {
          InstalledNothing(d);
        }
        InstalledBeside(p, d, v, owner, logged, stray, h, DiskAfter(p, d, v, h, e));
      }
    }
  }

  lemma NoneAreHome(p: Plan, n: nat)
    ensures HomeBlocks(p, n, {})
  {
  }

  /** What a restarted kernel reads is what the disk holds. */
  lemma ReloadedBeside(p: Plan, d: DiskState, owner: map<nat, Slot>, stray: set<(nat, nat)>)
    ensures Beside(p, d, d, owner, {}, stray) && HomeBlocks(p, |d|, {})
  {
  }

  /** Home blocks that stay keep the files. */
  lemma SameHomeSound(p: Plan, d: DiskState, d': DiskState, owner: map<nat, Slot>)
    requires Sound(p, d, owner) && SameHome(p.log, d', d)
    ensures Sound(p, d', owner) && FilesOn(p, d') == FilesOn(p, d)
  {
    var inodes := InodesOn(p.layout, d, p.ninodes);
    BesideSound(p, d', d, inodes, owner, {});
    AlikeNone(FilesOf(d, inodes), FilesOn(p, d'));
  }

  /** Calls the kernel runs before it commits them together, and how that commit ends. */
  datatype Group = Group(calls: seq<Call>, ending: Ending)

  /** What came of a group: its calls' results, how many blocks it logged, and whether they reached the log. */
  datatype Outcome = Outcome(done: seq<Done>, blocks: nat, durable: bool)

  function AfterGroups(files: seq<seq<Byte>>, outs: seq<Outcome>): seq<seq<Byte>> {
    if outs == [] then files
    else
      var before, out := AfterGroups(files, outs[..|outs| - 1]), outs[|outs| - 1];
      if out.durable then AfterAll(before, out.done) else before
  }

  function StrayGroups(outs: seq<Outcome>): set<(nat, nat)> {
    if outs == [] then {}
    else
      var out := outs[|outs| - 1];
      StrayGroups(outs[..|outs| - 1]) + if out.durable then StrayAll(out.done) else {}
  }

  ghost predicate ExplainsGroups(files: seq<seq<Byte>>, outs: seq<Outcome>) {
    outs == []
    || (ExplainsGroups(files, outs[..|outs| - 1]) && ExplainsAll(AfterGroups(files, outs[..|outs| - 1]), outs[|outs| - 1].done))
  }

  /** The results answer the calls, and the group is durable exactly when its blocks fit in the log and the
      commit got past its header write. */
  predicate Answers(p: Plan, g: Group, out: Outcome) {
    && |out.done| == |g.calls|
    && (forall i | 0 <= i < |g.calls| :: out.done[i].call == g.calls[i])
    && out.blocks <= CostAll(p.layout, g.calls)
    && (out.durable <==> out.blocks <= LOG_SIZE && out.blocks < p.log.size && PastHeader(g.ending, out.blocks))
  }

  /** A disk, and the kernel's file layer over it. */
  class Volume {
    const plan: Plan
    const fs: FileSystem                // what the cache presents, and the inodes in memory
    var disk: DiskState
    ghost var stray: set<(nat, nat)>    // file blocks in which a write's copy failed part-way

    /** While a group runs: nothing is in the log, and what has changed since the last commit is yet to be
        committed. */
    ghost predicate Running()
      reads this, fs
    {
      && plan.Valid(|disk|) && Quiet(plan.log, disk) && fs.layout == plan.layout && |fs.inodes| == plan.ninodes
      && fs.Valid() && NoHoles(fs.disk, fs.inodes) && |fs.disk| == |disk|
      && fs.inodes == InodesOn(plan.layout, fs.disk, plan.ninodes)
      && HomeBlocks(plan, |disk|, fs.logged) && Beside(plan, disk, fs.disk, fs.owner, fs.logged, stray)
    }

    /** No block is free. */
    ghost predicate NoneLeft()
      reads this, fs
    {
      plan.layout.Valid(|fs.disk|) && Full(plan.layout, fs.disk)
    }

    ghost function Cached(): seq<seq<Byte>>
      requires NoHoles(fs.disk, fs.inodes)
      reads this, fs
    {
      FilesOf(fs.disk, fs.inodes)
    }

    /** A new file system on a disk of `n` blocks. */
    constructor (plan: Plan, n: nat)
      requires plan.Valid(n)
      ensures this.plan == plan && fresh(fs) && Running() && fs.logged == {} && stray == {}
      ensures forall ino | 0 <= ino < plan.ninodes :: Cached()[ino] == []
    {
      var layer := new FileSystem(plan.layout, n, plan.ninodes);
      this.plan, fs, disk, stray := plan, layer, layer.disk, {};
      new;
      hide Consistent, Whole, Content;
      NewVolume(plan, disk);
      assert fs.inodes == InodesOn(plan.layout, fs.disk, plan.ninodes);
    }

    /** As while a group runs, but that inode `ino` in memory is newer than in its block, which has been
        logged. */
    ghost predicate Unsaved(ino: nat)
      reads this, fs
    {
      && plan.Valid(|disk|) && Quiet(plan.log, disk) && fs.layout == plan.layout && |fs.inodes| == plan.ninodes
      && fs.Valid() && NoHoles(fs.disk, fs.inodes) && |fs.disk| == |disk| && ino < plan.ninodes
      && OthersKept(InodesOn(plan.layout, fs.disk, plan.ninodes), fs.inodes, ino)
      && HomeBlocks(plan, |disk|, fs.logged) && Beside(plan, disk, fs.disk, fs.owner, fs.logged, stray)
      && plan.layout.InodeBlock(ino) in fs.logged
    }

    /** Inode.update: the inode goes from memory to its block. */
    method Update(ino: nat)
      requires Unsaved(ino)
      modifies fs`disk
      ensures Running() && Cached() == old(Cached()) && (old(NoneLeft()) ==> NoneLeft())
    {
      hide Consistent, NoHoles, FilesOf, Storable, Beside, HomeBlocks, Full;
      ghost var v := fs.disk;
      var l := plan.layout;
      MetadataApart(plan, |disk|);
      InodeWhole(v, fs.inodes, ino);
      StorableInode(l, v, fs.inodes, fs.owner, ino);
      UpdatedInodes(l, v, plan.ninodes, ino, fs.inodes[ino]);
      fs.disk := Updated(l, fs.disk, ino, fs.inodes[ino]);
      var b := l.InodeBlock(ino);
      assert fs.disk == v[b := fs.disk[b]];
      StoreOutside(plan, v, fs.inodes, fs.owner, b, fs.disk[b]);
      StoreBeside(plan, disk, v, fs.owner, fs.logged, stray, b, fs.disk[b]);
      assert fs.inodes == InodesOn(l, v, plan.ninodes)[ino := fs.inodes[ino]];
    }

    /** What Inode.write does to the files. `loose` are the blocks it wrote and did not log. */
    method LayOver(ino: nat, offset: nat, source: seq<Byte>, readable: nat) returns (x: Done, ghost loose: set<nat>)
      requires Running() && ino < plan.ninodes && readable <= |source|
      modifies fs
      ensures fs.Valid() && NoHoles(fs.disk, fs.inodes) && |fs.inodes| == plan.ninodes
      ensures x.call == Call.WriteInode(ino, offset, source, readable)
      ensures Alike(Cached(), After(old(Cached()), x), StrayOf(x)) && Explains(old(Cached()), x)
      ensures CutShort(x) ==> NoneLeft()
      ensures !x.result.Written? ==>
                && fs.disk == old(fs.disk) && fs.inodes == old(fs.inodes) && fs.owner == old(fs.owner)
                && fs.logged == old(fs.logged) && StrayOf(x) == {}
      ensures x.result.Written? ==>
                && Journaled(plan.layout, old(fs.disk), fs.disk, old(fs.logged), fs.logged + loose)
                && Grown(old(fs.owner), fs.owner, fs.logged) && OthersKept(old(fs.inodes), fs.inodes, ino)
                && LoggedFor(plan.layout, fs.owner, old(fs.logged) + {plan.layout.InodeBlock(ino)}, fs.logged, ino,
                             offset / BLOCK_SIZE, LastBlock(offset, |source|))
                && (!(x.result.faulted && x.result.count < readable) ==> loose == {})
                && forall b | b in loose :: b in fs.owner && fs.owner[b] == FileSlot(ino, (offset + x.result.count) / BLOCK_SIZE)
    {
      hide Consistent, Whole, Content, Beside, HomeBlocks, Journaled, Grown, LoggedFor, Overlay, Piece, AtPiece,
           LastBlock, Quiet, Plan.Valid, InodesOn, Used, Alike, After, Explains, Layout.Valid;
      ghost var files := Cached();
      InodeWhole(fs.disk, fs.inodes, ino);
      var r: WriteResult;
      r, loose := fs.Write(ino, offset, source, readable);
      x := Done(Call.WriteInode(ino, offset, source, readable), r);
      if r.Written? {
        ShorterPiece(offset, r.count, |source|);
        Explained(files, x, |files[ino]|);
        WroteAlike(files, Cached(), x, if r.faulted then readable else r.count);
        LayoutValid(plan.layout, fs.disk, fs.inodes, fs.owner);
      } else {
        Explained(files, x, |files[ino]|);
        RefusedAlike(files, x);
      }
    }

    /** Inode.write up to its update of the inode's block. */
    method WriteBlocks(ino: nat, offset: nat, source: seq<Byte>, readable: nat) returns (x: Done)
      requires Running() && ino < plan.ninodes && readable <= |source|
      modifies `stray, fs
      ensures if x.result.Written? then Unsaved(ino) else Running()
      ensures x.call == Call.WriteInode(ino, offset, source, readable)
      ensures stray == old(stray) + StrayOf(x) && Alike(Cached(), After(old(Cached()), x), StrayOf(x))
      ensures Explains(old(Cached()), x) && |fs.logged| <= |old(fs.logged)| + Cost(plan.layout, x.call)
      ensures CutShort(x) ==> NoneLeft()
    {
      hide Consistent, NoHoles, FilesOf, Whole, Content, Beside, HomeBlocks, Journaled, Grown, LoggedFor, LastBlock,
           Quiet, Plan.Valid, InodesOn, OthersKept, Cost, Alike, After, Explains, StrayOf, CutShort;
      ghost var v, owner0, logged0 := fs.disk, fs.owner, fs.logged;
      ghost var loose;
      x, loose := LayOver(ino, offset, source, readable);
      stray := stray + StrayOf(x);
      if x.result.Written? {
        WroteBeside(plan, disk, v, owner0, logged0, old(stray), fs.disk, fs.inodes, fs.owner, fs.logged, stray, loose, x);
      } else {
        assert stray == old(stray);
      }
    }

    /** Inode.write as an operation of the running group. */
    method WriteInode(ino: nat, offset: nat, source: seq<Byte>, readable: nat) returns (x: Done)
      requires Running() && ino < plan.ninodes && readable <= |source|
      modifies `stray, fs
      ensures Running() && x.call == Call.WriteInode(ino, offset, source, readable)
      ensures stray == old(stray) + StrayOf(x) && Alike(Cached(), After(old(Cached()), x), StrayOf(x))
      ensures Explains(old(Cached()), x) && |fs.logged| <= |old(fs.logged)| + Cost(plan.layout, x.call)
      ensures CutShort(x) ==> NoneLeft()
    {
      hide Consistent, NoHoles, FilesOf, Beside, HomeBlocks, Quiet, Plan.Valid, InodesOn, Alike, After, Explains,
           Cost, Full;
      x := WriteBlocks(ino, offset, source, readable);
      if x.result.Written? {
        Update(ino);
      }
    }

    /** Inode.truncate as an operation of the running group. */
    method TruncateInode(ino: nat) returns (x: Done)
      requires Running() && ino < plan.ninodes
      modifies fs
      ensures Running() && x.call == Call.TruncateInode(ino)
      ensures Cached() == After(old(Cached()), x) && StrayOf(x) == {}
      ensures |fs.logged| <= |old(fs.logged)| + Cost(plan.layout, x.call)
    {
      hide Consistent, Whole, Content, Beside, HomeBlocks, Journaled, BitmapLogged, Quiet, Plan.Valid, InodesOn, DataAt;
      ghost var v, inodes0, owner0, logged0 := fs.disk, fs.inodes, fs.owner, fs.logged;
      fs.Truncate(ino);
      x := Done(Call.TruncateInode(ino), Written(0, false));
      TruncateHome(plan, |disk|, logged0, fs.logged, ino);
      assert fs.logged + {} == fs.logged;
      StepBeside(plan, disk, v, owner0, logged0, stray, fs.disk, fs.owner, fs.logged, stray, {});
      InodesLeft(plan, v, fs.disk, logged0, fs.logged);
      TruncatedFiles(v, inodes0, fs.disk, fs.inodes, ino);
      Update(ino);
    }

    /** The cache forgets a block nobody holds, and reads it from the disk when it is wanted again. */
    method Forget(block: nat) returns (x: Done)
      requires Running()
      modifies fs
      ensures Running() && x.call == Recycle(block)
      ensures Alike(Cached(), old(Cached()), stray) && StrayOf(x) == {} && fs.logged == old(fs.logged)
    {
      x := Done(Recycle(block), Written(0, false));
      if block < |disk| && !plan.log.IsLog(block) && block !in fs.logged {
        hide Quiet, Consistent, NoHoles, FilesOf;
        ForgottenSound(plan, disk, fs.disk, fs.inodes, fs.owner, fs.logged, stray, block);
        fs.disk := fs.disk[block := disk[block]];
      }
    }

    method Do(c: Call) returns (x: Done)
      requires Running() && Legal(c, plan.ninodes)
      modifies `stray, fs
      ensures Running() && x.call == c
      ensures stray == old(stray) + StrayOf(x) && Alike(Cached(), After(old(Cached()), x), stray)
      ensures Explains(old(Cached()), x) && |fs.logged| <= |old(fs.logged)| + Cost(plan.layout, c)
      ensures CutShort(x) ==> NoneLeft()
    {
      hide Consistent, NoHoles, FilesOf, Beside, HomeBlocks, Quiet, Plan.Valid, InodesOn, Alike;
      ghost var files := Cached();
      match c
      case WriteInode(ino, offset, source, readable) =>
        x := WriteInode(ino, offset, source, readable);
        AlikeMore(Cached(), After(files, x), StrayOf(x), stray);
      case TruncateInode(ino) =>
        x := TruncateInode(ino);
        assert stray == old(stray) + {};
        AlikeSame(Cached(), stray);
      case Recycle(block) =>
        x := Forget(block);
        assert stray == old(stray) + {};
    }

    /** The group's calls, one after another. */
    method RunCalls(calls: seq<Call>) returns (done: seq<Done>)
      requires Running() && forall i | 0 <= i < |calls| :: Legal(calls[i], plan.ninodes)
      modifies `stray, fs
      ensures Running() && |done| == |calls| && forall i | 0 <= i < |calls| :: done[i].call == calls[i]
      ensures stray == old(stray) + StrayAll(done) && Alike(Cached(), AfterAll(old(Cached()), done), stray)
      ensures ExplainsAll(old(Cached()), done) && |fs.logged| <= |old(fs.logged)| + CostAll(plan.layout, calls)
      ensures done != [] && CutShort(done[|done| - 1]) ==> NoneLeft()
    {
      hide Consistent, NoHoles, FilesOf, Beside, HomeBlocks, Quiet, Plan.Valid, InodesOn, Alike, After, Explains, Cost;
      done := [];
      AlikeSame(Cached(), stray);
      assert stray == old(stray) + StrayAll([]);
      ghost var files := Cached();
      for i := 0 to |calls|
        invariant Running() && |done| == i && forall j | 0 <= j < i :: done[j].call == calls[j]
        invariant stray == old(stray) + StrayAll(done) && Alike(Cached(), AfterAll(files, done), stray)
        invariant ExplainsAll(files, done) && |fs.logged| <= |old(fs.logged)| + CostAll(plan.layout, calls[..i])
        invariant done != [] && CutShort(done[|done| - 1]) ==> NoneLeft()
      {
        ghost var between, stray1 := Cached(), stray;
        var x := Do(calls[i]);
        AlikeMore(between, AfterAll(files, done), stray1, stray);
        AfterAlike(between, AfterAll(files, done), x, stray);
        AlikeTwice(Cached(), After(between, x), After(AfterAll(files, done), x), stray);
        assert (done + [x])[..i] == done && calls[..i + 1][..i] == calls[..i];
        done := done + [x];
      }
      assert calls[..|calls|] == calls;
    }

    /** The commit of what the group logged, or the crash that ends the group, and the restart after it. More
        blocks than the log takes are a panic before anything is written. */
    method Commit(ending: Ending, ghost owner0: map<nat, Slot>, ghost stray0: set<(nat, nat)>)
      returns (blocks: nat, durable: bool)
      requires Running() && Sound(plan, disk, owner0)
      modifies this, fs
      ensures Running() && fs.logged == {} && Sound(plan, disk, fs.owner) && blocks == |old(fs.logged)|
      ensures durable <==> blocks <= LOG_SIZE && blocks < plan.log.size && PastHeader(ending, blocks)
      ensures durable ==> stray == old(stray) && Alike(FilesOn(plan, disk), old(Cached()), stray)
      ensures !durable ==> stray == stray0 && FilesOn(plan, disk) == old(FilesOn(plan, disk))
    {
      hide Consistent, NoHoles, FilesOf, Beside, HomeBlocks, Quiet, Plan.Valid, InodesOn, Alike, Lists, SameHome,
           Loggable, RunOne, Installed, L.Pending;
      var h := List(fs.logged);
      blocks := |h|;
      durable := FitsLog(plan, h) && PastHeader(ending, |h|);
      ListedHome(plan, |disk|, fs.logged, h);
      CommitBeside(plan, disk, fs.disk, fs.owner, fs.logged, stray, h, ending);
      ghost var d := disk;
      disk := DiskAfter(plan, disk, fs.disk, h, ending);
      if durable {
        BesideSound(plan, disk, fs.disk, fs.inodes, fs.owner, stray);
        AlikeMore(Cached(), FilesOn(plan, disk), stray, stray);
      } else {
        SameHomeSound(plan, d, disk, owner0);
        stray := stray0;
      }
      if durable && ending.Finished? {
        NoneAreHome(plan, |disk|);
        fs.logged := {};
      } else {
        Reload(if durable then fs.owner else owner0);
      }
    }

    /** A group of operations, from its first to its commit, or to the crash and the restart. The disk then
        holds a sound file system: the files the calls leave if the group is durable, and the files of before
        if it is not. */
    method RunGroup(g: Group) returns (out: Outcome)
      requires Running() && fs.logged == {} && Sound(plan, disk, fs.owner)
      requires forall i | 0 <= i < |g.calls| :: Legal(g.calls[i], plan.ninodes)
      modifies this, fs
      ensures Running() && fs.logged == {} && Sound(plan, disk, fs.owner) && Answers(plan, g, out)
      ensures stray == old(stray) + if out.durable then StrayAll(out.done) else {}
      ensures !out.durable ==> FilesOn(plan, disk) == old(FilesOn(plan, disk))
      ensures out.durable ==> Alike(FilesOn(plan, disk), AfterAll(old(FilesOn(plan, disk)), out.done), stray)
      ensures ExplainsAll(old(FilesOn(plan, disk)), out.done)
    {
      hide Consistent, NoHoles, FilesOf, FilesOn, Beside, HomeBlocks, Quiet, Plan.Valid, InodesOn, Alike, After;
      ghost var owner0, stray0, files, cached := fs.owner, stray, FilesOn(plan, disk), Cached();
      CachedAlike();
      var done := RunCalls(g.calls);
      ghost var cached1, stray1 := Cached(), stray;
      AlikeMore(cached, files, stray0, stray1);
      AfterAllAlike(cached, files, done, stray1);
      AlikeTwice(cached1, AfterAll(cached, done), AfterAll(files, done), stray1);
      var blocks, durable := Commit(g.ending, owner0, stray0);
      out := Outcome(done, blocks, durable);
      if durable {
        AlikeTwice(FilesOn(plan, disk), cached1, AfterAll(files, done), stray1);
      } else {
        assert stray0 + {} == stray0;
      }
    }

    lemma CachedAlike()
      requires Running() && fs.logged == {}
      ensures Sound(plan, disk, fs.owner) && Alike(Cached(), FilesOn(plan, disk), stray)
    {
      hide Consistent, NoHoles, Beside, FilesOf;
      BesideSound(plan, disk, fs.disk, fs.inodes, fs.owner, stray);
    }

    /** Any groups of operations, each committed or cut off by a crash at any write of its commit, with any
        number of interrupted recoveries: the disk's own blocks hold a sound file system, with the files that
        exactly the durable groups leave, each whole and in order. Only bytes of file blocks in which a durable
        group's write failed part-way may differ. */
    method AnyHistory(groups: seq<Group>) returns (outs: seq<Outcome>)
      requires Running() && fs.logged == {} && Sound(plan, disk, fs.owner)
      requires forall i, j | 0 <= i < |groups| && 0 <= j < |groups[i].calls| :: Legal(groups[i].calls[j], plan.ninodes)
      modifies this, fs
      ensures Running() && fs.logged == {} && Sound(plan, disk, fs.owner)
      ensures |outs| == |groups| && forall i | 0 <= i < |groups| :: Answers(plan, groups[i], outs[i])
      ensures stray == old(stray) + StrayGroups(outs)
      ensures Alike(FilesOn(plan, disk), AfterGroups(old(FilesOn(plan, disk)), outs), stray)
      ensures stray == {} ==> FilesOn(plan, disk) == AfterGroups(old(FilesOn(plan, disk)), outs)
      ensures ExplainsGroups(old(FilesOn(plan, disk)), outs)
    {
      hide Volume.Running, Consistent, NoHoles, InodesOn, Plan.Valid, FilesOn, Alike, After, AfterAll, Answers,
           Legal, StrayAll, ExplainsAll;
      outs := [];
      ghost var files := FilesOn(plan, disk);
      AlikeSame(files, stray);
      assert stray == old(stray) + StrayGroups([]);
      for i := 0 to |groups|
        invariant Running() && fs.logged == {} && Sound(plan, disk, fs.owner)
        invariant |outs| == i && forall j | 0 <= j < i :: Answers(plan, groups[j], outs[j])
        invariant stray == old(stray) + StrayGroups(outs)
        invariant Alike(FilesOn(plan, disk), AfterGroups(files, outs), stray) && ExplainsGroups(files, outs)
      {
        ghost var between, stray1 := FilesOn(plan, disk), stray;
        var out := RunGroup(groups[i]);
        GroupAlike(FilesOn(plan, disk), between, files, outs, out, stray1, stray);
        outs := outs + [out];
      }
      if stray == {} {
        AlikeNone(FilesOn(plan, disk), AfterGroups(files, outs));
      }
    }

    /** The kernel starts over from the disk. */
    method Reload(ghost owner: map<nat, Slot>)
      requires Sound(plan, disk, owner) && Quiet(plan.log, disk) && fs.layout == plan.layout
      modifies fs
      ensures Running() && fs.logged == {} && fs.disk == disk && fs.owner == owner
    {
      hide Consistent, NoHoles, Beside, HomeBlocks, Quiet, Plan.Valid, InodesOn;
      MetadataApart(plan, |disk|);
      ReloadedBeside(plan, disk, owner, stray);
      fs.disk, fs.inodes := disk, InodesOn(plan.layout, disk, plan.ninodes);
      fs.owner, fs.logged := owner, {};
    }
  }

  lemma {:induction false} AfterAllAlike(a: seq<seq<Byte>>, b: seq<seq<Byte>>, xs: seq<Done>, stray: set<(nat, nat)>)
    requires Alike(a, b, stray)
    ensures Alike(AfterAll(a, xs), AfterAll(b, xs), stray) && (ExplainsAll(a, xs) <==> ExplainsAll(b, xs))
  {
    hide Alike, After, Explains;
    if xs != [] {
      AfterAllAlike(a, b, xs[..|xs| - 1], stray);
      AfterAlike(AfterAll(a, xs[..|xs| - 1]), AfterAll(b, xs[..|xs| - 1]), xs[|xs| - 1], stray);
    }
  }

  /** One group more of a history. */
  lemma GroupAlike(now: seq<seq<Byte>>, between: seq<seq<Byte>>, files: seq<seq<Byte>>, outs: seq<Outcome>, out: Outcome,
                   stray: set<(nat, nat)>, stray': set<(nat, nat)>)
    requires Alike(between, AfterGroups(files, outs), stray)
    requires stray' == stray + if out.durable then StrayAll(out.done) else {}
    requires if out.durable then Alike(now, AfterAll(between, out.done), stray') else now == between
    requires ExplainsGroups(files, outs) && ExplainsAll(between, out.done)
    ensures Alike(now, AfterGroups(files, outs + [out]), stray') && ExplainsGroups(files, outs + [out])
    ensures StrayGroups(outs + [out]) == StrayGroups(outs) + if out.durable then StrayAll(out.done) else {}
  {
    hide Alike, AfterAll, StrayAll, ExplainsAll;
    assert (outs + [out])[..|outs|] == outs;
    AlikeMore(between, AfterGroups(files, outs), stray, stray');
    AfterAllAlike(between, AfterGroups(files, outs), out.done, stray');
    if out.durable {
      AlikeTwice(now, AfterAll(between, out.done), AfterAll(AfterGroups(files, outs), out.done), stray');
    }
  }

  /** What an emptied inode means for the files. */
  lemma TruncatedFiles(d: seq<Block>, inodes: seq<DiskInode>, d': seq<Block>, inodes': seq<DiskInode>, ino: nat)
    requires NoHoles(d, inodes) && ino < |inodes| == |inodes'| && inodes'[ino].size == 0
    requires forall i | 0 <= i < |inodes| && i != ino :: inodes'[i].size == inodes[i].size
    requires forall other, i | 0 <= other < |inodes| && other != ino && 0 <= i < MAX_BLOCKS ::
               DataAt(d', inodes', other, i) == DataAt(d, inodes, other, i)
    ensures NoHoles(d', inodes') && FilesOf(d', inodes') == FilesOf(d, inodes)[ino := []]
  {
    hide DataAt;
    forall i | 0 <= i < |inodes|
      ensures Whole(d', inodes', i) && Content(d', inodes', i) == if i == ino then [] else Content(d, inodes, i)
    {
      assert Whole(d, inodes, i);
      if i != ino {
        forall k: nat | k < MAX_BYTES ensures ByteAt(d', inodes', i, k) == ByteAt(d, inodes, i, k) {
        }
        var was, now := Content(d, inodes, i), Content(d', inodes', i);
        forall k | 0 <= k < |was| ensures now[k] == was[k] {
          assert ByteAt(d, inodes, i, k) == Some(was[k]) && ByteAt(d', inodes', i, k) == Some(now[k]);
        }
      }
    }
  }

  /** A block read from the disk again may bring back what a failed copy wrote over, and nothing else. */
  lemma ForgottenSound(p: Plan, d: DiskState, v: seq<Block>, inodes: seq<DiskInode>, owner: map<nat, Slot>, logged: set<nat>,
                       stray: set<(nat, nat)>, b: nat)
    requires p.Valid(|d|) && Beside(p, d, v, owner, logged, stray) && Consistent(p.layout, v, inodes, owner, {})
    requires inodes == InodesOn(p.layout, v, p.ninodes) && NoHoles(v, inodes)
    requires b < |d| && !p.log.IsLog(b) && b !in logged
    ensures var v' := v[b := d[b]];
            && Beside(p, d, v', owner, logged, stray) && Consistent(p.layout, v', inodes, owner, {})
            && inodes == InodesOn(p.layout, v', p.ninodes) && NoHoles(v', inodes)
            && Alike(FilesOf(v', inodes), FilesOf(v, inodes), stray)
  {
    hide Beside, Consistent, NoHoles, FilesOf, Plan.Valid, InodesOn;
    ForgottenBeside(p, d, v, owner, logged, stray, b);
    var v' := v[b := d[b]];
    BesideSound(p, v', v, inodes, owner, stray);
    BesideInodes(p, v', v, owner, stray);
    AlikeMore(FilesOf(v, inodes), FilesOf(v', inodes), stray, stray);
  }

  lemma ForgottenBeside(p: Plan, d: DiskState, v: seq<Block>, owner: map<nat, Slot>, logged: set<nat>, stray: set<(nat, nat)>, b: nat)
    requires Beside(p, d, v, owner, logged, stray) && b < |d| && !p.log.IsLog(b) && b !in logged
    ensures |d| == |v| && Beside(p, v[b := d[b]], v, owner, {}, stray) && Beside(p, d, v[b := d[b]], owner, logged, stray)
  {
  }

  lemma GrownKept(owner: map<nat, Slot>, owner': map<nat, Slot>, after: set<nat>)
    requires Grown(owner, owner', after)
    ensures forall b | b in owner' && b !in after :: b in owner && owner'[b] == owner[b]
  {
  }

  /** The block a failed copy left uncommitted is accounted for. */
  lemma LooseStray(p: Plan, d: seq<Block>, inodes: seq<DiskInode>, owner: map<nat, Slot>, loose: set<nat>, x: Done,
                   stray: set<(nat, nat)>)
    requires Consistent(p.layout, d, inodes, owner, {}) && x.call.WriteInode? && x.result.Written? && StrayOf(x) <= stray
    requires !(x.result.faulted && x.result.count < x.call.readable) ==> loose == {}
    requires forall b | b in loose :: b in owner && owner[b] == FileSlot(x.call.ino, (x.call.offset + x.result.count) / BLOCK_SIZE)
    ensures forall b | b in loose ::
              && p.layout.dataStart <= b && b in owner && !owner[b].Pointer?
              && (owner[b].ino, FileIndex(owner[b])) in stray
  {
    forall b | b in loose ensures p.layout.dataStart <= b && !owner[b].Pointer? && (owner[b].ino, FileIndex(owner[b])) in stray {
      assert (x.call.ino, (x.call.offset + x.result.count) / BLOCK_SIZE) in StrayOf(x);
    }
  }

  /** What a write has changed and logged, all told. */
  lemma WroteBeside(p: Plan, d: DiskState, v: seq<Block>, owner: map<nat, Slot>, logged: set<nat>, stray: set<(nat, nat)>,
                    v': seq<Block>, inodes': seq<DiskInode>, owner': map<nat, Slot>, logged': set<nat>, stray': set<(nat, nat)>,
                    loose: set<nat>, x: Done)
    requires p.Valid(|v|) && HomeBlocks(p, |v|, logged) && Beside(p, d, v, owner, logged, stray)
    requires Consistent(p.layout, v', inodes', owner', {}) && |inodes'| == p.ninodes
    requires x.call.WriteInode? && x.call.ino < p.ninodes && x.result.Written? && stray' == stray + StrayOf(x)
    requires Journaled(p.layout, v, v', logged, logged' + loose) && Grown(owner, owner', logged')
    requires !(x.result.faulted && x.result.count < x.call.readable) ==> loose == {}
    requires forall b | b in loose :: b in owner' && owner'[b] == FileSlot(x.call.ino, (x.call.offset + x.result.count) / BLOCK_SIZE)
    requires LoggedFor(p.layout, owner', logged + {p.layout.InodeBlock(x.call.ino)}, logged', x.call.ino,
                       x.call.offset / BLOCK_SIZE, LastBlock(x.call.offset, |x.call.source|))
    ensures HomeBlocks(p, |v|, logged') && p.layout.InodeBlock(x.call.ino) in logged' && |logged'| <= |logged| + Cost(p.layout, x.call)
    ensures Beside(p, d, v', owner', logged', stray') && |v'| == |v|
    ensures p.Valid(|v'|) && InodesOn(p.layout, v', p.ninodes) == InodesOn(p.layout, v, p.ninodes)
  {
    hide Beside, HomeBlocks, Consistent, Journaled, Grown, LoggedFor, LastBlock, Plan.Valid, InodesOn, Cost;
    WriteHome(p, |v|, v', inodes', owner', logged, logged', x.call.ino, x.call.offset / BLOCK_SIZE,
              LastBlock(x.call.offset, |x.call.source|));
    WriteCost(p.layout, v', inodes', owner', logged, logged', x.call);
    LooseStray(p, v', inodes', owner', loose, x, stray');
    GrownKept(owner, owner', logged');
    StepBeside(p, d, v, owner, logged, stray, v', owner', logged', stray', loose);
    InodesLeft(p, v, v', logged, logged' + loose);
  }

  lemma InodeWhole(d: seq<Block>, inodes: seq<DiskInode>, ino: nat)
    requires NoHoles(d, inodes) && ino < |inodes|
    ensures Whole(d, inodes, ino) && inodes[ino].size == |FilesOf(d, inodes)[ino]| <= MAX_BYTES
  {
  }

  // ---------- restarting through the log ----------

  /** What recovery made of a stopped commit, seen as files. */
  lemma RecoveredFiles(p: Plan, d: DiskState, v: seq<Block>, inodes: seq<DiskInode>, owner: map<nat, Slot>, owner0: map<nat, Slot>,
                       logged: set<nat>, stray: set<(nat, nat)>, h: seq<nat>, r: DiskState, past: bool)
    requires Sound(p, d, owner0) && Beside(p, d, v, owner, logged, stray) && HomeBlocks(p, |d|, logged) && Lists(h, logged)
    requires Consistent(p.layout, v, inodes, owner, {}) && inodes == InodesOn(p.layout, v, p.ninodes) && NoHoles(v, inodes)
    requires forall i | 0 <= i < |h| :: h[i] < |v|
    requires SameHome(p.log, r, if past then Installed(d, h, L.Pending(v, h)) else d)
    ensures past ==> Sound(p, r, owner) && Alike(FilesOn(p, r), FilesOf(v, inodes), stray)
    ensures !past ==> Sound(p, r, owner0) && FilesOn(p, r) == FilesOn(p, d)
  {
    hide Consistent, NoHoles, Beside, HomeBlocks, Lists, InodesOn, Plan.Valid, FilesOf, SameHome, Installed, L.Pending;
    if past {
      InstalledBeside(p, d, v, owner, logged, stray, h, r);
      BesideSound(p, r, v, inodes, owner, stray);
      AlikeMore(FilesOf(v, inodes), FilesOn(p, r), stray, stray);
    } else {
      SameHomeSound(p, d, r, owner0);
    }
  }

  /** The machine stops after any number of the writes of a group's commit, and the kernel restarts: the log is
      empty and at rest, and the disk holds the files of before the group if its header had not been written,
      and those the group left otherwise. */
  method RestartAfterCrash(disk: C.Disk, vol: Volume, ghost h: seq<nat>, ghost k: nat, ghost owner0: map<nat, Slot>)
    returns (log: L.Log)
    requires vol.Running() && Sound(vol.plan, vol.disk, owner0) && Lists(h, vol.fs.logged) && FitsLog(vol.plan, h)
    requires Loggable(vol.plan.log, |vol.disk|, h) && k <= |CommitWrites(vol.plan.log, vol.disk, h, L.Pending(vol.fs.disk, h))|
    requires disk.blocks == CommitPrefix(vol.plan.log, vol.disk, h, L.Pending(vol.fs.disk, h), k)
    modifies disk
    ensures log.AtRest() && log.cache.disk == disk && log.region == vol.plan.log
    ensures k > |h| ==> Sound(vol.plan, disk.blocks, vol.fs.owner) && Alike(FilesOn(vol.plan, disk.blocks), vol.Cached(), vol.stray)
    ensures k <= |h| ==> Sound(vol.plan, disk.blocks, owner0) && FilesOn(vol.plan, disk.blocks) == FilesOn(vol.plan, vol.disk)
  {
    hide Consistent, NoHoles, Beside, HomeBlocks, Lists, InodesOn, FilesOf, SameHome, Installed, CommitWrites, Quiet,
         Loggable, Recovered, L.Pending;
    ListedHome(vol.plan, |vol.disk|, vol.fs.logged, h);
    CommitIsAtomic(vol.plan.log, vol.disk, h, L.Pending(vol.fs.disk, h), k);
    log := L.Restart(disk, vol.plan.log);
    RecoveredFiles(vol.plan, vol.disk, vol.fs.disk, vol.fs.inodes, vol.fs.owner, owner0, vol.fs.logged, vol.stray, h, disk.blocks, k > |h|);
  }
}
