/** The buffer cache: a fixed set of buffers on a circular doubly linked list, most recently
    released first, each caching one disk block. A pointer to a buffer is its index; the list's
    head is the entry after the last buffer. */
module BufferCaching {
  import opened Blocks
  import opened Journal
  import opened Wrappers

  const NBUF := 30
  const HEAD: nat := NBUF

  /** The block a buffer names: nothing yet, or a block of the one file-system device. */
  datatype DiskBlock = Placeholder | Numbered(number: nat)

  /** A buffer without its list pointers, which are kept beside it. */
  datatype Buffer = Buffer(isValid: bool, block: DiskBlock, referenceCount: nat, data: Block)

  /** The list pointers of the buffers and of the head. */
  datatype Links = Links(next: seq<nat>, previous: seq<nat>)

  /** The virtio disk behind the cache. `writes` records every block write in order. */
  class Disk {
    var blocks: DiskState
    ghost var writes: seq<Write>

    constructor (blocks: DiskState)
      ensures this.blocks == blocks && writes == []
    {
      this.blocks := blocks;
      writes := [];
    }

    method WriteBlock(number: nat, data: Block)
      requires number < |blocks|
      modifies this
      ensures blocks == old(blocks)[number := data]
      ensures writes == old(writes) + [Write(number, data)]
    {
      blocks := blocks[number := data];
      writes := writes + [Write(number, data)];
    }
  }

  // ---------- the list ----------

  /** The pointers form one cycle: head, then the distinct buffers of `order`, then head. */
  ghost predicate Chained(l: Links, order: seq<nat>) {
    && |l.next| == |l.previous| == NBUF + 1
    && (forall i | 0 <= i < |order| :: order[i] < NBUF)
    && (forall i, j | 0 <= i < j < |order| :: order[i] != order[j])
    && l.next[HEAD] == (if order == [] then HEAD else order[0])
    && l.previous[HEAD] == (if order == [] then HEAD else order[|order| - 1])
    && (forall i {:trigger l.next[order[i]]} | 0 <= i < |order| ::
          l.next[order[i]] == if i == |order| - 1 then HEAD else order[i + 1])
    && (forall i {:trigger l.previous[order[i]]} | 0 <= i < |order| ::
          l.previous[order[i]] == if i == 0 then HEAD else order[i - 1])
  }

  /** Every buffer is on the list, most recently released first. */
  ghost predicate Aged(order: seq<nat>, released: seq<nat>, clock: nat) {
    && |released| == NBUF
    && (forall i | 0 <= i < |order| :: order[i] < NBUF && released[order[i]] < clock)
    && (forall i, j | 0 <= i < j < |order| :: released[order[i]] > released[order[j]])
  }

  ghost predicate Complete(order: seq<nat>) {
    forall b: nat | b < NBUF :: b in order
  }

  predicate InRange(l: Links, b: nat) {
    && |l.next| == |l.previous| == NBUF + 1
    && b < NBUF && l.next[b] <= NBUF && l.previous[b] <= NBUF
  }

  function Unlinked(l: Links, b: nat): Links
    requires InRange(l, b)
  {
    Links(l.next[l.previous[b] := l.next[b]], l.previous[l.next[b] := l.previous[b]])
  }

  function PushedFront(l: Links, b: nat): Links
    requires |l.next| == |l.previous| == NBUF + 1 && b < NBUF && l.next[HEAD] <= NBUF
  {
    var first := l.next[HEAD];
    Links(l.next[b := first][HEAD := b], l.previous[b := HEAD][first := b])
  }

  /** The pointers at position `k` of the list, and at its head. */
  lemma Neighbours(l: Links, order: seq<nat>, k: nat)
    requires Chained(l, order) && k <= |order|
    ensures |l.next| == |l.previous| == NBUF + 1
    ensures l.next[HEAD] == (if order == [] then HEAD else order[0])
    ensures l.previous[HEAD] == (if order == [] then HEAD else order[|order| - 1])
    ensures k < |order| ==>
              && order[k] < NBUF
              && l.next[order[k]] == (if k == |order| - 1 then HEAD else order[k + 1])
              && l.previous[order[k]] == (if k == 0 then HEAD else order[k - 1])
  {
  }

  lemma NoRepeat(l: Links, order: seq<nat>, i: nat, j: nat)
    requires Chained(l, order) && i < |order| && j < |order|
    ensures order[i] == order[j] <==> i == j
  {
  }

  lemma UnlinkNeighbours(l: Links, order: seq<nat>, k: nat, o: nat)
    requires Chained(l, order) && k < |order| && o < |order| && o != k
    requires InRange(l, order[k])
    ensures order[o] < NBUF
    ensures var l' := Unlinked(l, order[k]);
            && l'.next[order[o]] == (if o + 1 == k then l.next[order[k]] else l.next[order[o]])
            && l'.previous[order[o]] == (if o == k + 1 then l.previous[order[k]] else l.previous[order[o]])
  {
    hide Chained;
    Neighbours(l, order, k);
    Neighbours(l, order, o);
    if k > 0 {
      Neighbours(l, order, k - 1);
      NoRepeat(l, order, o, k - 1);
    }
    if k + 1 < |order| {
      Neighbours(l, order, k + 1);
      NoRepeat(l, order, o, k + 1);
    }
  }

  lemma UnlinkHead(l: Links, order: seq<nat>, k: nat)
    requires Chained(l, order) && k < |order|
    ensures InRange(l, order[k])
    ensures var l' := Unlinked(l, order[k]);
            && |l'.next| == |l'.previous| == NBUF + 1
            && l'.next[HEAD] == (if k == 0 then l.next[order[k]] else l.next[HEAD])
            && l'.previous[HEAD] == (if k == |order| - 1 then l.previous[order[k]] else l.previous[HEAD])
  {
    assert k > 0 ==> order[k - 1] < NBUF;
    assert k < |order| - 1 ==> order[k + 1] < NBUF;
  }

  function Without(order: seq<nat>, k: nat): (r: seq<nat>)
    requires k < |order|
    ensures |r| == |order| - 1
    ensures forall i | 0 <= i < |r| :: r[i] == order[if i < k then i else i + 1]
  {
    order[..k] + order[k + 1..]
  }

  lemma UnlinkChain(l: Links, order: seq<nat>, k: nat)
    requires Chained(l, order) && k < |order|
    ensures InRange(l, order[k])
    ensures Chained(Unlinked(l, order[k]), Without(order, k))
  {
    hide Unlinked, Without;
    UnlinkHead(l, order, k);
    Neighbours(l, order, k);
    var l', order' := Unlinked(l, order[k]), Without(order, k);
    forall i {:trigger l'.next[order'[i]]} {:trigger l'.previous[order'[i]]} | 0 <= i < |order'|
      ensures order'[i] < NBUF
      ensures l'.next[order'[i]] == if i == |order'| - 1 then HEAD else order'[i + 1]
      ensures l'.previous[order'[i]] == if i == 0 then HEAD else order'[i - 1]
    {
      UnlinkedAt(l, order, k, i);
    }
  }

  lemma UnlinkedAt(l: Links, order: seq<nat>, k: nat, i: nat)
    requires Chained(l, order) && k < |order| && InRange(l, order[k])
    requires i < |Without(order, k)|
    ensures |Unlinked(l, order[k]).next| == |Unlinked(l, order[k]).previous| == NBUF + 1
    ensures var l', order' := Unlinked(l, order[k]), Without(order, k);
            && order'[i] < NBUF
            && l'.next[order'[i]] == (if i == |order'| - 1 then HEAD else order'[i + 1])
            && l'.previous[order'[i]] == (if i == 0 then HEAD else order'[i - 1])
  {
    hide Chained, Without;
    var o := if i < k then i else i + 1;
    UnlinkNeighbours(l, order, k, o);
    Neighbours(l, order, k);
    Neighbours(l, order, o);
  }

  lemma PushFrontChain(l: Links, order: seq<nat>, b: nat)
    requires Chained(l, order) && b < NBUF && b !in order
    ensures l.next[HEAD] <= NBUF
    ensures Chained(PushedFront(l, b), [b] + order)
  {
  }

  function MovedOrder(order: seq<nat>, k: nat): seq<nat>
    requires k < |order|
  {
    [order[k]] + Without(order, k)
  }

  lemma MovedAt(order: seq<nat>, k: nat, i: nat)
    requires k < |order| && i < |order|
    ensures MovedOrder(order, k)[i] == order[if i == 0 then k else if i <= k then i - 1 else i]
  {
  }

  lemma AgedMoved(order: seq<nat>, released: seq<nat>, clock: nat, k: nat)
    requires Aged(order, released, clock) && k < |order|
    ensures |released| == NBUF && order[k] < NBUF
    ensures Aged(MovedOrder(order, k), released[order[k] := clock], clock + 1)
  {
    var order', released' := MovedOrder(order, k), released[order[k] := clock];
    forall i | 0 <= i < |order'| ensures order'[i] == order[if i == 0 then k else if i <= k then i - 1 else i] {
      MovedAt(order, k, i);
    }
    forall i | 1 <= i < |order'| ensures released'[order'[i]] == released[order'[i]] {
      assert released[order[k]] != released[order'[i]];
    }
  }

  lemma CompleteMoved(order: seq<nat>, k: nat)
    requires Complete(order) && k < |order|
    ensures Complete(MovedOrder(order, k))
  {
    forall b: nat | b < NBUF ensures b in MovedOrder(order, k) {
      var i := Placed(order, b);
      MovedAt(order, k, if i == k then 0 else if i < k then i + 1 else i);
    }
  }

  lemma Placed(order: seq<nat>, b: nat) returns (k: nat)
    requires Complete(order) && b < NBUF
    ensures k < |order| && order[k] == b
  {
    assert b in order;
    k :| k < |order| && order[k] == b;
  }

  /** Buffer.release moves a buffer to the front. */
  lemma MoveToFront(l: Links, order: seq<nat>, k: nat)
    requires Chained(l, order) && k < |order|
    ensures InRange(l, order[k]) && Unlinked(l, order[k]).next[HEAD] <= NBUF
    ensures Chained(PushedFront(Unlinked(l, order[k]), order[k]), MovedOrder(order, k))
  {
    UnlinkChain(l, order, k);
    forall i | 0 <= i < |order| && i != k ensures order[i] != order[k] {}
    hide Chained;
    PushFrontChain(Unlinked(l, order[k]), Without(order, k), order[k]);
  }

  // ---------- what the buffers cache ----------

  /** `slot` is the inverse of the buffers' block fields: no block is in two buffers. */
  ghost predicate Indexed(bs: seq<Buffer>, slot: map<nat, nat>) {
    && |bs| == NBUF
    && (forall b | 0 <= b < NBUF && bs[b].block.Numbered? ::
          bs[b].block.number in slot && slot[bs[b].block.number] == b)
    && (forall n | n in slot :: slot[n] < NBUF && bs[slot[n]].block == Numbered(n))
  }

  /** Reference counts are holders plus pins. */
  ghost predicate Counted(bs: seq<Buffer>, slot: map<nat, nat>, held: multiset<nat>, pinned: multiset<nat>) {
    && |bs| == NBUF
    && (forall b | 0 <= b < NBUF :: bs[b].referenceCount ==
          match bs[b].block case Placeholder => 0 case Numbered(n) => held[n] + pinned[n])
    && (forall n | n in held :: n in slot)
    && (forall n | n in pinned :: n in slot)
  }

  /** A valid buffer holds its block's latest contents; contents the disk does not have are in
      a referenced buffer. */
  ghost predicate Coherent(bs: seq<Buffer>, slot: map<nat, nat>, view: DiskState, d: DiskState)
    requires Indexed(bs, slot)
  {
    && |view| == |d|
    && (forall b | 0 <= b < NBUF && bs[b].block.Placeholder? :: !bs[b].isValid)
    && (forall b | 0 <= b < NBUF && bs[b].block.Numbered? ::
          bs[b].block.number < |view| && (bs[b].isValid ==> bs[b].data == view[bs[b].block.number]))
    && (forall n | 0 <= n < |view| && view[n] != d[n] ::
          n in slot && bs[slot[n]].isValid && bs[slot[n]].referenceCount > 0)
  }

  /** What the model knows beside the buffers themselves. */
  datatype Books = Books(
    slot: map<nat, nat>,   // which buffer caches a block
    view: DiskState,       // the latest contents of every block, on the disk or not
    held: multiset<nat>,   // blocks whose buffer a caller holds
    pinned: multiset<nat>) // blocks the log has pinned

  ghost predicate Consistent(bs: seq<Buffer>, g: Books, d: DiskState) {
    && |bs| == NBUF && |g.view| == |d|
    && Indexed(bs, g.slot)
    && Counted(bs, g.slot, g.held, g.pinned)
    && Coherent(bs, g.slot, g.view, d)
  }

  /** What is known of a buffer that names a block. */
  lemma NamedBuffer(bs: seq<Buffer>, g: Books, d: DiskState, b: nat)
    requires Consistent(bs, g, d) && b < NBUF && bs[b].block.Numbered?
    ensures bs[b].block.number in g.slot && g.slot[bs[b].block.number] == b
    ensures bs[b].block.number < |g.view| == |d|
    ensures bs[b].isValid ==> bs[b].data == g.view[bs[b].block.number]
    ensures bs[b].referenceCount == g.held[bs[b].block.number] + g.pinned[bs[b].block.number]
  {
  }

  /** Contents nobody references are on the disk. */
  lemma FreeIsClean(bs: seq<Buffer>, g: Books, d: DiskState, n: nat)
    requires Consistent(bs, g, d) && n < |g.view| && n !in g.held && n !in g.pinned
    ensures n < |d| && g.view[n] == d[n]
  {
    if g.view[n] != d[n] {
      NamedBuffer(bs, g, d, g.slot[n]);
      assert false;
    }
  }

  lemma NotCached(bs: seq<Buffer>, g: Books, d: DiskState, order: seq<nat>, n: nat)
    requires Consistent(bs, g, d) && Complete(order)
    requires forall i | 0 <= i < |order| :: order[i] < NBUF && bs[order[i]].block != Numbered(n)
    ensures n !in g.slot
  {
    if n in g.slot {
      var i := Placed(order, g.slot[n]);
      assert false;
    }
  }

  lemma Oldest(order: seq<nat>, released: seq<nat>, clock: nat, k: nat)
    requires Aged(order, released, clock) && Complete(order) && k < |order|
    ensures |released| == NBUF && order[k] < NBUF
    ensures forall b: nat | b < NBUF :: released[order[k]] <= released[b] || exists j | k < j < |order| :: order[j] == b
  {
    forall b: nat | b < NBUF
      ensures released[order[k]] <= released[b] || exists j | k < j < |order| :: order[j] == b
    {
      assert b in order;
    }
  }

  lemma HitConsistent(bs: seq<Buffer>, g: Books, d: DiskState, n: nat, b: nat)
    requires Consistent(bs, g, d) && b < NBUF && bs[b].block == Numbered(n)
    ensures Consistent(bs[b := bs[b].(referenceCount := bs[b].referenceCount + 1)], g.(held := g.held + multiset{n}), d)
  {
  }

  function Rebound(slot: map<nat, nat>, was: DiskBlock, n: nat, b: nat): map<nat, nat> {
    (match was case Placeholder => slot case Numbered(m) => slot - {m})[n := b]
  }

  function Recycled(bs: seq<Buffer>, n: nat, b: nat): seq<Buffer>
    requires b < |bs|
  {
    bs[b := bs[b].(block := Numbered(n), isValid := false, referenceCount := 1)]
  }

  lemma RecycleIndexed(bs: seq<Buffer>, slot: map<nat, nat>, n: nat, b: nat)
    requires Indexed(bs, slot) && b < NBUF && n !in slot
    ensures Indexed(Recycled(bs, n, b), Rebound(slot, bs[b].block, n, b))
  {
    var bs', slot' := Recycled(bs, n, b), Rebound(slot, bs[b].block, n, b);
    forall m | m in slot' ensures slot'[m] < NBUF && bs'[slot'[m]].block == Numbered(m) {
      if m != n {
        assert m in slot && slot'[m] == slot[m];
        assert bs[slot[m]].block == Numbered(m);
      }
    }
    forall c | 0 <= c < NBUF && bs'[c].block.Numbered?
      ensures bs'[c].block.number in slot' && slot'[bs'[c].block.number] == c
    {
      if c != b {
        assert bs[c].block.number in slot && slot[bs[c].block.number] == c;
      }
    }
  }

  lemma RecycleCounted(bs: seq<Buffer>, g: Books, n: nat, b: nat)
    requires Indexed(bs, g.slot) && Counted(bs, g.slot, g.held, g.pinned)
    requires b < NBUF && bs[b].referenceCount == 0 && n !in g.slot
    ensures Counted(Recycled(bs, n, b), Rebound(g.slot, bs[b].block, n, b), g.held + multiset{n}, g.pinned)
  {
    var bs', slot', held' := Recycled(bs, n, b), Rebound(g.slot, bs[b].block, n, b), g.held + multiset{n};
    assert n !in g.held && n !in g.pinned;
    assert bs[b].block.Numbered? ==> bs[b].block.number !in g.held && bs[b].block.number !in g.pinned;
    forall c | 0 <= c < NBUF && c != b && bs[c].block.Numbered? ensures bs[c].block.number != n {
      assert bs[c].block.number in g.slot;
    }
    assert forall m | m in held' :: m == n || m in g.held;
  }

  lemma RecycleConsistent(bs: seq<Buffer>, g: Books, d: DiskState, n: nat, b: nat)
    requires Consistent(bs, g, d) && b < NBUF && bs[b].referenceCount == 0
    requires n !in g.slot && n < |g.view|
    ensures Consistent(Recycled(bs, n, b),
                       g.(held := g.held + multiset{n}, slot := Rebound(g.slot, bs[b].block, n, b)), d)
  {
    RecycleIndexed(bs, g.slot, n, b);
    RecycleCounted(bs, g, n, b);
    RecycleCoherent(bs, g, d, n, b);
    hide Indexed, Counted, Coherent;
  }

  lemma RecycleCoherent(bs: seq<Buffer>, g: Books, d: DiskState, n: nat, b: nat)
    requires Indexed(bs, g.slot) && Coherent(bs, g.slot, g.view, d)
    requires b < NBUF && bs[b].referenceCount == 0 && n !in g.slot && n < |g.view|
    requires Indexed(Recycled(bs, n, b), Rebound(g.slot, bs[b].block, n, b))
    ensures Coherent(Recycled(bs, n, b), Rebound(g.slot, bs[b].block, n, b), g.view, d)
  {
    var bs', slot' := Recycled(bs, n, b), Rebound(g.slot, bs[b].block, n, b);
    forall m | 0 <= m < |g.view| && g.view[m] != d[m]
      ensures m in slot' && bs'[slot'[m]].isValid && bs'[slot'[m]].referenceCount > 0
    {
      assert m in g.slot && g.slot[m] != b;
    }
  }

  lemma FillConsistent(bs: seq<Buffer>, g: Books, d: DiskState, b: nat)
    requires Consistent(bs, g, d) && b < NBUF && bs[b].block.Numbered? && !bs[b].isValid
    ensures bs[b].block.number < |d|
    ensures g.view[bs[b].block.number] == d[bs[b].block.number]
    ensures Consistent(bs[b := bs[b].(isValid := true, data := d[bs[b].block.number])], g, d)
  {
  }

  lemma StoreConsistent(bs: seq<Buffer>, g: Books, d: DiskState, b: nat, data: Block)
    requires Consistent(bs, g, d) && b < NBUF && bs[b].block.Numbered? && bs[b].isValid && bs[b].referenceCount > 0
    ensures bs[b].block.number < |g.view|
    ensures Consistent(bs[b := bs[b].(data := data)], g.(view := g.view[bs[b].block.number := data]), d)
  {
    var n := bs[b].block.number;
    assert g.slot[n] == b;
  }

  lemma WriteOutConsistent(bs: seq<Buffer>, g: Books, d: DiskState, n: nat)
    requires Consistent(bs, g, d) && n < |d|
    ensures Consistent(bs, g, d[n := g.view[n]])
  {
  }

  function Recounted(bs: seq<Buffer>, b: nat, count: nat): seq<Buffer>
    requires b < |bs|
  {
    bs[b := bs[b].(referenceCount := count)]
  }

  lemma RecountCounted(bs: seq<Buffer>, g: Books, b: nat, n: nat, held': multiset<nat>, pinned': multiset<nat>, count: nat)
    requires Indexed(bs, g.slot) && Counted(bs, g.slot, g.held, g.pinned)
    requires b < NBUF && bs[b].block == Numbered(n)
    requires forall m | m != n :: held'[m] == g.held[m] && pinned'[m] == g.pinned[m]
    requires held'[n] + pinned'[n] == count
    ensures Counted(Recounted(bs, b, count), g.slot, held', pinned')
  {
    assert g.slot[n] == b;
    forall m | m in held' ensures m in g.slot {
      assert m != n ==> m in g.held;
    }
    forall m | m in pinned' ensures m in g.slot {
      assert m != n ==> m in g.pinned;
    }
  }

  lemma RecountCoherent(bs: seq<Buffer>, g: Books, d: DiskState, b: nat, n: nat, count: nat)
    requires Indexed(bs, g.slot) && Coherent(bs, g.slot, g.view, d)
    requires b < NBUF && bs[b].block == Numbered(n)
    requires count == 0 ==> n < |d| == |g.view| && d[n] == g.view[n]
    ensures Indexed(Recounted(bs, b, count), g.slot) && Coherent(Recounted(bs, b, count), g.slot, g.view, d)
  {
  }

  lemma RecountConsistent(bs: seq<Buffer>, g: Books, d: DiskState, b: nat, held': multiset<nat>, pinned': multiset<nat>, count: nat)
    requires Consistent(bs, g, d) && b < NBUF && bs[b].block.Numbered?
    requires forall m | m != bs[b].block.number :: held'[m] == g.held[m] && pinned'[m] == g.pinned[m]
    requires held'[bs[b].block.number] + pinned'[bs[b].block.number] == count
    requires count == 0 ==> bs[b].block.number < |d| == |g.view| && d[bs[b].block.number] == g.view[bs[b].block.number]
    ensures Consistent(Recounted(bs, b, count), g.(held := held', pinned := pinned'), d)
  {
    hide Indexed, Counted, Coherent;
    RecountCounted(bs, g, b, bs[b].block.number, held', pinned', count);
    RecountCoherent(bs, g, d, b, bs[b].block.number, count);
  }

  ghost predicate AllReferenced(bs: seq<Buffer>)
    requires |bs| == NBUF
  {
    forall b | 0 <= b < NBUF :: bs[b].referenceCount > 0
  }

  predicate SameButCount(b: Buffer, b': Buffer) {
    b.(referenceCount := 0) == b'.(referenceCount := 0)
  }

  ghost predicate Holds(bs: seq<Buffer>, g: Books, b: nat) {
    && |bs| == NBUF && b < NBUF
    && bs[b].block.Numbered? && bs[b].isValid && bs[b].block.number in g.held
  }

  class Cache {
    const disk: Disk
    var buffers: seq<Buffer>
    var links: Links
    ghost var order: seq<nat>     // the list from head.next to head.previous
    ghost var released: seq<nat>  // when each buffer's reference count last fell to zero, by `clock`
    ghost var clock: nat
    ghost var books: Books

    ghost predicate Valid()
      reads this, disk
    {
      && Chained(links, order) && Aged(order, released, clock) && Complete(order)
      && Consistent(buffers, books, disk.blocks)
    }

    /** Cache with its head and init_array: every buffer is put at the front in turn. */
    constructor (disk: Disk)
      ensures Valid() && this.disk == disk
      ensures books == Books(map[], disk.blocks, multiset{}, multiset{})
    {
      var l := Links(seq(NBUF + 1, i => HEAD), seq(NBUF + 1, i => HEAD));
      ghost var o: seq<nat> := [];
      for i := 0 to NBUF
        invariant Chained(l, o) && |o| == i
        invariant forall j | 0 <= j < i :: o[j] == i - 1 - j
      {
        PushFrontChain(l, o, i);
        l, o := PushedFront(l, i), [i] + o;
      }
      forall b: nat | b < NBUF ensures b in o {
        assert o[NBUF - 1 - b] == b;
      }
      this.disk := disk;
      links, order, released, clock := l, o, seq(NBUF, i => i), NBUF;
      buffers := seq(NBUF, i => Buffer(false, Placeholder, 0, ZeroBlock()));
      books := Books(map[], disk.blocks, multiset{}, multiset{});
    }

    // ---------- lookup and recycling ----------

    /** The pass from the front, for the block itself. HEAD when it is not cached. */
    method Lookup(n: nat) returns (b: nat)
      requires Valid()
      ensures n in books.slot ==> b < NBUF && b == books.slot[n] && buffers[b].block == Numbered(n)
      ensures n !in books.slot ==> b == HEAD
    {
      hide Indexed, Counted, Coherent, Chained, Aged, Complete;
      Neighbours(links, order, 0);
      b := links.next[HEAD];
      ghost var k := 0;
      while b != HEAD
        invariant 0 <= k <= |order| && b == if k == |order| then HEAD else order[k]
        invariant forall j | 0 <= j < k :: order[j] < NBUF && buffers[order[j]].block != Numbered(n)
        decreases |order| - k
      {
        Neighbours(links, order, k);
        if buffers[b].block == Numbered(n) {
          NamedBuffer(buffers, books, disk.blocks, b);
          return;
        }
        b := links.next[b];
        k := k + 1;
      }
      Neighbours(links, order, k);
      NotCached(buffers, books, disk.blocks, order, n);
    }

    /** The pass from the back, for the unreferenced buffer released longest ago. HEAD when every
        buffer is referenced. */
    method OldestFree() returns (b: nat)
      requires Valid()
      ensures b == HEAD <==> AllReferenced(buffers)
      ensures b != HEAD ==> b < NBUF && buffers[b].referenceCount == 0
      ensures b != HEAD ==> forall c | 0 <= c < NBUF && buffers[c].referenceCount == 0 :: |released| == NBUF && released[b] <= released[c]
    {
      hide Indexed, Counted, Coherent, Chained, Aged, Complete;
      Neighbours(links, order, 0);
      b := links.previous[HEAD];
      ghost var k := |order|;
      while b != HEAD
        invariant 0 <= k <= |order| && b == if k == 0 then HEAD else order[k - 1]
        invariant forall j | k <= j < |order| :: order[j] < NBUF && buffers[order[j]].referenceCount > 0
        decreases k
      {
        Neighbours(links, order, k - 1);
        if buffers[b].referenceCount == 0 {
          Oldest(order, released, clock, k - 1);
          return;
        }
        b := links.previous[b];
        k := k - 1;
      }
      if k > 0 {
        Neighbours(links, order, k - 1);
        assert false;
      }
      forall c: nat | c < NBUF ensures buffers[c].referenceCount > 0 {
        var j := Placed(order, c);
      }
    }

    /** Cache.get_buffer. None is the panic "no buffers". */
    method GetBuffer(n: nat) returns (r: Option<nat>)
      requires Valid() && n < |books.view|
      modifies `buffers, `books
      ensures Valid()
      ensures r.None? <==> n !in old(books).slot && AllReferenced(old(buffers))
      ensures r.None? ==> buffers == old(buffers) && books == old(books)
      ensures r.Some? ==> r.value < NBUF && buffers[r.value].block == Numbered(n)
      ensures r.Some? ==> books == old(books).(held := old(books).held + multiset{n}, slot := books.slot)
      // A cached block is found where it is.
      ensures n in old(books).slot ==>
                && r == Some(old(books).slot[n]) && books.slot == old(books).slot
                && SameButCount(buffers[r.value], old(buffers)[r.value])
      // Otherwise the unreferenced buffer nearest the back, the one released longest ago, is taken.
      ensures r.Some? && n !in old(books).slot ==>
                && !buffers[r.value].isValid && old(buffers)[r.value].referenceCount == 0
                && forall b | 0 <= b < NBUF && old(buffers)[b].referenceCount == 0 ::
                     |released| == NBUF && released[r.value] <= released[b]
      ensures forall b | 0 <= b < NBUF && old(buffers)[b].referenceCount > 0 :: SameButCount(buffers[b], old(buffers)[b])
    {
      hide Indexed, Counted, Coherent, Chained, Aged, Complete;
      var current := Lookup(n);
      if current != HEAD {
        HitConsistent(buffers, books, disk.blocks, n, current);
        buffers := buffers[current := buffers[current].(referenceCount := buffers[current].referenceCount + 1)];
        books := books.(held := books.held + multiset{n});
        return Some(current);
      }
      current := OldestFree();
      if current == HEAD {
        return None;
      }
      RecycleConsistent(buffers, books, disk.blocks, n, current);
      books := books.(held := books.held + multiset{n},
                      slot := Rebound(books.slot, buffers[current].block, n, current));
      buffers := Recycled(buffers, n, current);
      return Some(current);
    }

    /** A caller has the valid buffer `b` locked. */
    ghost predicate Holding(b: nat)
      reads this
    {
      Holds(buffers, books, b)
    }

    /** Buffer.read: the buffer of a block, holding its latest contents. */
    method Read(n: nat) returns (r: Option<nat>)
      requires Valid() && n < |books.view|
      modifies `buffers, `books
      ensures Valid()
      ensures r.None? <==> n !in old(books).slot && AllReferenced(old(buffers))
      ensures r.None? ==> buffers == old(buffers) && books == old(books)
      ensures r.Some? ==> Holding(r.value) && buffers[r.value].block == Numbered(n) && buffers[r.value].data == books.view[n]
      ensures r.Some? ==> books == old(books).(held := old(books).held + multiset{n}, slot := books.slot)
      ensures forall b: nat | Holds(old(buffers), old(books), b) ::
                Holds(buffers, books, b) && SameButCount(buffers[b], old(buffers)[b])
    {
      hide Indexed, Counted, Coherent, Chained, Aged, Complete;
      forall b: nat | Holds(buffers, books, b) ensures buffers[b].referenceCount > 0 {
        NamedBuffer(buffers, books, disk.blocks, b);
      }
      r := GetBuffer(n);
      if r.Some? {
        NamedBuffer(buffers, books, disk.blocks, r.value);
        if !buffers[r.value].isValid {
          FillConsistent(buffers, books, disk.blocks, r.value);
          buffers := buffers[r.value := buffers[r.value].(isValid := true, data := disk.blocks[n])];
        }
      }
    }

    // ---------- holding a buffer ----------

    /** A holder stores new contents; they are the block's latest from now on. */
    method SetData(b: nat, data: Block)
      requires Valid() && Holding(b)
      modifies `buffers, `books
      ensures Valid() && buffers == old(buffers)[b := old(buffers)[b].(data := data)]
      ensures buffers[b].block.number < |old(books).view|
      ensures books == old(books).(view := old(books).view[buffers[b].block.number := data])
    {
      StoreConsistent(buffers, books, disk.blocks, b, data);
      books := books.(view := books.view[buffers[b].block.number := data]);
      buffers := buffers[b := buffers[b].(data := data)];
    }

    /** Buffer.write. */
    method WriteOut(b: nat)
      requires Valid() && Holding(b)
      modifies disk
      ensures Valid() && buffers[b].block.number < |old(disk.blocks)|
      ensures disk.blocks == old(disk.blocks)[buffers[b].block.number := buffers[b].data]
      ensures disk.writes == old(disk.writes) + [Write(buffers[b].block.number, buffers[b].data)]
    {
      WriteOutConsistent(buffers, books, disk.blocks, buffers[b].block.number);
      disk.WriteBlock(buffers[b].block.number, buffers[b].data);
    }

    /** Buffer.release. The last reference to contents not yet on disk must not be dropped: the
        log pins such blocks before their holder releases them. */
    method Release(b: nat)
      requires Valid() && Holding(b)
      requires buffers[b].block.number in books.pinned
               || (buffers[b].block.number < |disk.blocks| && buffers[b].data == disk.blocks[buffers[b].block.number])
      modifies this
      ensures Valid()
      ensures books == old(books).(held := old(books).held - multiset{old(buffers)[b].block.number})
      ensures forall c | 0 <= c < NBUF :: SameButCount(buffers[c], old(buffers)[c])
      ensures forall c | 0 <= c < NBUF && c != b :: buffers[c] == old(buffers)[c]
      // A buffer released to zero goes to the front, the others keep their order.
      ensures buffers[b].referenceCount > 0 ==> order == old(order)
      ensures buffers[b].referenceCount == 0 ==>
                exists k | 0 <= k < |old(order)| :: old(order)[k] == b && order == MovedOrder(old(order), k)
    {
      hide Indexed, Counted, Coherent, Chained, Aged, Complete;
      NamedBuffer(buffers, books, disk.blocks, b);
      ghost var k := Placed(order, b);
      AgedMoved(order, released, clock, k);
      CompleteMoved(order, k);
      MoveToFront(links, order, k);
      ghost var held' := books.held - multiset{buffers[b].block.number};
      RecountConsistent(buffers, books, disk.blocks, b, held', books.pinned, buffers[b].referenceCount - 1);
      books := books.(held := held');
      buffers := buffers[b := buffers[b].(referenceCount := buffers[b].referenceCount - 1)];
      if buffers[b].referenceCount == 0 {
        order, released, clock := MovedOrder(order, k), released[b := clock], clock + 1;
        links := PushedFront(Unlinked(links, b), b);
      }
    }

    method Pin(b: nat)
      requires Valid() && Holding(b)
      modifies `buffers, `books
      ensures Valid() && buffers == old(buffers)[b := old(buffers)[b].(referenceCount := old(buffers)[b].referenceCount + 1)]
      ensures books == old(books).(pinned := old(books).pinned + multiset{buffers[b].block.number})
    {
      hide Indexed, Counted, Coherent, Chained, Aged, Complete;
      NamedBuffer(buffers, books, disk.blocks, b);
      ghost var pinned' := books.pinned + multiset{buffers[b].block.number};
      RecountConsistent(buffers, books, disk.blocks, b, books.held, pinned', buffers[b].referenceCount + 1);
      books := books.(pinned := pinned');
      buffers := buffers[b := buffers[b].(referenceCount := buffers[b].referenceCount + 1)];
    }

    method Unpin(b: nat)
      requires Valid() && Holding(b) && buffers[b].block.number in books.pinned
      modifies `buffers, `books
      ensures Valid() && old(buffers)[b].referenceCount >= 2
      ensures buffers == old(buffers)[b := old(buffers)[b].(referenceCount := old(buffers)[b].referenceCount - 1)]
      ensures books == old(books).(pinned := old(books).pinned - multiset{buffers[b].block.number})
    {
      hide Indexed, Counted, Coherent, Chained, Aged, Complete;
      NamedBuffer(buffers, books, disk.blocks, b);
      ghost var pinned' := books.pinned - multiset{buffers[b].block.number};
      RecountConsistent(buffers, books, disk.blocks, b, books.held, pinned', buffers[b].referenceCount - 1);
      books := books.(pinned := pinned');
      buffers := buffers[b := buffers[b].(referenceCount := buffers[b].referenceCount - 1)];
    }
  }
}
