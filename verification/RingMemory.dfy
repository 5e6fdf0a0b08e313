/** The pages of a user ring: taken from the allocator, mapped twice in a row, and given back. */
module RingMemory {
  import opened Wrappers
  import opened PageTables
  import opened AddressSpaces
  import opened ProcessMemory

  const BUFFER_PAGES := 16
  const CAPACITY := BUFFER_PAGES * PAGE
  const READ_WRITE := Permissions(true, true, false)
  const BOOK_SIZE := 16

  // ---------- taking pages and giving them back ----------

  predicate Distinct(frames: seq<nat>) {
    forall i, j | 0 <= i < j < |frames| :: frames[i] != frames[j]
  }

  /** The first `i` of the frames are `u` and the others `v`; all else is as in `use`. */
  ghost predicate Split(use: map<nat, Use>, use': map<nat, Use>, frames: seq<nat>, i: nat, u: Use, v: Use)
    requires i <= |frames|
  {
    && use'.Keys == use.Keys && (forall f | f in frames :: f in use)
    && forall f | f in use ::
         use'[f] == if f in frames[..i] then u else if f in frames[i..] then v else use[f]
  }

  /** The frames were free, and are the allocator's to give. */
  ghost predicate Allocatable(use: map<nat, Use>, frames: seq<nat>, first: nat, stop: nat) {
    Distinct(frames) && forall f | f in frames :: f in use && use[f] == Free && first <= f < stop
  }

  lemma SplitStep(use: map<nat, Use>, use1: map<nat, Use>, frames: seq<nat>, i: nat, u: Use, v: Use)
    requires i < |frames| && Distinct(frames) && Split(use, use1, frames, i, u, v)
    ensures frames[i] in use1 && use1[frames[i]] == v
    ensures Split(use, use1[frames[i] := u], frames, i + 1, u, v)
    ensures Split(use, use1[frames[i] := Held][frames[i] := u], frames, i + 1, u, v)
  {
    assert frames[i] in frames[i..];
    assert frames[i..] == [frames[i]] + frames[i + 1..];
    assert frames[..i + 1] == frames[..i] + [frames[i]];
  }

  lemma SplitMore(use: map<nat, Use>, use1: map<nat, Use>, frames: seq<nat>, f: nat, first: nat, stop: nat)
    requires Split(use, use1, frames, |frames|, Held, Held) && Allocatable(use, frames, first, stop)
    requires f in use1 && use1[f] == Free && first <= f < stop
    ensures Split(use, use1[f := Held], frames + [f], |frames| + 1, Held, Held)
    ensures Allocatable(use, frames + [f], first, stop)
  {
    assert (frames + [f])[..|frames| + 1] == frames + [f] && frames[..|frames|] == frames;
    assert f !in frames;
  }

  /** Frames that were free, taken and given back: nothing changed. */
  lemma SplitBack(use: map<nat, Use>, use1: map<nat, Use>, frames: seq<nat>, first: nat, stop: nat, v: Use)
    requires Split(use, use1, frames, |frames|, Free, v) && Allocatable(use, frames, first, stop)
    ensures use1 == use
  {
    assert frames[..|frames|] == frames && frames[|frames|..] == [];
  }

  lemma SplitAgain(use: map<nat, Use>, use1: map<nat, Use>, frames: seq<nat>, u: Use, v: Use)
    requires Split(use, use1, frames, |frames|, u, u)
    ensures Split(use, use1, frames, 0, v, u) && Split(use, use1, frames, |frames|, u, v)
  {
    assert frames[..|frames|] == frames && frames[|frames|..] == [] && frames[0..] == frames && frames[..0] == [];
  }

  lemma SplitNothing(use: map<nat, Use>)
    ensures Split(use, use, [], 0, Held, Held)
  {
  }

  /** Both counters of a ring are zero. */
  predicate EmptyBook(page: Frame) {
    |page| == PAGE && forall i | 0 <= i < BOOK_SIZE :: page[i] == 0
  }

  lemma NoneAllocated(use: map<nat, Use>, first: nat, stop: nat)
    ensures Allocatable(use, [], first, stop)
  {
  }

  lemma AllocatableAt(use: map<nat, Use>, frames: seq<nat>, i: nat, first: nat, stop: nat)
    requires Allocatable(use, frames, first, stop) && i < |frames|
    ensures first <= frames[i] < stop && Distinct(frames)
  {
    assert frames[i] in frames;
  }

  /** One more page in hand. */
  method TakePage(memory: PhysicalMemory, ghost frames: seq<nat>, ghost h: Memory) returns (page: Option<nat>)
    requires memory.Valid({}) && OthersSame(h, memory.View(), None)
    requires Split(h.use, memory.use, frames, |frames|, Held, Held)
    requires Allocatable(h.use, frames, memory.first, memory.stop)
    modifies memory`freelist, memory`pages, memory`use
    ensures memory.Valid({}) && OthersSame(h, memory.View(), None)
    ensures page.None? <==> old(memory.freelist) == []
    ensures page.None? ==> memory.use == old(memory.use) && memory.freelist == []
    ensures page.Some? ==>
              && |memory.freelist| + 1 == |old(memory.freelist)|
              && Split(h.use, memory.use, frames + [page.value], |frames| + 1, Held, Held)
              && Allocatable(h.use, frames + [page.value], memory.first, memory.stop)
  {
    hide Sound, Flat, SameFlat, OthersSame, Split, Allocatable, Filled, Nowhere;
    ghost var m := memory.View();
    page := memory.AllocPage(false, {});
    SameFlatOthers(m, memory.View());
    OthersTwice(h, m, memory.View(), None);
    if page.Some? {
      UnusedFrame(m, old(memory.freelist), old(memory.pages), memory.first, memory.stop, page.value);
      SplitMore(h.use, m.use, frames, page.value, memory.first, memory.stop);
    }
  }

  /** The pages go back to the list. */
  method GiveBackPages(memory: PhysicalMemory, frames: seq<nat>, ghost h: Memory)
    requires memory.Valid({}) && OthersSame(h, memory.View(), None)
    requires Split(h.use, memory.use, frames, |frames|, Held, Held)
    requires Allocatable(h.use, frames, memory.first, memory.stop)
    modifies memory`freelist, memory`pages, memory`use
    ensures memory.Valid({}) && OthersSame(h, memory.View(), None) && memory.use == h.use
  {
    hide Sound, Flat, SameFlat, OthersSame, Split, Allocatable, Filled;
    SplitAgain(h.use, memory.use, frames, Held, Free);
    var i := 0;
    while i < |frames|
      invariant 0 <= i <= |frames|
      invariant memory.Valid({}) && OthersSame(h, memory.View(), None)
      invariant Split(h.use, memory.use, frames, i, Free, Held)
    {
      ghost var m := memory.View();
      AllocatableAt(h.use, frames, i, memory.first, memory.stop);
      SplitStep(h.use, memory.use, frames, i, Free, Held);
      var freed := memory.FreePage(frames[i], {});
      SameFlatOthers(m, memory.View());
      OthersTwice(h, m, memory.View(), None);
      i := i + 1;
    }
    SplitBack(h.use, memory.use, frames, memory.first, memory.stop, Held);
  }

  /** The pages are set aside for mapping. */
  ghost method SetAsidePages(memory: PhysicalMemory, frames: seq<nat>, h: Memory)
    requires memory.Valid({}) && OthersSame(h, memory.View(), None)
    requires Split(h.use, memory.use, frames, |frames|, Held, Held)
    requires Allocatable(h.use, frames, memory.first, memory.stop)
    modifies memory`use
    ensures memory.Valid({}) && OthersSame(h, memory.View(), None)
    ensures Split(h.use, memory.use, frames, |frames|, Shared, Held)
  {
    hide Sound, Flat, SameFlat, OthersSame, Split, Allocatable;
    SplitAgain(h.use, memory.use, frames, Held, Shared);
    var i := 0;
    while i < |frames|
      invariant 0 <= i <= |frames|
      invariant memory.Valid({}) && OthersSame(h, memory.View(), None)
      invariant Split(h.use, memory.use, frames, i, Shared, Held)
    {
      var m := memory.View();
      AllocatableAt(h.use, frames, i, memory.first, memory.stop);
      SplitStep(h.use, memory.use, frames, i, Shared, Held);
      memory.Share(frames[i]);
      SameFlatOthers(m, memory.View());
      OthersTwice(h, m, memory.View(), None);
      i := i + 1;
    }
  }

  /** The counters of a new ring. */
  method SetBook(memory: PhysicalMemory, book: nat)
    requires memory.Valid({}) && IsHeld(memory.use, book)
    modifies memory`pages
    ensures memory.Valid({}) && book in memory.pages && EmptyBook(memory.pages[book])
  {
    hide Sound, Flat, Overwritten;
    HeldInRange(memory.View(), {}, memory.freelist, memory.pages, memory.first, memory.stop, book);
    var page := Overwritten(memory.pages[book], 0, seq(BOOK_SIZE, i => 0));
    Refilled(memory.View(), {}, memory.freelist, memory.pages, memory.first, memory.stop, book, page);
    memory.pages := memory.pages[book := page];
  }

  lemma LastHeld(use: map<nat, Use>, use1: map<nat, Use>, frames: seq<nat>, f: nat)
    requires Split(use, use1, frames + [f], |frames| + 1, Held, Held)
    ensures IsHeld(use1, f)
  {
    assert f in frames + [f] && (frames + [f])[..|frames| + 1] == frames + [f];
  }

  /** The pages of a new ring: sixteen for the buffer, one for the counters; or none. */
  method Activate(memory: PhysicalMemory) returns (r: Option<(seq<nat>, nat)>)
    requires memory.Valid({})
    modifies memory
    ensures memory.Valid({}) && OthersSame(old(memory.View()), memory.View(), None) && memory.at == old(memory.at)
    ensures r.None? <==> |old(memory.freelist)| <= BUFFER_PAGES
    ensures r.None? ==> memory.use == old(memory.use)
    ensures r.Some? ==>
              var (frames, book) := r.value;
              && |frames| == BUFFER_PAGES && Allocatable(old(memory.use), frames + [book], memory.first, memory.stop)
              && Split(old(memory.use), memory.use, frames + [book], BUFFER_PAGES + 1, Shared, Held)
              && book in memory.pages && EmptyBook(memory.pages[book])
              && |memory.freelist| + BUFFER_PAGES + 1 == |old(memory.freelist)|
  {
    hide Sound, Flat, SameFlat, OthersSame, Split, Allocatable, Filled, EmptyBook;
    ghost var h := memory.View();
    NothingDone(h);
    SplitNothing(h.use);
    NoneAllocated(h.use, memory.first, memory.stop);
    var frames := [];
    while |frames| < BUFFER_PAGES
      invariant |frames| <= BUFFER_PAGES && |memory.freelist| + |frames| == |old(memory.freelist)|
      invariant memory.Valid({}) && OthersSame(h, memory.View(), None) && memory.at == h.at
      invariant Split(h.use, memory.use, frames, |frames|, Held, Held)
      invariant Allocatable(h.use, frames, memory.first, memory.stop)
    {
      var page := TakePage(memory, frames, h);
      if page.None? {
        break;
      }
      frames := frames + [page.value];
    }
    var book := TakePage(memory, frames, h);
    if |frames| < BUFFER_PAGES || book.None? {
      if book.Some? {
        assert false;
      }
      GiveBackPages(memory, frames, h);
      return None;
    }
    LastHeld(h.use, memory.use, frames, book.value);
    SetBook(memory, book.value);
    SetAsidePages(memory, frames + [book.value], h);
    r := Some((frames, book.value));
  }

  /** The frames are set aside, and mapped nowhere any more. */
  ghost predicate Releasable(m: Memory, frames: seq<nat>, first: nat, stop: nat) {
    Distinct(frames) && forall f | f in frames :: IsShared(m.use, f) && Nowhere(m, f) && first <= f < stop
  }

  lemma SplitAtFirst(use: map<nat, Use>, frames: seq<nat>)
    requires forall f | f in frames :: IsShared(use, f)
    ensures Split(use, use, frames, 0, Free, Shared)
  {
  }

  lemma ReleasableAt(m: Memory, frames: seq<nat>, i: nat, first: nat, stop: nat)
    requires Releasable(m, frames, first, stop) && i < |frames|
    ensures Nowhere(m, frames[i]) && first <= frames[i] < stop && Distinct(frames)
  {
  }

  /** One page of a ring goes back to the list. */
  method ReleasePage(memory: PhysicalMemory, frames: seq<nat>, i: nat, ghost h: Memory)
    requires memory.Valid({}) && OthersSame(h, memory.View(), None) && i < |frames|
    requires Releasable(h, frames, memory.first, memory.stop) && Split(h.use, memory.use, frames, i, Free, Shared)
    modifies memory`freelist, memory`pages, memory`use
    ensures memory.Valid({}) && OthersSame(h, memory.View(), None)
    ensures Split(h.use, memory.use, frames, i + 1, Free, Shared)
  {
    hide Sound, Flat, SameFlat, OthersSame, Split, Releasable, Nowhere, Filled;
    ghost var m := memory.View();
    ReleasableAt(h, frames, i, memory.first, memory.stop);
    SplitStep(h.use, memory.use, frames, i, Free, Shared);
    NowhereStill(h, m, frames[i]);
    memory.Unshare(frames[i]);
    ghost var m1 := memory.View();
    var freed := memory.FreePage(frames[i], {});
    SameFlatTwice(m, m1, memory.View());
    SameFlatOthers(m, memory.View());
    OthersTwice(h, m, memory.View(), None);
  }

  /** The pages of a ring that nobody has open go back: the buffer, then the counters. */
  method Deactivate(memory: PhysicalMemory, frames: seq<nat>, book: nat)
    requires memory.Valid({}) && Releasable(memory.View(), frames + [book], memory.first, memory.stop)
    modifies memory`freelist, memory`pages, memory`use
    ensures memory.Valid({}) && OthersSame(old(memory.View()), memory.View(), None)
    ensures Split(old(memory.use), memory.use, frames + [book], |frames| + 1, Free, Shared)
  {
    hide Sound, Flat, SameFlat, OthersSame, Split, Nowhere, Filled;
    ghost var h := memory.View();
    NothingDone(h);
    SplitAtFirst(h.use, frames + [book]);
    hide Releasable;
    var i := 0;
    while i < |frames|
      invariant 0 <= i <= |frames|
      invariant memory.Valid({}) && OthersSame(h, memory.View(), None)
      invariant Split(h.use, memory.use, frames + [book], i, Free, Shared)
    {
      ReleasePage(memory, frames + [book], i, h);
      i := i + 1;
    }
    ReleasePage(memory, frames + [book], |frames|, h);
  }

  // ---------- the double mapping ----------

  /** Page `j` from the top: the buffer, the buffer again, and the counters. */
  function RingFrame(frames: seq<nat>, book: nat, j: nat): nat
    requires |frames| == BUFFER_PAGES
  {
    if j < 2 * BUFFER_PAGES then frames[j % BUFFER_PAGES] else book
  }

  /** The first `n` pages of the ring are mapped from page `top` down, and nothing else differently. */
  ghost predicate Opened(h: Memory, m: Memory, root: nat, top: nat, frames: seq<nat>, book: nat, n: nat)
    requires |frames| == BUFFER_PAGES
  {
    forall r: nat, p: nat | p < PAGES ::
      Flat(m, r, p) == if r != root || top >= p + n || p > top then Flat(h, r, p)
                       else Some(Leaf(RingFrame(frames, book, top - p), Permissions(true, true, false), true))
  }

  /** The buffer's pages from `top` down, the same pages again, and below them the counters. */
  ghost predicate Doubled(m: Memory, root: nat, top: nat, frames: seq<nat>, book: nat)
    requires |frames| == BUFFER_PAGES && 2 * BUFFER_PAGES <= top < PAGES
  {
    var rights := Permissions(true, true, false);
    && (forall j: nat | j < BUFFER_PAGES :: Flat(m, root, top - j) == Some(Leaf(frames[j], rights, true)))
    && (forall j: nat | j < BUFFER_PAGES :: Flat(m, root, top - BUFFER_PAGES - j) == Some(Leaf(frames[j], rights, true)))
    && Flat(m, root, top - 2 * BUFFER_PAGES) == Some(Leaf(book, rights, true))
  }

  lemma OpenedAt(h: Memory, m: Memory, root: nat, top: nat, frames: seq<nat>, book: nat, j: nat)
    requires |frames| == BUFFER_PAGES && 2 * BUFFER_PAGES <= top < PAGES && j <= 2 * BUFFER_PAGES
    requires Opened(h, m, root, top, frames, book, 2 * BUFFER_PAGES + 1)
    ensures Flat(m, root, top - j) == Some(Leaf(RingFrame(frames, book, j), Permissions(true, true, false), true))
  {
    hide Flat, RingFrame;
    var p: nat := top - j;
    assert top - p == j;
  }

  lemma OpenedDoubled(h: Memory, m: Memory, root: nat, top: nat, frames: seq<nat>, book: nat)
    requires |frames| == BUFFER_PAGES && 2 * BUFFER_PAGES <= top < PAGES
    requires Opened(h, m, root, top, frames, book, 2 * BUFFER_PAGES + 1)
    ensures Doubled(m, root, top, frames, book)
  {
    hide Flat, Opened;
    var rights := Permissions(true, true, false);
    forall j: nat | j < BUFFER_PAGES ensures Flat(m, root, top - j) == Some(Leaf(frames[j], rights, true)) {
      OpenedAt(h, m, root, top, frames, book, j);
    }
    forall j: nat | j < BUFFER_PAGES ensures Flat(m, root, top - BUFFER_PAGES - j) == Some(Leaf(frames[j], rights, true)) {
      OpenedAt(h, m, root, top, frames, book, BUFFER_PAGES + j);
    }
    OpenedAt(h, m, root, top, frames, book, 2 * BUFFER_PAGES);
  }

  ghost predicate AllShared(use: map<nat, Use>, frames: seq<nat>) {
    forall f | f in frames :: IsShared(use, f)
  }

  /** No page from `top` down to the `n`th is mapped. */
  ghost predicate RoomBelow(m: Memory, root: nat, top: nat, n: nat) {
    forall p: nat | top < p + n && p <= top :: Flat(m, root, p) == None
  }

  lemma OpenedNothing(m: Memory, root: nat, top: nat, frames: seq<nat>, book: nat)
    requires |frames| == BUFFER_PAGES
    ensures Opened(m, m, root, top, frames, book, 0) && RoomBelow(m, root, top, 0) && TablesAdded(m.use, m.use, root)
  {
    hide Flat;
  }

  lemma OpenedMore(h: Memory, m: Memory, m': Memory, root: nat, top: nat, frames: seq<nat>, book: nat, n: nat)
    requires |frames| == BUFFER_PAGES && top < PAGES && n <= top && Opened(h, m, root, top, frames, book, n)
    requires MapsRange(m, m', root, top - n, 1, RingFrame(frames, book, n), READ_WRITE, true)
    requires RoomBelow(h, root, top, n) && Flat(m, root, top - n) == None
    ensures Opened(h, m', root, top, frames, book, n + 1) && RoomBelow(h, root, top, n + 1)
  {
    hide Flat, RingFrame;
  }

  lemma OpenedStill(h: Memory, m: Memory, m': Memory, root: nat, top: nat, frames: seq<nat>, book: nat, n: nat, v: nat, f: nat)
    requires |frames| == BUFFER_PAGES && Opened(h, m, root, top, frames, book, n)
    requires MapsRange(m, m', root, v, 0, f, READ_WRITE, true)
    ensures Opened(h, m', root, top, frames, book, n)
  {
    hide Flat, RingFrame;
  }

  lemma SharedMapped(use0: map<nat, Use>, use: map<nat, Use>, use': map<nat, Use>, root: nat, v: nat, n: nat, f: nat, frames: seq<nat>)
    requires TablesAdded(use0, use, root) && MapUse(use, use', root, v, n, f) && n <= 1 && IsShared(use, f) && AllShared(use, frames)
    ensures TablesAdded(use0, use', root) && AllShared(use', frames)
  {
    hide Index;
    forall g | g in use ensures NewTable(use[g], use'[g], root) {
      assert use[g] == Held && f <= g < f + n ==> g == f;
    }
    TablesAddedTwice(use0, use, use', root);
  }

  lemma FrameOfRing(use: map<nat, Use>, frames: seq<nat>, book: nat, j: nat)
    requires |frames| == BUFFER_PAGES && AllShared(use, frames + [book])
    ensures IsShared(use, RingFrame(frames, book, j)) && HeldOrShared(use, RingFrame(frames, book, j))
  {
    var f := RingFrame(frames, book, j);
    assert f in frames + [book];
  }

  /** One page of the ring. */
  method MapNext(memory: PhysicalMemory, root: nat, top: nat, frames: seq<nat>, book: nat, k: nat, ghost h: Memory) returns (ok: bool)
    requires memory.Valid({}) && Top(root) in memory.at && k <= top < PAGES
    requires |frames| == BUFFER_PAGES && AllShared(memory.use, frames + [book])
    requires Opened(h, memory.View(), root, top, frames, book, k) && RoomBelow(h, root, top, k)
    requires TablesAdded(h.use, memory.use, root)
    modifies memory
    ensures memory.Valid({}) && Top(root) in memory.at && AllShared(memory.use, frames + [book])
    ensures var n := if ok then k + 1 else k;
            Opened(h, memory.View(), root, top, frames, book, n) && RoomBelow(h, root, top, n)
    ensures TablesAdded(h.use, memory.use, root)
    ensures !ok <==> Flat(old(memory.View()), root, top - k).Some? || |old(memory.freelist)| < old(Missing(memory.at, root, top - k))
    ensures ok ==> |memory.freelist| + old(Missing(memory.at, root, top - k)) == |old(memory.freelist)|
    ensures |memory.freelist| <= |old(memory.freelist)| <= |memory.freelist| + 2
  {
    hide Missing, Sound, Flat, MapsRange, MapUse, PagesKept, AllShared, Opened, RoomBelow, IsShared, TablesAdded,
         RingFrame;
    var address, frame := (top - k) * PAGE, RingFrame(frames, book, k);
    OnePage(address, frame);
    assert address / PAGE == top - k;
    FrameOfRing(memory.use, frames, book, k);
    ghost var m := memory.View();
    var r, done := memory.Map(root, address, frame * PAGE, PAGE, READ_WRITE, true);
    SharedMapped(h.use, m.use, memory.use, root, top - k, done, frame, frames + [book]);
    ok := r.Mapping?;
    if ok {
      OpenedMore(h, m, memory.View(), root, top, frames, book, k);
    } else {
      OpenedStill(h, m, memory.View(), root, top, frames, book, k, top - k, frame);
    }
  }

  /** Once its first page is mapped, no page of the same table needs another table. */
  lemma SameTableThere(h: Memory, m: Memory, root: nat, top: nat, frames: seq<nat>, book: nat, done: nat)
    requires |frames| == BUFFER_PAGES && 0 < done <= top < PAGES && Opened(h, m, root, top, frames, book, done)
    ensures Flat(m, root, top - done) == Flat(h, root, top - done)
    ensures BottomOf(root, top - done) == BottomOf(root, top) ==> Missing(m.at, root, top - done) == 0
  {
    hide Index, RingFrame;
    assert Flat(m, root, top).Some?;
  }

  /** Why the mapping stopped, or how many frames it took. `m` is memory before, `free` its free frames. */
  ghost predicate OpenOutcome(m: Memory, free: nat, root: nat, top: nat, done: nat, left: nat) {
    && done <= 2 * BUFFER_PAGES + 1 && done <= top + 1
    && (done == 0 <==> Flat(m, root, top).Some? || free < Missing(m.at, root, top))
    && (0 < done < 2 * BUFFER_PAGES + 1 && done <= top && BottomOf(root, top - done) == BottomOf(root, top) ==>
          Flat(m, root, top - done).Some?)
    && (done < 2 * BUFFER_PAGES + 1 && done <= top ==> Flat(m, root, top - done).Some? || free < 2 * (done + 1))
    && (done > 0 ==> left + Missing(m.at, root, top) <= free) && free <= left + 2 * (done + 1)
  }

  /** Opening a ring: its buffer is mapped twice in a row from page `top` down, and the counters below it.
      It fails at its first page exactly when that is mapped or its tables are more than the free frames;
      within the same table, later only at a page that is mapped. */
  method Open(memory: PhysicalMemory, root: nat, top: nat, frames: seq<nat>, book: nat) returns (ok: bool, done: nat)
    requires memory.Valid({}) && Top(root) in memory.at && 2 * BUFFER_PAGES <= top < PAGES
    requires |frames| == BUFFER_PAGES && AllShared(memory.use, frames + [book])
    modifies memory
    ensures memory.Valid({}) && Top(root) in memory.at && AllShared(memory.use, frames + [book])
    ensures ok <==> done == 2 * BUFFER_PAGES + 1
    ensures Opened(old(memory.View()), memory.View(), root, top, frames, book, done)
    ensures ok ==> Doubled(memory.View(), root, top, frames, book)
    ensures RoomBelow(old(memory.View()), root, top, done)
    ensures TablesAdded(old(memory.use), memory.use, root)
    ensures OpenOutcome(old(memory.View()), |old(memory.freelist)|, root, top, done, |memory.freelist|)
  {
    hide Sound, Flat, AllShared, Opened, Doubled, RoomBelow, TablesAdded, Missing, BottomOf;
    ghost var h, free := memory.View(), |memory.freelist|;
    OpenedNothing(h, root, top, frames, book);
    ok, done := true, 0;
    while done < 2 * BUFFER_PAGES + 1
      invariant ok && 0 <= done <= 2 * BUFFER_PAGES + 1
      invariant memory.Valid({}) && Top(root) in memory.at && AllShared(memory.use, frames + [book])
      invariant Opened(h, memory.View(), root, top, frames, book, done) && RoomBelow(h, root, top, done)
      invariant TablesAdded(h.use, memory.use, root) && free <= |memory.freelist| + 2 * done
      invariant done == 0 ==> memory.View() == h && memory.freelist == old(memory.freelist)
      invariant done > 0 ==> !(Flat(h, root, top).Some? || free < Missing(h.at, root, top))
      invariant done > 0 ==> |memory.freelist| + Missing(h.at, root, top) <= free
    {
      ghost var m := memory.View();
      if done > 0 {
        SameTableThere(h, m, root, top, frames, book, done);
      }
      ok := MapNext(memory, root, top, frames, book, done, h);
      if !ok {
        return;
      }
      done := done + 1;
    }
    OpenedDoubled(h, memory.View(), root, top, frames, book);
  }

  /** Offset `x` in the mapped buffer. */
  ghost function Place(m: Memory, root: nat, base: nat, x: nat): Option<(nat, nat)> {
    var leaf := Flat(m, root, base + x / PAGE);
    if leaf.Some? then Some((leaf.value.frame, x % PAGE)) else None
  }

  /** An offset and the offset a capacity further are the same byte; different offsets below the
      capacity are different bytes. */
  lemma SameByte(h: Memory, m: Memory, root: nat, top: nat, frames: seq<nat>, book: nat, x: nat, y: nat)
    requires |frames| == BUFFER_PAGES && Distinct(frames) && 2 * BUFFER_PAGES <= top < PAGES
    requires Opened(h, m, root, top, frames, book, 2 * BUFFER_PAGES + 1)
    requires x < CAPACITY && y < CAPACITY
    ensures var base := top + 1 - 2 * BUFFER_PAGES;
            && Place(m, root, base, x) == Place(m, root, base, x + CAPACITY) != None
            && (Place(m, root, base, x) == Place(m, root, base, y) ==> x == y)
  {
    hide Flat, Opened;
    assert (x + CAPACITY) / PAGE == x / PAGE + BUFFER_PAGES && (x + CAPACITY) % PAGE == x % PAGE;
    PageFrame(h, m, root, top, frames, book, x / PAGE);
    PageFrame(h, m, root, top, frames, book, x / PAGE + BUFFER_PAGES);
    PageFrame(h, m, root, top, frames, book, y / PAGE);
    FrameAgain(frames, x / PAGE);
    var base := top + 1 - 2 * BUFFER_PAGES;
    if Place(m, root, base, x) == Place(m, root, base, y) && x / PAGE != y / PAGE {
      FramesApart(frames, x / PAGE, y / PAGE);
    }
  }

  /** Page `j` of the double mapping, counted from its lowest. */
  function FrameOf(frames: seq<nat>, j: nat): nat
    requires |frames| == BUFFER_PAGES && j < 2 * BUFFER_PAGES
  {
    frames[(2 * BUFFER_PAGES - 1 - j) % BUFFER_PAGES]
  }

  lemma PageFrame(h: Memory, m: Memory, root: nat, top: nat, frames: seq<nat>, book: nat, j: nat)
    requires |frames| == BUFFER_PAGES && 2 * BUFFER_PAGES <= top < PAGES && j < 2 * BUFFER_PAGES
    requires Opened(h, m, root, top, frames, book, 2 * BUFFER_PAGES + 1)
    ensures Flat(m, root, top + 1 - 2 * BUFFER_PAGES + j) == Some(Leaf(FrameOf(frames, j), Permissions(true, true, false), true))
  {
    hide Flat;
  }

  lemma FrameAgain(frames: seq<nat>, j: nat)
    requires |frames| == BUFFER_PAGES && j < BUFFER_PAGES
    ensures FrameOf(frames, j) == FrameOf(frames, j + BUFFER_PAGES)
  {
  }

  lemma FramesApart(frames: seq<nat>, j: nat, k: nat)
    requires |frames| == BUFFER_PAGES && j < BUFFER_PAGES && k < BUFFER_PAGES && j != k && Distinct(frames)
    ensures FrameOf(frames, j) != FrameOf(frames, k)
  {
  }

  // ---------- closing ----------

  /** Pages mapped to shared frames belong to nobody: unmapping them moves no frame. */
  lemma SharedUnmapped(m: Memory, m': Memory, freelist: seq<nat>, pages: map<nat, Frame>, first: nat, stop: nat,
                       root: nat, v: nat, n: nat)
    requires Sound(m, {}, freelist, pages, first, stop) && v + n <= PAGES
    requires forall p: nat | v <= p < v + n :: Flat(m, root, p).Some? && IsShared(m.use, Flat(m, root, p).value.frame)
    requires UnmapUse(m.use, m'.use, root, v, n, Held)
    ensures m'.use == m.use
  {
    hide Linked, Sited, Listed, Backed, Flat, PageNumber, Index;
    forall f | f in m.use ensures !OwnPage(m.use[f], root, v, n) {
      if OwnPage(m.use[f], root, v, n) {
        var p := PageNumber(m.use[f].spot);
        assert OwnPage(m.use[f], root, p, 1);
        OwnedIsPage(m, root, p, f);
        FrameInUse(m, freelist, pages, first, stop, root, p);
      }
    }
  }

  /** The ring is mapped in the address space of `root`. */
  ghost predicate RingThere(m: Memory, root: nat, top: nat, frames: seq<nat>, book: nat)
    requires |frames| == BUFFER_PAGES
  {
    forall p: nat | top < p + (2 * BUFFER_PAGES + 1) && p <= top ::
      Flat(m, root, p) == Some(Leaf(RingFrame(frames, book, top - p), Permissions(true, true, false), true))
  }

  lemma RingShared(m: Memory, root: nat, top: nat, frames: seq<nat>, book: nat)
    requires |frames| == BUFFER_PAGES && RingThere(m, root, top, frames, book) && AllShared(m.use, frames + [book])
    ensures forall p: nat | top < p + (2 * BUFFER_PAGES + 1) && p <= top ::
              Flat(m, root, p).Some? && IsShared(m.use, Flat(m, root, p).value.frame)
  {
    hide Flat, RingFrame, AllShared;
    forall p: nat | top < p + (2 * BUFFER_PAGES + 1) && p <= top
      ensures Flat(m, root, p).Some? && IsShared(m.use, Flat(m, root, p).value.frame)
    {
      FrameOfRing(m.use, frames, book, top - p);
    }
  }

  /** Closing a ring: the buffer is unmapped, then the counters; no frame changes hands. */
  method Close(memory: PhysicalMemory, root: nat, top: nat, ghost frames: seq<nat>, ghost book: nat)
    requires memory.Valid({}) && Top(root) in memory.at && 2 * BUFFER_PAGES <= top < PAGES
    requires |frames| == BUFFER_PAGES && AllShared(memory.use, frames + [book])
    requires RingThere(memory.View(), root, top, frames, book)
    modifies memory
    ensures memory.Valid({}) && Top(root) in memory.at && memory.use == old(memory.use)
    ensures UnmapsRange(old(memory.View()), memory.View(), root, top - 2 * BUFFER_PAGES, 2 * BUFFER_PAGES + 1)
  {
    hide Sound, Flat, AllShared, RingThere, PageOf, UnmapUse, UnmapsRange, PagesKeptBut, RingFrame;
    ghost var h, free0, pages0 := memory.View(), memory.freelist, memory.pages;
    RingShared(h, root, top, frames, book);
    var address := (top + 1 - 2 * BUFFER_PAGES) * PAGE;
    assert address / PAGE == top + 1 - 2 * BUFFER_PAGES;
    memory.Unmap(root, address, 2 * BUFFER_PAGES, false);
    ghost var m, free1, pages1 := memory.View(), memory.freelist, memory.pages;
    SharedUnmapped(h, m, free0, pages0, memory.first, memory.stop, root, address / PAGE, 2 * BUFFER_PAGES);
    var bookAddress := address - PAGE;
    assert bookAddress / PAGE == top - 2 * BUFFER_PAGES;
    BookStays(h, m, root, top);
    memory.Unmap(root, bookAddress, 1, false);
    SharedUnmapped(m, memory.View(), free1, pages1, memory.first, memory.stop, root, bookAddress / PAGE, 1);
    BothUnmapped(h, m, memory.View(), root, top);
  }

  lemma BookStays(h: Memory, m: Memory, root: nat, top: nat)
    requires 2 * BUFFER_PAGES <= top < PAGES
    requires UnmapsRange(h, m, root, top + 1 - 2 * BUFFER_PAGES, 2 * BUFFER_PAGES)
    ensures Flat(m, root, top - 2 * BUFFER_PAGES) == Flat(h, root, top - 2 * BUFFER_PAGES)
  {
    hide Flat;
  }

  lemma BothUnmapped(h: Memory, m: Memory, m': Memory, root: nat, top: nat)
    requires 2 * BUFFER_PAGES <= top < PAGES
    requires UnmapsRange(h, m, root, top + 1 - 2 * BUFFER_PAGES, 2 * BUFFER_PAGES)
    requires UnmapsRange(m, m', root, top - 2 * BUFFER_PAGES, 1)
    ensures UnmapsRange(h, m', root, top - 2 * BUFFER_PAGES, 2 * BUFFER_PAGES + 1)
  {
    hide Flat;
  }

  // ---------- an open that fails ----------

  /** Pages of a ring whose mapping stopped after `done` of them can go back to the list safely just when it
      stopped at the first and they could have gone back before: when no other process has the ring. */
  lemma CanUndo(h: Memory, m: Memory, root: nat, top: nat, frames: seq<nat>, book: nat, done: nat, first: nat, stop: nat)
    requires |frames| == BUFFER_PAGES && done <= 2 * BUFFER_PAGES + 1 && top < PAGES
    requires AllShared(h.use, frames + [book]) && AllShared(m.use, frames + [book])
    requires RoomBelow(h, root, top, done) && Opened(h, m, root, top, frames, book, done)
    ensures Releasable(m, frames + [book], first, stop) <==> done == 0 && Releasable(h, frames + [book], first, stop)
  {
    hide Flat;
    if done > 0 {
      assert Flat(m, root, top) == Some(Leaf(RingFrame(frames, book, 0), READ_WRITE, true));
      assert frames[0] in frames + [book];
    }
  }

  /** While a process has the ring, its pages cannot go back. */
  lemma RingHeld(m: Memory, other: nat, top: nat, frames: seq<nat>, book: nat, first: nat, stop: nat)
    requires |frames| == BUFFER_PAGES && top < PAGES && RingThere(m, other, top, frames, book)
    ensures !Releasable(m, frames + [book], first, stop)
  {
    hide Flat;
    assert Flat(m, other, top) == Some(Leaf(RingFrame(frames, book, 0), READ_WRITE, true));
    assert frames[0] in frames + [book];
  }

  /** Two pages in different bottom tables need three tables. */
  lemma ThreeTables(h: Memory, m: Memory, freelist: seq<nat>, pages: map<nat, Frame>, first: nat, stop: nat, root: nat, p: nat, q: nat)
    requires Sound(h, {}, freelist, pages, first, stop) && Linked(m, {}) && Sited(m) && TablesAdded(h.use, m.use, root)
    requires forall s | s in h.at && s.root == root :: s.Top?
    requires Flat(m, root, p).Some? && Flat(m, root, q).Some? && BottomOf(root, p) != BottomOf(root, q)
    ensures |freelist| >= 3
  {
    hide Linked, Sited, Index, Backed;
    ParentAbove(m, {}, BottomOf(root, p));
    var f, g, t := m.at[BottomOf(root, p)], m.at[BottomOf(root, q)], m.at[Middle(root, Index(p, 2))];
    TableFromList(h, m, freelist, pages, first, stop, root, BottomOf(root, p));
    TableFromList(h, m, freelist, pages, first, stop, root, BottomOf(root, q));
    TableFromList(h, m, freelist, pages, first, stop, root, Middle(root, Index(p, 2)));
    assert f != g && g != t && f != t;
  }

  lemma TableFromList(h: Memory, m: Memory, freelist: seq<nat>, pages: map<nat, Frame>, first: nat, stop: nat, root: nat, s: Spot)
    requires Sound(h, {}, freelist, pages, first, stop) && Sited(m) && TablesAdded(h.use, m.use, root)
    requires forall s' | s' in h.at && s'.root == root :: s'.Top?
    requires s in m.at && s.root == root && !s.Top?
    ensures m.at[s] in m.use && m.use[m.at[s]] == At(s) && m.at[s] in freelist
  {
    hide Linked, Sited, Backed;
    Site(m, s);
    var f := m.at[s];
    if h.use[f] == At(s) {
      SiteThere(h, f);
    }
  }

  /** A run in which an open fails part-way: twenty pages, and a ring across two bottom tables. */
  method HalfOpened() returns (memory: PhysicalMemory, root: nat, frames: seq<nat>, book: nat, done: nat)
    ensures memory.Valid({}) && |frames| == BUFFER_PAGES && 0 < done < 2 * BUFFER_PAGES + 1
    ensures AllShared(memory.use, frames + [book]) && !Releasable(memory.View(), frames + [book], memory.first, memory.stop)
  {
    hide Sound, Linked, Sited, Flat, SameFlat, OthersSame, Opened, RoomBelow, TablesAdded, Allocatable, Split,
         AllShared, Releasable, Filled, NewSpace, PagesKept, EmptyBook;
    AlignedSize(1);
    memory := new PhysicalMemory(PAGE, 21 * PAGE, ZeroRam(21), {});
    ghost var h, free0, pages0 := memory.View(), memory.freelist, memory.pages;
    var created := memory.CreateRoot();
    root := created.value;
    ghost var m0, free1, pages1 := memory.View(), memory.freelist, memory.pages;
    var active := Activate(memory);
    ghost var m1, free2, pages2 := memory.View(), memory.freelist, memory.pages;
    frames, book := active.value.0, active.value.1;
    SplitShared(m0.use, m1.use, frames + [book]);
    CanRelease(m0, m1, free1, pages1, memory.first, memory.stop, frames + [book]);
    FreshRoot(h, m0, m1, root, 515);
    var ok;
    ok, done := Open(memory, root, 515, frames, book);
    ghost var m2 := memory.View();
    SoundLinked(m2, {}, memory.freelist, memory.pages, memory.first, memory.stop);
    if ok {
      AcrossTables(m1, m2, root, frames, book);
      ThreeTables(m1, m2, free2, pages2, memory.first, memory.stop, root, 515, 511);
    }
    CanUndo(m1, m2, root, 515, frames, book, done, memory.first, memory.stop);
  }

  lemma FreshRoot(h: Memory, m0: Memory, m1: Memory, root: nat, top: nat)
    requires NewSpace(h, m0, root) && OthersSame(m0, m1, None) && top < PAGES
    ensures Flat(m1, root, top) == None
  {
    hide Flat;
    SameFlatAt(h, m0, root, top);
  }

  lemma AcrossTables(h: Memory, m: Memory, root: nat, frames: seq<nat>, book: nat)
    requires |frames| == BUFFER_PAGES && Opened(h, m, root, 515, frames, book, 2 * BUFFER_PAGES + 1)
    ensures Flat(m, root, 515).Some? && Flat(m, root, 511).Some? && BottomOf(root, 515) != BottomOf(root, 511)
  {
    hide Flat, RingFrame;
  }

  // ---------- a whole life ----------

  /** Nothing changed hands but free frames that became tables. */
  ghost predicate TablesOnly(use: map<nat, Use>, use': map<nat, Use>) {
    use'.Keys == use.Keys && forall f | f in use :: use'[f] == use[f] || (use[f] == Free && IsTable(use'[f]))
  }

  lemma SplitShared(use: map<nat, Use>, use': map<nat, Use>, frames: seq<nat>)
    requires Split(use, use', frames, |frames|, Shared, Held)
    ensures AllShared(use', frames)
  {
    assert frames[..|frames|] == frames;
  }

  lemma TablesNothing(use: map<nat, Use>, root: nat)
    ensures TablesAdded(use, use, root)
  {
  }

  lemma RingsThere(m0: Memory, m1: Memory, m2: Memory, root: nat, top: nat, other: nat, otherTop: nat, frames: seq<nat>, book: nat)
    requires |frames| == BUFFER_PAGES && root != other && top < PAGES && otherTop < PAGES
    requires Opened(m0, m1, root, top, frames, book, 2 * BUFFER_PAGES + 1)
    requires Opened(m1, m2, other, otherTop, frames, book, 2 * BUFFER_PAGES + 1)
    ensures RingThere(m2, root, top, frames, book) && RingThere(m2, other, otherTop, frames, book)
  {
    hide Flat, RingFrame;
  }

  lemma RingStays(m2: Memory, m3: Memory, root: nat, top: nat, other: nat, otherTop: nat, frames: seq<nat>, book: nat)
    requires |frames| == BUFFER_PAGES && root != other && 2 * BUFFER_PAGES <= top && otherTop < PAGES
    requires RingThere(m2, other, otherTop, frames, book)
    requires UnmapsRange(m2, m3, root, top - 2 * BUFFER_PAGES, 2 * BUFFER_PAGES + 1)
    ensures RingThere(m3, other, otherTop, frames, book)
  {
    hide Flat, RingFrame;
  }

  /** Opened twice and closed twice, everything is mapped as it was. */
  lemma AllClosed(m0: Memory, m1: Memory, m2: Memory, m3: Memory, m4: Memory,
                  root: nat, top: nat, other: nat, otherTop: nat, frames: seq<nat>, book: nat)
    requires |frames| == BUFFER_PAGES && root != other && 2 * BUFFER_PAGES <= top && 2 * BUFFER_PAGES <= otherTop
    requires Opened(m0, m1, root, top, frames, book, 2 * BUFFER_PAGES + 1) && RoomBelow(m0, root, top, 2 * BUFFER_PAGES + 1)
    requires Opened(m1, m2, other, otherTop, frames, book, 2 * BUFFER_PAGES + 1)
    requires RoomBelow(m1, other, otherTop, 2 * BUFFER_PAGES + 1)
    requires UnmapsRange(m2, m3, root, top - 2 * BUFFER_PAGES, 2 * BUFFER_PAGES + 1)
    requires UnmapsRange(m3, m4, other, otherTop - 2 * BUFFER_PAGES, 2 * BUFFER_PAGES + 1)
    ensures OthersSame(m0, m4, None)
  {
    hide Flat, RingFrame;
  }

  lemma CanRelease(h: Memory, m: Memory, freelist: seq<nat>, pages: map<nat, Frame>, first: nat, stop: nat, frames: seq<nat>)
    requires Sound(h, {}, freelist, pages, first, stop) && Allocatable(h.use, frames, first, stop)
    requires OthersSame(h, m, None) && AllShared(m.use, frames)
    ensures Releasable(m, frames, first, stop)
  {
    hide Sound, Nowhere, OthersSame;
    forall f | f in frames ensures Nowhere(m, f) {
      UnusedFrame(h, freelist, pages, first, stop, f);
      NowhereStill(h, m, f);
    }
  }

  lemma OnlyTablesLeft(use0: map<nat, Use>, use1: map<nat, Use>, use2: map<nat, Use>, use3: map<nat, Use>, use4: map<nat, Use>,
                       root: nat, other: nat, frames: seq<nat>, first: nat, stop: nat)
    requires Split(use0, use1, frames, |frames|, Shared, Held) && Allocatable(use0, frames, first, stop)
    requires TablesAdded(use1, use2, root) && TablesAdded(use2, use3, other)
    requires Split(use3, use4, frames, |frames|, Free, Shared)
    ensures TablesOnly(use0, use4)
  {
    assert frames[..|frames|] == frames && frames[|frames|..] == [];
  }

  /** Opening keeps whatever other address space there is. */
  method OpenBeside(memory: PhysicalMemory, root: nat, top: nat, other: nat, frames: seq<nat>, book: nat)
    returns (ok: bool, done: nat)
    requires memory.Valid({}) && Top(root) in memory.at && Top(other) in memory.at && 2 * BUFFER_PAGES <= top < PAGES
    requires |frames| == BUFFER_PAGES && AllShared(memory.use, frames + [book])
    modifies memory
    ensures memory.Valid({}) && Top(root) in memory.at && Top(other) in memory.at
    ensures AllShared(memory.use, frames + [book])
    ensures ok <==> done == 2 * BUFFER_PAGES + 1
    ensures Opened(old(memory.View()), memory.View(), root, top, frames, book, done)
    ensures RoomBelow(old(memory.View()), root, top, done)
    ensures TablesAdded(old(memory.use), memory.use, root)
    ensures OpenOutcome(old(memory.View()), |old(memory.freelist)|, root, top, done, |memory.freelist|)
  {
    hide Sound, Linked, Sited, Flat, AllShared, Opened, RoomBelow, TablesAdded, OpenOutcome;
    ghost var m := memory.View();
    SoundLinked(m, {}, memory.freelist, memory.pages, memory.first, memory.stop);
    ok, done := Open(memory, root, top, frames, book);
    SoundLinked(memory.View(), {}, memory.freelist, memory.pages, memory.first, memory.stop);
    RootLeft(m, memory.View(), root, other);
  }

  /** Out of one address space, then the other. */
  method CloseBoth(memory: PhysicalMemory, root: nat, top: nat, other: nat, otherTop: nat, ghost frames: seq<nat>, ghost book: nat)
    returns (ghost m3: Memory, ghost m4: Memory)
    requires memory.Valid({}) && Top(root) in memory.at && Top(other) in memory.at && root != other
    requires 2 * BUFFER_PAGES <= top < PAGES && 2 * BUFFER_PAGES <= otherTop < PAGES
    requires |frames| == BUFFER_PAGES && AllShared(memory.use, frames + [book])
    requires RingThere(memory.View(), root, top, frames, book) && RingThere(memory.View(), other, otherTop, frames, book)
    modifies memory
    ensures memory.Valid({}) && memory.use == old(memory.use) && m4 == memory.View()
    ensures UnmapsRange(old(memory.View()), m3, root, top - 2 * BUFFER_PAGES, 2 * BUFFER_PAGES + 1)
    ensures UnmapsRange(m3, m4, other, otherTop - 2 * BUFFER_PAGES, 2 * BUFFER_PAGES + 1)
  {
    hide Sound, Linked, Sited, Flat, AllShared, RingThere, UnmapsRange, TablesAdded;
    ghost var m2 := memory.View();
    SoundLinked(m2, {}, memory.freelist, memory.pages, memory.first, memory.stop);
    Close(memory, root, top, frames, book);
    m3 := memory.View();
    SoundLinked(m3, {}, memory.freelist, memory.pages, memory.first, memory.stop);
    TablesNothing(m2.use, root);
    RootLeft(m2, m3, root, other);
    RingStays(m2, m3, root, top, other, otherTop, frames, book);
    Close(memory, other, otherTop, frames, book);
    m4 := memory.View();
  }

  datatype RingResult = NoPages | Undone | Dangling | Closed

  /** One process opens a new ring, another opens it too; both close it, and its pages go back. Nothing is
      left of it but tables in the two address spaces. When a mapping fails, the kernel gives the pages
      back at once: with nothing lost when it was the first process's first page, and otherwise although
      they are still mapped. There the model ends. */
  method RingLife(memory: PhysicalMemory, root: nat, top: nat, other: nat, otherTop: nat)
    returns (r: RingResult, ghost frames: seq<nat>, ghost book: nat)
    requires memory.Valid({}) && Top(root) in memory.at && Top(other) in memory.at && root != other
    requires 2 * BUFFER_PAGES <= top < PAGES && 2 * BUFFER_PAGES <= otherTop < PAGES
    modifies memory
    ensures memory.Valid({})
    ensures r.NoPages? <==> |old(memory.freelist)| <= BUFFER_PAGES
    ensures r.NoPages? ==> memory.use == old(memory.use)
    ensures r.Undone? <==>
              && |old(memory.freelist)| > BUFFER_PAGES
              && (Flat(old(memory.View()), root, top).Some?
                  || |old(memory.freelist)| - (BUFFER_PAGES + 1) < old(Missing(memory.at, root, top)))
    ensures !r.Dangling? ==> OthersSame(old(memory.View()), memory.View(), None)
    ensures r.Undone? || r.Closed? ==> TablesOnly(old(memory.use), memory.use)
    ensures r.Dangling? ==>
              && |frames| == BUFFER_PAGES && AllShared(memory.use, frames + [book])
              && !Releasable(memory.View(), frames + [book], memory.first, memory.stop)
  {
    hide Sound, Linked, Sited, Flat, OthersSame, Split, Allocatable, AllShared, Opened, RoomBelow, TablesAdded,
         RingThere, UnmapsRange, TablesOnly, Releasable, EmptyBook, Missing;
    ghost var h, free0, pages0 := memory.View(), memory.freelist, memory.pages;
    frames, book := [], 0;
    var active := Activate(memory);
    if active.None? {
      return NoPages, [], 0;
    }
    var (pages, last) := active.value;
    frames, book := pages, last;
    ghost var m0, fs := memory.View(), pages + [last];
    SplitShared(h.use, m0.use, fs);
    CanRelease(h, m0, free0, pages0, memory.first, memory.stop, fs);
    SameAt(h, m0, root, top);
    var ok, done := OpenBeside(memory, root, top, other, pages, last);
    ghost var m1 := memory.View();
    CanUndo(m0, m1, root, top, pages, last, done, memory.first, memory.stop);
    if !ok {
      if done == 0 {
        UndoneSame(h, m0, m1, root, top, pages, last);
        Deactivate(memory, pages, last);
        OthersTwice(h, m1, memory.View(), None);
        TablesNothing(m1.use, other);
        OnlyTablesLeft(h.use, m0.use, m1.use, m1.use, memory.use, root, other, fs, memory.first, memory.stop);
        r := Undone;
      } else {
        r := Dangling;
      }
      return;
    }
    ok, done := OpenBeside(memory, other, otherTop, root, pages, last);
    ghost var m2 := memory.View();
    if !ok {
      FirstStillThere(m0, m1, m2, root, top, other, otherTop, pages, last, done);
      RingHeld(m2, root, top, pages, last, memory.first, memory.stop);
      return Dangling, frames, book;
    }
    RingsThere(m0, m1, m2, root, top, other, otherTop, pages, last);
    ghost var m3, m4 := CloseBoth(memory, root, top, other, otherTop, pages, last);
    AllClosed(m0, m1, m2, m3, m4, root, top, other, otherTop, pages, last);
    OthersTwice(h, m0, m4, None);
    CanRelease(h, m4, free0, pages0, memory.first, memory.stop, fs);
    Deactivate(memory, pages, last);
    OthersTwice(h, m4, memory.View(), None);
    OnlyTablesLeft(h.use, m0.use, m1.use, m4.use, memory.use, root, other, fs, memory.first, memory.stop);
    r := Closed;
  }

  lemma SameAt(h: Memory, m: Memory, root: nat, top: nat)
    requires OthersSame(h, m, None) && top < PAGES
    ensures Flat(m, root, top) == Flat(h, root, top)
  {
    hide Flat;
  }

  lemma UndoneSame(h: Memory, m0: Memory, m1: Memory, root: nat, top: nat, frames: seq<nat>, book: nat)
    requires |frames| == BUFFER_PAGES && OthersSame(h, m0, None) && Opened(m0, m1, root, top, frames, book, 0)
    ensures OthersSame(h, m1, None)
  {
    hide Flat, RingFrame;
  }

  /** However far the second open came, the first process has the ring. */
  lemma FirstStillThere(m0: Memory, m1: Memory, m2: Memory, root: nat, top: nat, other: nat, otherTop: nat,
                        frames: seq<nat>, book: nat, done: nat)
    requires |frames| == BUFFER_PAGES && root != other && top < PAGES
    requires Opened(m0, m1, root, top, frames, book, 2 * BUFFER_PAGES + 1)
    requires Opened(m1, m2, other, otherTop, frames, book, done)
    ensures RingThere(m2, root, top, frames, book)
  {
    hide Flat, RingFrame;
  }

  // ---------- two processes, and a second open that fails ----------

  /** With root tables alone nothing is mapped. */
  lemma OnlyTops(m: Memory, root: nat, v: nat)
    requires forall s | s in m.at :: s.Top?
    ensures Flat(m, root, v) == None && Missing(m.at, root, v) == 2
  {
  }

  lemma SameBottom(root: nat, top: nat, d: nat)
    requires d <= top % ENTRIES
    ensures BottomOf(root, top - d) == BottomOf(root, top)
  {
    assert (top - d) / ENTRIES == top / ENTRIES;
    assert (top - d) / (ENTRIES * ENTRIES) == (top - d) / ENTRIES / ENTRIES && top / (ENTRIES * ENTRIES) == top / ENTRIES / ENTRIES;
  }

  /** Where one table has room for all of it, a ring is opened when its first page can be mapped. */
  lemma WholeRing(m: Memory, free: nat, root: nat, top: nat, done: nat, left: nat)
    requires OpenOutcome(m, free, root, top, done, left) && top % ENTRIES >= 2 * BUFFER_PAGES
    requires free >= Missing(m.at, root, top) && forall p: nat | p <= top && top <= p + 2 * BUFFER_PAGES :: Flat(m, root, p) == None
    ensures done == 2 * BUFFER_PAGES + 1 && left + Missing(m.at, root, top) <= free
  {
    hide Flat, BottomOf, Missing;
    if done <= 2 * BUFFER_PAGES {
      SameBottom(root, top, done);
    }
  }

  /** Tables of one address space are none of another's. */
  lemma TablesElsewhere(h: Memory, m: Memory, root: nat, other: nat, v: nat)
    requires Sited(h) && Sited(m) && TablesAdded(h.use, m.use, root) && root != other
    requires forall s | s in h.at :: s.Top?
    ensures Missing(m.at, other, v) == 2
  {
    hide Sited, Index;
    forall s | s in m.at && s.root == other ensures s in h.at {
      Site(m, s);
      SiteThere(h, m.at[s]);
    }
  }

  /** Two address spaces and a ring nobody has opened, with two free pages left. */
  method TwoSpaces() returns (memory: PhysicalMemory, root: nat, other: nat, frames: seq<nat>, book: nat)
    ensures memory.Valid({}) && fresh(memory) && |memory.freelist| == 2
    ensures root != other && Top(root) in memory.at && Top(other) in memory.at && forall s | s in memory.at :: s.Top?
    ensures |frames| == BUFFER_PAGES && AllShared(memory.use, frames + [book])
  {
    hide Sound, Linked, Sited, Flat, SameFlat, OthersSame, Allocatable, Split, AllShared, Filled, NewSpace,
         PagesKept, EmptyBook;
    AlignedSize(1);
    memory := new PhysicalMemory(PAGE, 22 * PAGE, ZeroRam(22), {});
    ghost var h := memory.View();
    var created := memory.CreateRoot();
    root := created.value;
    ghost var m := memory.View();
    created := memory.CreateRoot();
    other := created.value;
    ghost var m0 := memory.View();
    RootsDiffer(h, m, m0, root, other);
    var active := Activate(memory);
    frames, book := active.value.0, active.value.1;
    SplitShared(m0.use, memory.use, frames + [book]);
  }

  /** A run in which the second process to open a ring fails at its first page: two free pages are just
      enough for the first. The pages the kernel then frees are mapped by the first process. */
  method SecondOpenFails() returns (memory: PhysicalMemory, root: nat, other: nat, frames: seq<nat>, book: nat, done: nat)
    ensures memory.Valid({}) && |frames| == BUFFER_PAGES && done == 0 && RingThere(memory.View(), root, 100, frames, book)
    ensures AllShared(memory.use, frames + [book]) && !Releasable(memory.View(), frames + [book], memory.first, memory.stop)
  {
    hide Sound, Linked, Sited, Flat, Opened, RoomBelow, TablesAdded, AllShared, Releasable, RingThere, Missing,
         OpenOutcome, Index;
    memory, root, other, frames, book := TwoSpaces();
    ghost var m1, free1 := memory.View(), |memory.freelist|;
    SoundLinked(m1, {}, memory.freelist, memory.pages, memory.first, memory.stop);
    forall p: nat ensures Flat(m1, root, p) == None && Missing(m1.at, root, p) == 2 {
      OnlyTops(m1, root, p);
    }
    var ok;
    ok, done := OpenBeside(memory, root, 100, other, frames, book);
    ghost var m2, free2 := memory.View(), |memory.freelist|;
    SoundLinked(m2, {}, memory.freelist, memory.pages, memory.first, memory.stop);
    WholeRing(m1, free1, root, 100, done, free2);
    TablesElsewhere(m1, m2, root, other, 100);
    ok, done := OpenBeside(memory, other, 100, root, frames, book);
    FailsAtFirst(m2, free2, other, 100, done, |memory.freelist|);
    FirstStillThere(m1, m2, memory.View(), root, 100, other, 100, frames, book, done);
    RingHeld(memory.View(), root, 100, frames, book, memory.first, memory.stop);
  }

  lemma RootsDiffer(h: Memory, m: Memory, m': Memory, root: nat, other: nat)
    requires NewSpace(h, m, root) && NewSpace(m, m', other)
    ensures root != other
  {
    hide Flat;
  }

  lemma FailsAtFirst(m: Memory, free: nat, root: nat, top: nat, done: nat, left: nat)
    requires OpenOutcome(m, free, root, top, done, left) && free < Missing(m.at, root, top)
    ensures done == 0
  {
  }

  // ---------- a ring of a process ----------

  /** Taking a ring's pages changes no process. */
  lemma ProcessBesideRing(h: Memory, m: Memory, root: nat, n: nat, trap: nat, trampoline: nat, frames: seq<nat>, first: nat, stop: nat)
    requires Process(h, root, n, trap, trampoline) && m.at == h.at && OthersSame(h, m, None)
    requires Allocatable(h.use, frames, first, stop) && Split(h.use, m.use, frames, |frames|, Shared, Held)
    ensures Process(m, root, n, trap, trampoline) && trap !in frames
    ensures Alone(h, root, n) ==> Alone(m, root, n)
  {
    hide Flat, PageOf;
    assert frames[..|frames|] == frames && frames[|frames|..] == [];
  }

  /** A process that opens a ring is a process, with something mapped above its size. */
  lemma ProcessOpened(h: Memory, m: Memory, root: nat, n: nat, trap: nat, trampoline: nat,
                      top: nat, frames: seq<nat>, book: nat, done: nat)
    requires Sited(h) && Sited(m) && Process(h, root, n, trap, trampoline) && trap !in frames + [book] && |frames| == BUFFER_PAGES
    requires Opened(h, m, root, top, frames, book, done) && RoomBelow(h, root, top, done) && TablesAdded(h.use, m.use, root)
    requires top < PAGES - 2
    ensures Process(m, root, n, trap, trampoline) && (done > 0 ==> !Alone(m, root, n))
  {
    hide Sited, Flat, PageOf, TablesAdded;
    TablesTake(h.use, m.use, root);
    RootKept(h, m, root, root);
    forall p: nat | p < n ensures PageOf(root, p) in m.at {
      PageStays(h, m, root, root, p);
    }
    forall p: nat | n <= p < PAGES ensures PageOf(root, p) !in m.at {
      NoPageAdded(h, m, root, 0, 0, p);
    }
    forall j: nat ensures RingFrame(frames, book, j) in frames + [book] {
    }
    if done > 0 {
      assert Flat(h, root, top) == None && Flat(m, root, top).Some?;
    }
  }

  lemma TablesTake(use: map<nat, Use>, use': map<nat, Use>, root: nat)
    requires TablesAdded(use, use', root)
    ensures Taken(use, use', root) && GrownUse(use, use', root, 0, 0)
  {
  }

  /** A process opens a new ring; there are free pages enough for it. */
  method OpenNew(memory: PhysicalMemory, root: nat, top: nat, ghost trap: nat, ghost trampoline: nat)
    requires memory.Valid({}) && 2 * BUFFER_PAGES <= top < PAGES - 2
    requires Process(memory.View(), root, 0, trap, trampoline) && Alone(memory.View(), root, 0)
    requires |memory.freelist| >= BUFFER_PAGES + 1 + 2 * (2 * BUFFER_PAGES + 2)
    modifies memory
    ensures memory.Valid({}) && Process(memory.View(), root, 0, trap, trampoline) && !Alone(memory.View(), root, 0)
    ensures |memory.freelist| + BUFFER_PAGES + 1 + 2 * (2 * BUFFER_PAGES + 2) >= |old(memory.freelist)|
  {
    hide Sound, Linked, Sited, Flat, OthersSame, Opened, RoomBelow, TablesAdded, Allocatable, Split, AllShared,
         EmptyBook, OpenOutcome, Process, Alone;
    ghost var m0 := memory.View();
    var active := Activate(memory);
    var (frames, book) := active.value;
    ghost var m1, free1 := memory.View(), |memory.freelist|;
    SplitShared(m0.use, m1.use, frames + [book]);
    ProcessBesideRing(m0, m1, root, 0, trap, trampoline, frames + [book], memory.first, memory.stop);
    ProcessRoom(m1, root, trap, trampoline);
    SoundLinked(m1, {}, memory.freelist, memory.pages, memory.first, memory.stop);
    var ok, done := Open(memory, root, top, frames, book);
    SoundLinked(memory.View(), {}, memory.freelist, memory.pages, memory.first, memory.stop);
    OnlyFails(m1, free1, root, top, done, |memory.freelist|);
    FramesTaken(m1, free1, root, top, done, |memory.freelist|);
    ProcessOpened(m1, memory.View(), root, 0, trap, trampoline, top, frames, book, done);
  }

  /** A new process that has opened a ring. */
  method ProcessWithRing() returns (memory: PhysicalMemory, root: nat, trap: nat)
    ensures memory.Valid({}) && fresh(memory) && |memory.freelist| >= 100
    ensures Process(memory.View(), root, 0, trap, 0) && !Alone(memory.View(), root, 0)
  {
    hide Sound, Flat, OthersSame, PagesKept, Process, Alone, Started, BootUse, Descending, PagesFor, PageRoundUp;
    AlignedSize(1);
    memory := new PhysicalMemory(PAGE, 201 * PAGE, ZeroRam(201), {0});
    KernelShares(memory.use, {0}, memory.first, |memory.freelist|, 0);
    var made := AllocProcess(memory, 0);
    root, trap := made.value.0, made.value.1;
    OpenNew(memory, root, PAGES - 4, trap, 0);
  }

  /** A run that stops the kernel: a new process opens a ring and calls exec. */
  method OpenThenExec() returns (r: ExecResult)
    ensures r == LeafFound
  {
    hide Sound, Flat, OthersSame, Process, Alone, Exchanged, PagesFor, PageRoundUp;
    AlignedSize(0);
    var memory, root, trap := ProcessWithRing();
    TrampolineShared(memory.View(), memory.freelist, memory.pages, memory.first, memory.stop, root, trap, 0);
    LargestOfNone([]);
    r := Exec(memory, root, 0, trap, 0, [], true, true);
  }

  lemma KernelShares(use: map<nat, Use>, kernel: set<nat>, first: nat, n: nat, f: nat)
    requires BootUse(use, kernel, first, n) && f in kernel
    ensures IsShared(use, f)
  {
  }

  lemma ProcessRoom(m: Memory, root: nat, trap: nat, trampoline: nat)
    requires Process(m, root, 0, trap, trampoline) && Alone(m, root, 0)
    ensures Top(root) in m.at && forall p: nat | p < PAGES - 2 :: Flat(m, root, p) == None
  {
    hide Flat, PageOf;
  }

  lemma FramesTaken(m: Memory, free: nat, root: nat, top: nat, done: nat, left: nat)
    requires OpenOutcome(m, free, root, top, done, left)
    ensures free <= left + 2 * (done + 1)
  {
  }

  /** What is mapped as a process's trampoline and owned by no process is the kernel's. */
  lemma TrampolineShared(m: Memory, freelist: seq<nat>, pages: map<nat, Frame>, first: nat, stop: nat, root: nat, trap: nat, trampoline: nat)
    requires Sound(m, {}, freelist, pages, first, stop) && Process(m, root, 0, trap, trampoline)
    ensures IsShared(m.use, trampoline)
  {
    hide Linked, Sited, Listed, Backed, Index, Flat;
    MappedEntry(m, freelist, pages, first, stop, root, PAGES - 1);
    FlatEntry(m, root, PAGES - 1);
    TableEntry(m, {}, BottomOf(root, PAGES - 1), Index(PAGES - 1, 0));
  }

  /** The same with exit in place of exec: rings are given up first, and every frame is where it was. */
  method RingThenExit(memory: PhysicalMemory, trampoline: nat, top: nat) returns (r: RingResult)
    requires memory.Valid({}) && IsShared(memory.use, trampoline) && 2 * BUFFER_PAGES <= top < PAGES - 2
    modifies memory
    ensures memory.Valid({})
    ensures !r.Dangling? ==> memory.use == old(memory.use) && OthersSame(old(memory.View()), memory.View(), None)
    ensures |old(memory.freelist)| >= 6 + BUFFER_PAGES + 1 + 2 * (2 * BUFFER_PAGES + 1) ==> r.Closed?
  {
    hide Sound, Linked, Sited, Flat, OthersSame, Opened, RoomBelow, TablesAdded, Allocatable, Split, AllShared,
         PagesKept, EmptyBook, Missing, OpenOutcome, Process, Alone, Started, PagesFor, Gone, UnmapsRange, RingThere,
         Releasable, Taken, OnlyOwn, PagesKeptBut;
    ghost var h := memory.View();
    AlignedSize(0);
    var made := AllocProcess(memory, trampoline);
    if made.None? {
      return NoPages;
    }
    var (root, trap) := made.value;
    ghost var m0 := memory.View();
    r := OpenAndClose(memory, root, top, trap, trampoline);
    if r.Dangling? {
      return;
    }
    ghost var m1 := memory.View();
    var ok := FreeProcess(memory, root, 0, trap, trampoline);
    LifeLeavesNothing(h, m0, m1, memory.View(), root, trap);
  }

  /** A process opens a ring of its own and closes it, or cannot. */
  method OpenAndClose(memory: PhysicalMemory, root: nat, top: nat, ghost trap: nat, ghost trampoline: nat) returns (r: RingResult)
    requires memory.Valid({}) && 2 * BUFFER_PAGES <= top < PAGES - 2
    requires Process(memory.View(), root, 0, trap, trampoline) && Alone(memory.View(), root, 0)
    modifies memory
    ensures memory.Valid({})
    ensures !r.Dangling? ==>
              && Process(memory.View(), root, 0, trap, trampoline) && Alone(memory.View(), root, 0)
              && OnlyOwn(old(memory.use), memory.use, root) && OthersSame(old(memory.View()), memory.View(), Some(root))
    ensures |old(memory.freelist)| >= BUFFER_PAGES + 1 + 2 * (2 * BUFFER_PAGES + 1) ==> r.Closed?
  {
    hide Sound, Linked, Sited, Flat, OthersSame, Opened, RoomBelow, TablesAdded, Allocatable, Split, AllShared,
         EmptyBook, Missing, OpenOutcome, Process, Alone, UnmapsRange, RingThere, Releasable, Taken, OnlyOwn;
    ghost var m0, free0, pages0 := memory.View(), memory.freelist, memory.pages;
    ProcessRoom(m0, root, trap, trampoline);
    SoundLinked(m0, {}, free0, pages0, memory.first, memory.stop);
    var active := Activate(memory);
    ghost var m1, free1 := memory.View(), |memory.freelist|;
    SoundLinked(m1, {}, memory.freelist, memory.pages, memory.first, memory.stop);
    TablesNothing(m0.use, root);
    if active.None? {
      ProcessStays(m0, m1, memory.pages, root, trap, trampoline);
      return NoPages;
    }
    var (frames, book) := active.value;
    ghost var fs := frames + [book];
    SplitShared(m0.use, m1.use, fs);
    ProcessBesideRing(m0, m1, root, 0, trap, trampoline, fs, memory.first, memory.stop);
    ProcessRoom(m1, root, trap, trampoline);
    CanRelease(m0, m1, free0, pages0, memory.first, memory.stop, fs);
    var ok, done := Open(memory, root, top, frames, book);
    ghost var m2 := memory.View();
    OnlyFails(m1, free1, root, top, done, |memory.freelist|);
    CanUndo(m1, m2, root, top, frames, book, done, memory.first, memory.stop);
    ghost var m3 := m2;
    if ok {
      ThereNow(m1, m2, root, top, frames, book);
      Close(memory, root, top, frames, book);
      m3 := memory.View();
      ClosedAgain(m1, m2, m3, root, top, frames, book);
      OthersTwice(m0, m1, m3, None);
      CanRelease(m0, m3, free0, pages0, memory.first, memory.stop, fs);
    } else if done == 0 {
      UndoneSame(m0, m1, m3, root, top, frames, book);
    } else {
      return Dangling;
    }
    Deactivate(memory, frames, book);
    OthersTwice(m0, m3, memory.View(), None);
    TablesBack(m0.use, m1.use, m2.use, memory.use, root, fs, memory.first, memory.stop);
    SoundLinked(memory.View(), {}, memory.freelist, memory.pages, memory.first, memory.stop);
    ProcessStays(m0, memory.View(), memory.pages, root, trap, trampoline);
    r := if ok then Closed else Undone;
  }

  lemma OnlyFails(m: Memory, free: nat, root: nat, top: nat, done: nat, left: nat)
    requires OpenOutcome(m, free, root, top, done, left) && forall p: nat | p < PAGES - 2 :: Flat(m, root, p) == None
    requires 2 * BUFFER_PAGES <= top < PAGES - 2
    ensures done <= 2 * BUFFER_PAGES + 1 && (done < 2 * BUFFER_PAGES + 1 ==> free < 2 * (done + 1))
  {
    hide Flat;
  }

  lemma ThereNow(h: Memory, m: Memory, root: nat, top: nat, frames: seq<nat>, book: nat)
    requires |frames| == BUFFER_PAGES && top < PAGES && Opened(h, m, root, top, frames, book, 2 * BUFFER_PAGES + 1)
    ensures RingThere(m, root, top, frames, book)
  {
    hide Flat, RingFrame;
  }

  lemma ClosedAgain(m1: Memory, m2: Memory, m3: Memory, root: nat, top: nat, frames: seq<nat>, book: nat)
    requires |frames| == BUFFER_PAGES && 2 * BUFFER_PAGES <= top
    requires Opened(m1, m2, root, top, frames, book, 2 * BUFFER_PAGES + 1) && RoomBelow(m1, root, top, 2 * BUFFER_PAGES + 1)
    requires UnmapsRange(m2, m3, root, top - 2 * BUFFER_PAGES, 2 * BUFFER_PAGES + 1)
    ensures OthersSame(m1, m3, None)
  {
    hide Flat, RingFrame;
  }

  lemma TablesBack(use0: map<nat, Use>, use1: map<nat, Use>, use2: map<nat, Use>, use3: map<nat, Use>,
                   root: nat, frames: seq<nat>, first: nat, stop: nat)
    requires Split(use0, use1, frames, |frames|, Shared, Held) && Allocatable(use0, frames, first, stop)
    requires TablesAdded(use1, use2, root) && Split(use2, use3, frames, |frames|, Free, Shared)
    ensures TablesAdded(use0, use3, root)
  {
    assert frames[..|frames|] == frames && frames[|frames|..] == [];
  }

  /** Mapped as before, with no more than tables added, a process is a process. */
  lemma ProcessStays(h: Memory, m: Memory, pages: map<nat, Frame>, root: nat, trap: nat, trampoline: nat)
    requires Sited(h) && Sited(m) && Process(h, root, 0, trap, trampoline) && Alone(h, root, 0)
    requires OthersSame(h, m, None) && TablesAdded(h.use, m.use, root)
    ensures Process(m, root, 0, trap, trampoline) && Alone(m, root, 0)
    ensures OnlyOwn(h.use, m.use, root) && OthersSame(h, m, Some(root))
  {
    hide Sited, Flat, Process, Alone, OnlyOwn, Taken, Grown;
    SamePagesToo(h, m);
    SameIsGrown(h, m, pages, root, 0, Zeroed(DATA));
    ProcessGrown(h, m, pages, root, 0, 0, Zeroed(DATA), trap, trampoline);
    TakenIsOwn(h.use, m.use, root);
  }

  lemma SamePagesToo(h: Memory, m: Memory)
    requires OthersSame(h, m, None)
    ensures SamePages(h, m)
  {
    hide Flat;
  }
}
