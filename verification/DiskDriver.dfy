/** The disk driver and its device. Each driver method is what a process or the interrupt handler does
    between taking and giving up the driver's lock; the device may take steps at any point of it. */
module DiskDrivers {
  import opened Wrappers
  import opened Blocks
  import opened DiskQueue

  /** The device's index into the available ring, the chains it has taken and not worked on, and those
      it has worked on and not put on the used ring. */
  datatype Device = Device(idx: nat, working: set<nat>, processed: set<nat>)

  /** What the model knows beside the memory: the requests in flight, the chain each descriptor is in,
      the descriptors allocated but in no chain yet, the heads on the available ring the device has not
      taken and those on the used ring the driver has not handled, and how many requests were taken and
      handled ever. */
  datatype Notes = Notes(
    reqs: Requests, owner: map<nat, nat>, reserved: set<nat>, queue: seq<nat>, done: seq<nat>, taken: nat, handled: nat)

  /** All there is at one moment: the driver's fields, the memory it shares with the device, the
      buffers and the disk, the device's own state, and the model's notes. */
  datatype State = State(
    free: seq<bool>, info: seq<Info>, operations: seq<Operation>, seen: nat,
    descriptors: seq<Descriptor>, availableRing: seq<nat>, availableIdx: nat, usedRing: seq<nat>, usedIdx: nat,
    owned: set<nat>, data: map<nat, Block>, blocks: map<nat, Block>,
    device: Device,
    notes: Notes)

  ghost predicate Good(s: State) {
    && Partitioned(s.free, s.notes.reqs, s.notes.owner, s.notes.reserved)
    && Chained(s.descriptors, s.operations, s.info, s.notes.reqs)
    && Placed(s.notes.reqs, s.notes.queue, s.device.working, s.device.processed, s.notes.done) && Unshared(s.notes.reqs)
    && Transferred(s.notes.reqs, s.info, s.owned, s.data, s.blocks)
    && Ring(s.availableRing, s.device.idx, s.availableIdx, s.notes.taken, s.notes.queue)
    && Ring(s.usedRing, s.seen, s.usedIdx, s.notes.handled, s.notes.done)
  }

  ghost predicate UsesBuffer(reqs: Requests, b: nat) {
    exists h :: h in reqs && reqs[h].buffer == b
  }

  ghost predicate UsesBlock(reqs: Requests, k: nat) {
    exists h :: h in reqs && reqs[h].block == k
  }

  /** The device has touched nothing but what the requests in flight are about. */
  ghost predicate Kept(s: State, s': State) {
    && s'.notes.owner == s.notes.owner && s'.notes.reserved == s.notes.reserved
    && |s'.info| == |s.info| && s'.data.Keys == s.data.Keys && s'.blocks.Keys == s.blocks.Keys
    && (forall i | 0 <= i < |s.info| :: s'.info[i].buffer == s.info[i].buffer && (i !in s.notes.reqs ==> s'.info[i] == s.info[i]))
    && (forall b | b in s.data && !UsesBuffer(s.notes.reqs, b) :: s'.data[b] == s.data[b])
    && (forall k | k in s.blocks && !UsesBlock(s.notes.reqs, k) :: s'.blocks[k] == s.blocks[k])
  }

  ghost predicate Ran(s: State, s': State) {
    Onward(s.notes.reqs, s'.notes.reqs) && Kept(s, s') && s'.notes.handled == s.notes.handled
  }

  /** Buffers and blocks no request is about are as they were, apart from `b` and `k`. */
  ghost predicate KeptApart(s: State, s': State, b: nat, k: nat) {
    && s'.data.Keys == s.data.Keys && s'.blocks.Keys == s.blocks.Keys
    && (forall x | x in s.data && x != b && !UsesBuffer(s.notes.reqs, x) :: s'.data[x] == s.data[x])
    && (forall y | y in s.blocks && y != k && !UsesBlock(s.notes.reqs, y) :: s'.blocks[y] == s.blocks[y])
  }

  lemma KeptIsApart(s: State, s': State, b: nat, k: nat)
    requires Kept(s, s')
    ensures KeptApart(s, s', b, k)
  {
    hide UsesBuffer, UsesBlock;
  }

  lemma KeptForward(s: State, s1: State, s2: State)
    requires Kept(s, s1) && Forward(s.notes.reqs, s1.notes.reqs) && Kept(s1, s2)
    ensures Kept(s, s2)
  {
    hide UsesBuffer, UsesBlock;
    forall x: nat ensures UsesBuffer(s1.notes.reqs, x) ==> UsesBuffer(s.notes.reqs, x)
      ensures UsesBlock(s1.notes.reqs, x) ==> UsesBlock(s.notes.reqs, x)
    {
      UsesForward(s.notes.reqs, s1.notes.reqs, x);
    }
  }

  lemma UsesForward(reqs: Requests, reqs': Requests, x: nat)
    requires Forward(reqs, reqs')
    ensures UsesBuffer(reqs', x) ==> UsesBuffer(reqs, x)
    ensures UsesBlock(reqs', x) ==> UsesBlock(reqs, x)
  {
  }

  /** Publishing a request for `b` and `k`, with the device running before and after. */
  lemma PublishedApart(s: State, s1: State, s2: State, h: nat, r: Request)
    requires Ran(s, s1) && Ran(PublishedAs(s1, h, r), s2) && h !in s1.notes.reqs
    ensures KeptApart(s, s2, r.buffer, r.block)
  {
    hide UsesBuffer, UsesBlock;
    forall x: nat
      ensures UsesBuffer(s1.notes.reqs[h := r], x) ==> UsesBuffer(s.notes.reqs, x) || x == r.buffer
      ensures UsesBlock(s1.notes.reqs[h := r], x) ==> UsesBlock(s.notes.reqs, x) || x == r.block
    {
      UsesMore(s1.notes.reqs, h, r, x);
      UsesSame(s.notes.reqs, s1.notes.reqs, x);
    }
  }

  lemma UsesMore(reqs: Requests, h: nat, r: Request, x: nat)
    requires h !in reqs
    ensures UsesBuffer(reqs[h := r], x) ==> UsesBuffer(reqs, x) || x == r.buffer
    ensures UsesBlock(reqs[h := r], x) ==> UsesBlock(reqs, x) || x == r.block
  {
  }

  lemma ApartTwice(s: State, s1: State, s2: State, b: nat, k: nat)
    requires Kept(s, s1) && Onward(s.notes.reqs, s1.notes.reqs) && KeptApart(s1, s2, b, k)
    ensures KeptApart(s, s2, b, k)
  {
    hide UsesBuffer, UsesBlock;
    forall x: nat ensures UsesBuffer(s1.notes.reqs, x) ==> UsesBuffer(s.notes.reqs, x)
      ensures UsesBlock(s1.notes.reqs, x) ==> UsesBlock(s.notes.reqs, x)
    {
      UsesSame(s.notes.reqs, s1.notes.reqs, x);
    }
  }

  lemma RanNothing(s: State)
    ensures Ran(s, s)
  {
    hide UsesBuffer, UsesBlock;
    OnwardSame(s.notes.reqs);
  }

  lemma UsesSame(reqs: Requests, reqs': Requests, x: nat)
    requires Onward(reqs, reqs')
    ensures UsesBuffer(reqs', x) ==> UsesBuffer(reqs, x)
    ensures UsesBlock(reqs', x) ==> UsesBlock(reqs, x)
  {
  }

  lemma RanTwice(s: State, s1: State, s2: State)
    requires Ran(s, s1) && Ran(s1, s2)
    ensures Ran(s, s2)
  {
    hide UsesBuffer, UsesBlock, Onward;
    OnwardTwice(s.notes.reqs, s1.notes.reqs, s2.notes.reqs);
    OnwardKeys(s.notes.reqs, s1.notes.reqs);
    forall x: nat ensures UsesBuffer(s1.notes.reqs, x) ==> UsesBuffer(s.notes.reqs, x)
      ensures UsesBlock(s1.notes.reqs, x) ==> UsesBlock(s.notes.reqs, x)
    {
      UsesSame(s.notes.reqs, s1.notes.reqs, x);
    }
  }

  lemma RanNotes(s: State, s': State)
    requires Ran(s, s')
    ensures s'.notes.owner == s.notes.owner && s'.notes.reserved == s.notes.reserved && s'.notes.handled == s.notes.handled
    ensures s'.notes.reqs.Keys == s.notes.reqs.Keys && Onward(s.notes.reqs, s'.notes.reqs) && Kept(s, s')
  {
    hide UsesBuffer, UsesBlock;
  }

  lemma OnwardKeys(reqs: Requests, reqs': Requests)
    requires Onward(reqs, reqs')
    ensures reqs'.Keys == reqs.Keys
  {
  }

  // ---------- steps of the device ----------

  function Took(s: State): State
    requires s.notes.queue != [] && s.notes.queue[0] in s.notes.reqs
  {
    s.(device := s.device.(idx := (s.device.idx + 1) % INDEX_LIMIT, working := s.device.working + {s.notes.queue[0]}),
       notes := s.notes.(reqs := Advance(s.notes.reqs, s.notes.queue[0], Working), queue := s.notes.queue[1..],
                         taken := s.notes.taken + 1))
  }

  lemma SeesQueue(s: State)
    requires Good(s)
    ensures s.device.idx != s.availableIdx <==> s.notes.queue != []
    ensures s.notes.queue != [] ==> |s.availableRing| == QUEUE_SIZE && s.availableRing[Slot(s.device.idx)] == s.notes.queue[0]
  {
    hide Partitioned, Chained, Placed, Unshared, Transferred, Ring, Slot;
    ReaderSees(s.availableRing, s.device.idx, s.availableIdx, s.notes.taken, s.notes.queue);
  }

  lemma TookGood(s: State)
    requires Good(s) && s.notes.queue != []
    ensures s.notes.queue[0] in s.notes.reqs && Good(Took(s)) && Ran(s, Took(s))
  {
    hide Partitioned, Chained, Placed, Unshared, Transferred, Ring, Advance, Slot, Onward, UsesBuffer, UsesBlock;
    Taken(s.notes.reqs, s.notes.queue, s.device.working, s.device.processed, s.notes.done);
    ReaderSteps(s.availableRing, s.device.idx, s.availableIdx, s.notes.taken, s.notes.queue);
    Advanced(s.free, s.notes.owner, s.notes.reserved, s.descriptors, s.operations, s.info, s.notes.reqs, s.notes.queue[0], Working);
    PhaseTransferred(s.notes.reqs, s.info, s.owned, s.data, s.blocks, s.notes.queue[0], Working);
  }

  /** The transfer of request `h`, which may fail without moving anything. */
  function Moved(s: State, h: nat, well: bool): State
    requires h in s.notes.reqs && s.notes.reqs[h].buffer in s.data && s.notes.reqs[h].block in s.blocks && h < |s.info|
  {
    var r := s.notes.reqs[h];
    var s1 :=
      if !well then s
      else if r.write then s.(blocks := s.blocks[r.block := s.data[r.buffer]])
      else s.(data := s.data[r.buffer := s.blocks[r.block]]);
    s1.(info := s.info[h := s.info[h].(status := if well then Okay else Failed)],
        device := s.device.(working := s.device.working - {h}, processed := s.device.processed + {h}),
        notes := s.notes.(reqs := Advance(s.notes.reqs, h, Processed)))
  }

  lemma MovedKept(s: State, h: nat, well: bool)
    requires Moved.requires(s, h, well)
    ensures Kept(s, Moved(s, h, well))
  {
    assert UsesBuffer(s.notes.reqs, s.notes.reqs[h].buffer) && UsesBlock(s.notes.reqs, s.notes.reqs[h].block);
    hide UsesBuffer, UsesBlock;
  }

  lemma MovedGood(s: State, h: nat, well: bool)
    requires Good(s) && h in s.device.working
    ensures h in s.notes.reqs && Moved.requires(s, h, well)
    ensures Good(Moved(s, h, well)) && Ran(s, Moved(s, h, well))
  {
    hide Partitioned, Chained, Placed, Unshared, Transferred, Ring, Advance, Onward, Kept;
    WorkDone(s.notes.reqs, s.notes.queue, s.device.working, s.device.processed, s.notes.done, h);
    Present(s.notes.reqs, s.info, s.owned, s.data, s.blocks, h);
    MovedKept(s, h, well);
    Advanced(s.free, s.notes.owner, s.notes.reserved, s.descriptors, s.operations, s.info, s.notes.reqs, h, Processed);
    StatusChains(s.descriptors, s.operations, s.info, Advance(s.notes.reqs, h, Processed), h, if well then Okay else Failed);
    if well {
      Moves(s.notes.reqs, s.info, s.owned, s.data, s.blocks, h);
    } else {
      Fails(s.notes.reqs, s.info, s.owned, s.data, s.blocks, h);
    }
  }

  lemma Present(reqs: Requests, info: seq<Info>, owned: set<nat>, data: map<nat, Block>, disk: map<nat, Block>, h: nat)
    requires Transferred(reqs, info, owned, data, disk) && h in reqs
    ensures |info| == QUEUE_SIZE && h < QUEUE_SIZE && reqs[h].buffer in data && reqs[h].block in disk
  {
  }

  function PushedOn(s: State, h: nat): State
    requires h in s.notes.reqs && |s.usedRing| == QUEUE_SIZE
  {
    s.(usedRing := s.usedRing[Slot(s.usedIdx) := h], usedIdx := (s.usedIdx + 1) % INDEX_LIMIT,
       device := s.device.(processed := s.device.processed - {h}),
       notes := s.notes.(reqs := Advance(s.notes.reqs, h, Done), done := s.notes.done + [h]))
  }

  /** The used ring has a slot for every completion. */
  lemma Room(s: State, h: nat)
    requires Placed(s.notes.reqs, s.notes.queue, s.device.working, s.device.processed, s.notes.done)
    requires Partitioned(s.free, s.notes.reqs, s.notes.owner, s.notes.reserved) && h in s.device.processed
    ensures |s.notes.done| < QUEUE_SIZE
  {
    forall y | y in s.notes.done + [h] ensures y < QUEUE_SIZE {
      assert y in s.notes.reqs && y in s.notes.owner;
    }
    RoomForOne(s.notes.done, h, QUEUE_SIZE);
  }

  lemma PushedGood(s: State, h: nat)
    requires Good(s) && h in s.device.processed
    ensures h in s.notes.reqs && |s.usedRing| == QUEUE_SIZE
    ensures Good(PushedOn(s, h)) && Ran(s, PushedOn(s, h))
  {
    hide Partitioned, Chained, Placed, Unshared, Transferred, Ring, Advance, Slot, Onward, UsesBuffer, UsesBlock, Ran;
    Pushed(s.notes.reqs, s.notes.queue, s.device.working, s.device.processed, s.notes.done, h);
    Room(s, h);
    WriterFills(s.usedRing, s.seen, s.usedIdx, s.notes.handled, s.notes.done, h);
    WriterSteps(s.usedRing[Slot(s.usedIdx) := h], s.seen, s.usedIdx, s.notes.handled, s.notes.done, h);
    Advanced(s.free, s.notes.owner, s.notes.reserved, s.descriptors, s.operations, s.info, s.notes.reqs, h, Done);
    PhaseTransferred(s.notes.reqs, s.info, s.owned, s.data, s.blocks, h, Done);
    PushedRan(s, h);
  }

  lemma PushedRan(s: State, h: nat)
    requires PushedOn.requires(s, h) && Onward(s.notes.reqs, Advance(s.notes.reqs, h, Done))
    ensures Ran(s, PushedOn(s, h))
  {
    hide Advance, Slot, Onward, UsesBuffer, UsesBlock;
  }

  // ---------- descriptors ----------

  lemma ReserveGood(s: State, i: nat)
    requires Good(s) && i < |s.free| && s.free[i]
    ensures Good(s.(free := s.free[i := false], notes := s.notes.(reserved := s.notes.reserved + {i}))) && i < QUEUE_SIZE
    ensures i !in s.notes.reserved && |s.free| == QUEUE_SIZE
  {
    hide Partitioned, Chained, Placed, Unshared, Transferred, Ring;
    FreeSize(s);
    Reserved(s.free, s.notes.reqs, s.notes.owner, s.notes.reserved, i);
  }

  lemma FreeSize(s: State)
    requires Good(s)
    ensures |s.free| == QUEUE_SIZE && |s.descriptors| == |s.operations| == |s.info| == QUEUE_SIZE
    ensures |s.availableRing| == |s.usedRing| == QUEUE_SIZE
    ensures forall i | i in s.notes.reserved :: i < QUEUE_SIZE && !s.free[i] && i !in s.notes.reqs
    ensures forall h | h in s.notes.reqs :: h < QUEUE_SIZE
  {
    hide Placed, Unshared;
    forall h | h in s.notes.reqs ensures h in s.notes.owner {
      HeadOwned(s.free, s.notes.reqs, s.notes.owner, s.notes.reserved, h);
    }
  }

  /** Descriptors that are in no chain can be written. */
  lemma ScratchGood(s: State, i: nat, d: Descriptor)
    requires Good(s) && i in s.notes.reserved
    ensures |s.descriptors| == QUEUE_SIZE && i < QUEUE_SIZE
    ensures Good(s.(descriptors := s.descriptors[i := d]))
  {
    hide Placed, Unshared, Transferred, Ring, ChainOk;
    forall h | h in s.notes.reqs ensures ChainOk(s.descriptors[i := d], s.operations, s.info, h, s.notes.reqs[h]) {
      ScratchChain(s, i, d, h);
    }
  }

  lemma ScratchChain(s: State, i: nat, d: Descriptor, h: nat)
    requires Partitioned(s.free, s.notes.reqs, s.notes.owner, s.notes.reserved) && i in s.notes.reserved && h in s.notes.reqs
    requires ChainOk(s.descriptors, s.operations, s.info, h, s.notes.reqs[h])
    ensures ChainOk(s.descriptors[i := d], s.operations, s.info, h, s.notes.reqs[h])
  {
  }

  /** So can the header and the notes filed under them. */
  lemma NotesGood(s: State, i: nat, operation: Operation, note: Info, b: nat)
    requires Good(s) && i in s.notes.reserved && !UsesBuffer(s.notes.reqs, b)
    ensures |s.operations| == |s.info| == QUEUE_SIZE && i < QUEUE_SIZE
    ensures Good(s.(operations := s.operations[i := operation], info := s.info[i := note], owned := s.owned + {b}))
  {
    hide Placed, Unshared, Ring, ChainOk, RequestOk, UsesBuffer, InChain;
    FreeSize(s);
    var operations', info', owned' := s.operations[i := operation], s.info[i := note], s.owned + {b};
    forall h | h in s.notes.reqs
      ensures ChainOk(s.descriptors, operations', info', h, s.notes.reqs[h])
      ensures RequestOk(s.notes.reqs[h], info'[h].status, owned', s.data, s.blocks)
    {
      NotesChain(s, i, operation, note, b, h);
    }
  }

  lemma NotesChain(s: State, i: nat, operation: Operation, note: Info, b: nat, h: nat)
    requires |s.info| == |s.operations| == QUEUE_SIZE && i < QUEUE_SIZE && h < QUEUE_SIZE
    requires i !in s.notes.reqs && h in s.notes.reqs && !UsesBuffer(s.notes.reqs, b)
    requires ChainOk(s.descriptors, s.operations, s.info, h, s.notes.reqs[h])
    requires RequestOk(s.notes.reqs[h], s.info[h].status, s.owned, s.data, s.blocks)
    ensures ChainOk(s.descriptors, s.operations[i := operation], s.info[i := note], h, s.notes.reqs[h])
    ensures RequestOk(s.notes.reqs[h], s.info[i := note][h].status, s.owned + {b}, s.data, s.blocks)
  {
  }

  lemma UnreserveGood(s: State, i: nat)
    requires Good(s) && i in s.notes.reserved
    ensures i < QUEUE_SIZE && |s.free| == |s.descriptors| == QUEUE_SIZE && !s.free[i]
    ensures Good(s.(descriptors := s.descriptors[i := NO_DESCRIPTOR], free := s.free[i := true],
                   notes := s.notes.(reserved := s.notes.reserved - {i})))
  {
    hide Partitioned, Chained, Placed, Unshared, Transferred, Ring;
    ScratchGood(s, i, NO_DESCRIPTOR);
    FreeSize(s);
    Unreserved(s.free, s.notes.reqs, s.notes.owner, s.notes.reserved, i);
  }

  // ---------- publishing ----------

  /** What the driver writes before the device is told. */
  function Formatted(s: State, h: nat, second: nat, third: nat, b: nat, k: nat, write: bool): State
    requires |s.descriptors| == |s.operations| == |s.info| == QUEUE_SIZE
    requires h < QUEUE_SIZE && second < QUEUE_SIZE && third < QUEUE_SIZE
  {
    s.(operations := s.operations[h := Operation(write, k * SECTORS_PER_BLOCK)],
       info := s.info[h := Info(Some(b), Pending)],
       owned := s.owned + {b},
       descriptors :=
         s.descriptors[h := Descriptor(Header(h), 16, true, false, second)]
         [second := Descriptor(Data(b), BLOCK_SIZE, true, !write, third)]
         [third := Descriptor(StatusOf(h), 1, false, true, 0)])
  }

  lemma FormattedGood(s: State, h: nat, second: nat, third: nat, b: nat, k: nat, write: bool, want: Block)
    requires Good(s) && s.notes.reserved == {h, second, third} && h != second && h != third && second != third
    requires !UsesBuffer(s.notes.reqs, b)
    ensures Formatted.requires(s, h, second, third, b, k, write)
    ensures Good(Formatted(s, h, second, third, b, k, write))
    ensures var s' := Formatted(s, h, second, third, b, k, write);
            ChainOk(s'.descriptors, s'.operations, s'.info, h, Request(b, k, write, want, second, third, Queued))
  {
    hide Good, UsesBuffer;
    FreeSize(s);
    NotesGood(s, h, Operation(write, k * SECTORS_PER_BLOCK), Info(Some(b), Pending), b);
    var s1 := s.(operations := s.operations[h := Operation(write, k * SECTORS_PER_BLOCK)],
                 info := s.info[h := Info(Some(b), Pending)], owned := s.owned + {b});
    ScratchGood(s1, h, Descriptor(Header(h), 16, true, false, second));
    var s2 := s1.(descriptors := s1.descriptors[h := Descriptor(Header(h), 16, true, false, second)]);
    ScratchGood(s2, second, Descriptor(Data(b), BLOCK_SIZE, true, !write, third));
    var s3 := s2.(descriptors := s2.descriptors[second := Descriptor(Data(b), BLOCK_SIZE, true, !write, third)]);
    ScratchGood(s3, third, Descriptor(StatusOf(h), 1, false, true, 0));
  }

  /** Nothing the device does before it is told disturbs what was prepared. */
  lemma StillPrepared(s: State, s': State, h: nat, r: Request)
    requires Good(s) && Good(s') && Ran(s, s') && h in s.notes.reserved
    requires s'.descriptors == s.descriptors && s'.operations == s.operations && s'.owned == s.owned
    requires ChainOk(s.descriptors, s.operations, s.info, h, r)
    requires RequestOk(r, s.info[h].status, s.owned, s.data, s.blocks)
    requires !UsesBuffer(s.notes.reqs, r.buffer) && !UsesBlock(s.notes.reqs, r.block)
    ensures ChainOk(s'.descriptors, s'.operations, s'.info, h, r)
    ensures RequestOk(r, s'.info[h].status, s'.owned, s'.data, s'.blocks)
    ensures !UsesBuffer(s'.notes.reqs, r.buffer) && !UsesBlock(s'.notes.reqs, r.block)
  {
    hide Good, UsesBuffer, UsesBlock, Onward;
    FreeSize(s);
    UsesSame(s.notes.reqs, s'.notes.reqs, r.buffer);
    UsesSame(s.notes.reqs, s'.notes.reqs, r.block);
  }

  /** The ring entry is written before the index says so. */
  lemma RingEntryGood(s: State, h: nat)
    requires Good(s) && h in s.notes.reserved
    ensures |s.availableRing| == QUEUE_SIZE && Good(s.(availableRing := s.availableRing[Slot(s.availableIdx) := h]))
    ensures |s.notes.queue| < QUEUE_SIZE && s.availableRing[Slot(s.availableIdx) := h][Slot(s.notes.taken + |s.notes.queue|)] == h
  {
    hide Partitioned, Chained, Placed, Unshared, Transferred, Ring, Slot;
    QueueRoom(s, h);
    WriterFills(s.availableRing, s.device.idx, s.availableIdx, s.notes.taken, s.notes.queue, h);
  }

  lemma QueueRoom(s: State, h: nat)
    requires Good(s) && h in s.notes.reserved
    ensures |s.notes.queue| < QUEUE_SIZE && h !in s.notes.queue
  {
    hide Chained, Unshared, Transferred, Ring;
    forall y | y in s.notes.queue ensures y < QUEUE_SIZE && y != h {
      assert y in s.notes.reqs;
      HeadOwned(s.free, s.notes.reqs, s.notes.owner, s.notes.reserved, y);
    }
    RoomForOne(s.notes.queue, h, QUEUE_SIZE);
  }

  /** The entry at the index the device will see next. */
  ghost predicate EntryReady(s: State, h: nat) {
    |s.availableRing| == QUEUE_SIZE && |s.notes.queue| < QUEUE_SIZE && s.availableRing[Slot(s.notes.taken + |s.notes.queue|)] == h
  }

  lemma EntrySlot(s: State)
    requires Good(s)
    ensures |s.availableRing| == QUEUE_SIZE && Slot(s.notes.taken + |s.notes.queue|) == Slot(s.availableIdx)
  {
    SlotWraps(s.notes.taken + |s.notes.queue|);
  }

  function PublishedAs(s: State, h: nat, r: Request): State {
    s.(availableIdx := (s.availableIdx + 1) % INDEX_LIMIT,
       notes := s.notes.(reqs := s.notes.reqs[h := r],
                         owner := s.notes.owner[h := h][r.second := h][r.third := h],
                         reserved := {}, queue := s.notes.queue + [h]))
  }

  lemma PublishGood(s: State, h: nat, r: Request)
    requires Good(s) && s.notes.reserved == {h, r.second, r.third} && h != r.second && h != r.third && r.second != r.third
    requires ChainOk(s.descriptors, s.operations, s.info, h, r) && r.phase == Queued
    requires RequestOk(r, s.info[h].status, s.owned, s.data, s.blocks)
    requires !UsesBuffer(s.notes.reqs, r.buffer) && !UsesBlock(s.notes.reqs, r.block) && EntryReady(s, h)
    ensures h !in s.notes.reqs && Good(PublishedAs(s, h, r))
  {
    hide Partitioned, Chained, Placed, Transferred, Ring, Slot, ChainOk, RequestOk, Unshared;
    Bound(s.free, s.notes.reqs, s.notes.owner, h, r);
    Published(s.notes.reqs, s.notes.queue, s.device.working, s.device.processed, s.notes.done, h, r);
    WriterSteps(s.availableRing, s.device.idx, s.availableIdx, s.notes.taken, s.notes.queue, h);
    PublishUnshared(s.notes.reqs, h, r);
    PublishChains(s, h, r);
  }

  lemma PublishUnshared(reqs: Requests, h: nat, r: Request)
    requires Unshared(reqs) && !UsesBuffer(reqs, r.buffer) && !UsesBlock(reqs, r.block)
    ensures Unshared(reqs[h := r])
  {
  }

  lemma PublishChains(s: State, h: nat, r: Request)
    requires Chained(s.descriptors, s.operations, s.info, s.notes.reqs) && Transferred(s.notes.reqs, s.info, s.owned, s.data, s.blocks)
    requires ChainOk(s.descriptors, s.operations, s.info, h, r)
    requires RequestOk(r, s.info[h].status, s.owned, s.data, s.blocks)
    ensures Chained(s.descriptors, s.operations, s.info, s.notes.reqs[h := r])
    ensures Transferred(s.notes.reqs[h := r], s.info, s.owned, s.data, s.blocks)
  {
    hide RequestOk;
  }

  // ---------- completions ----------

  /** The requests are the same; some more may have been handled. */
  ghost predicate Forward(reqs: Requests, reqs': Requests) {
    && reqs'.Keys == reqs.Keys
    && forall h | h in reqs ::
         && reqs'[h] == reqs[h].(phase := reqs'[h].phase)
         && (reqs[h].phase == Handled ==> reqs'[h].phase == Handled)
  }

  ghost function HandledOf(reqs: Requests): set<nat> {
    set h | h in reqs && reqs[h].phase == Handled
  }

  ghost function Unhandled(reqs: Requests): set<nat> {
    set h | h in reqs && reqs[h].phase != Handled
  }

  lemma ForwardOnward(reqs: Requests, reqs1: Requests, reqs2: Requests)
    requires Forward(reqs, reqs1) && Onward(reqs1, reqs2)
    ensures Forward(reqs, reqs2) && HandledOf(reqs2) == HandledOf(reqs1) && Unhandled(reqs2) == Unhandled(reqs1)
  {
  }

  function Completed(s: State): State
    requires s.notes.done != [] && s.notes.done[0] in s.notes.reqs
  {
    var h := s.notes.done[0];
    s.(owned := s.owned - {s.notes.reqs[h].buffer}, seen := (s.seen + 1) % INDEX_LIMIT,
       notes := s.notes.(reqs := Advance(s.notes.reqs, h, Handled), done := s.notes.done[1..],
                         handled := s.notes.handled + 1))
  }

  /** The next completion is there to see exactly when there is one, and names a request in flight. */
  lemma SeesDone(s: State)
    requires Good(s)
    ensures s.seen != s.usedIdx <==> s.notes.done != []
    ensures |s.usedRing| == QUEUE_SIZE && |s.info| == QUEUE_SIZE
    ensures s.notes.done != [] ==>
              var h := s.notes.done[0];
              && s.usedRing[Slot(s.seen)] == h && h in s.notes.reqs && h < QUEUE_SIZE
              && s.notes.reqs[h].phase == Done && s.info[h].status != Pending
              && s.info[h].buffer == Some(s.notes.reqs[h].buffer)
  {
    hide Partitioned, Unshared, Slot;
    ReaderSees(s.usedRing, s.seen, s.usedIdx, s.notes.handled, s.notes.done);
    if s.notes.done != [] {
      Seen(s.notes.reqs, s.notes.queue, s.device.working, s.device.processed, s.notes.done);
      GoodChain(s, s.notes.done[0]);
    }
  }

  lemma CompletedGood(s: State)
    requires Good(s) && s.notes.done != [] && s.notes.done[0] < |s.info| && s.info[s.notes.done[0]].status == Okay
    ensures s.notes.done[0] in s.notes.reqs && Good(Completed(s))
  {
    hide Partitioned, Chained, Placed, Unshared, Transferred, Ring, Advance;
    SeesDone(s);
    var h := s.notes.done[0];
    Seen(s.notes.reqs, s.notes.queue, s.device.working, s.device.processed, s.notes.done);
    ReaderSteps(s.usedRing, s.seen, s.usedIdx, s.notes.handled, s.notes.done);
    Advanced(s.free, s.notes.owner, s.notes.reserved, s.descriptors, s.operations, s.info, s.notes.reqs, h, Handled);
    HandsBack(s.notes.reqs, s.info, s.owned, s.data, s.blocks, h);
  }

  /** One more request is handled. */
  lemma CompletedOne(reqs: Requests, h: nat)
    requires h in reqs && reqs[h].phase == Done
    ensures HandledOf(Advance(reqs, h, Handled)) == HandledOf(reqs) + {h} && h !in HandledOf(reqs)
    ensures Unhandled(Advance(reqs, h, Handled)) == Unhandled(reqs) - {h} && h in Unhandled(reqs)
    ensures Forward(reqs, Advance(reqs, h, Handled))
  {
  }

  lemma ForwardTwice(reqs: Requests, reqs1: Requests, reqs2: Requests)
    requires Forward(reqs, reqs1) && Forward(reqs1, reqs2)
    ensures Forward(reqs, reqs2)
  {
  }

  // ---------- retiring ----------

  function Unbound1(s: State, h: nat): State
    requires h in s.notes.reqs && h < |s.info|
  {
    var r := s.notes.reqs[h];
    s.(info := s.info[h := s.info[h].(buffer := None)],
       notes := s.notes.(reqs := s.notes.reqs - {h}, owner := s.notes.owner - {h, r.second, r.third},
                         reserved := {h, r.second, r.third}))
  }

  /** When the device no longer owns the buffer, its request has been handled, and the transfer was
      made. */
  lemma OwnRequestDone(s: State, h: nat)
    requires Good(s) && h in s.notes.reqs && s.notes.reqs[h].buffer !in s.owned
    ensures var r := s.notes.reqs[h];
            && r.phase == Handled && r.buffer in s.data && r.block in s.blocks
            && s.data[r.buffer] == r.want && s.blocks[r.block] == r.want
  {
    hide Partitioned, Chained, Placed, Unshared, Ring;
  }

  lemma RetireGood(s: State, h: nat)
    requires Good(s) && s.notes.reserved == {} && h in s.notes.reqs && s.notes.reqs[h].phase == Handled
    ensures h < |s.info| && Good(Unbound1(s, h))
    ensures var r := s.notes.reqs[h]; h != r.second && h != r.third && r.second != r.third
    ensures ChainOk(s.descriptors, s.operations, s.info, h, s.notes.reqs[h])
  {
    hide Placed, Ring, Transferred, Unshared, InChain, ChainOk;
    FreeSize(s);
    Unbound(s.free, s.notes.reqs, s.notes.owner, h);
    Retired(s.notes.reqs, s.notes.queue, s.device.working, s.device.processed, s.notes.done, h);
    RetireOthers(s, h);
  }

  lemma RetireOthers(s: State, h: nat)
    requires Chained(s.descriptors, s.operations, s.info, s.notes.reqs) && Unshared(s.notes.reqs)
    requires Transferred(s.notes.reqs, s.info, s.owned, s.data, s.blocks) && h < |s.info|
    ensures Chained(s.descriptors, s.operations, s.info[h := s.info[h].(buffer := None)], s.notes.reqs - {h})
    ensures Transferred(s.notes.reqs - {h}, s.info[h := s.info[h].(buffer := None)], s.owned, s.data, s.blocks)
    ensures Unshared(s.notes.reqs - {h})
  {
    hide RequestOk;
  }

  class Driver {
    var free: seq<bool>
    var info: seq<Info>
    var operations: seq<Operation>
    var seen: nat                        // driver's index into the used ring
    var descriptors: seq<Descriptor>
    var availableRing: seq<nat>
    var availableIdx: nat
    var usedRing: seq<nat>
    var usedIdx: nat
    var owned: set<nat>                  // buffers with disk_owned set
    var data: map<nat, Block>            // contents of the buffers
    var blocks: map<nat, Block>          // the disk
    var device: Device
    ghost var notes: Notes

    ghost function View(): State
      reads this
    {
      State(free, info, operations, seen, descriptors, availableRing, availableIdx, usedRing, usedIdx,
            owned, data, blocks, device, notes)
    }

    ghost predicate Valid()
      reads this
    {
      Good(View())
    }

    constructor (data: map<nat, Block>, blocks: map<nat, Block>)
      ensures Valid() && notes.reqs == map[] && notes.reserved == {} && this.data == data && this.blocks == blocks
    {
      free := seq(QUEUE_SIZE, i => true);
      info := seq(QUEUE_SIZE, i => Info(None, Pending));
      operations := seq(QUEUE_SIZE, i => Operation(false, 0));
      descriptors := seq(QUEUE_SIZE, i => NO_DESCRIPTOR);
      availableRing, usedRing := seq(QUEUE_SIZE, i => 0), seq(QUEUE_SIZE, i => 0);
      availableIdx, usedIdx, seen, device := 0, 0, 0, Device(0, {}, {});
      owned, this.data, this.blocks := {}, data, blocks;
      notes := Notes(map[], map[], {}, [], [], 0, 0);
    }

    // ---------- the device ----------

    /** Takes the next chain off the available ring. */
    method DeviceTakes()
      requires Valid()
      modifies this`device, this`notes
      ensures Valid() && Ran(old(View()), View())
    {
      hide Good, Ran, Slot;
      SeesQueue(View());
      RanNothing(View());
      if device.idx == availableIdx {
        return;
      }
      TookGood(View());
      var head := availableRing[Slot(device.idx)];
      ghost var next := Took(View());
      device := device.(idx := (device.idx + 1) % INDEX_LIMIT, working := device.working + {head});
      notes := next.notes;
      assert View() == next;
    }

    /** Reads a chain: where to transfer from and to, and where the status goes. */
    method Follow(head: nat) returns (operation: Operation, second: Descriptor, third: Descriptor)
      requires Valid() && head in notes.reqs
      ensures head < |info| && third.address == StatusOf(head)
      ensures var r := notes.reqs[head];
              && operation.sector * SECTOR_SIZE == r.block * BLOCK_SIZE
              && second.address == Data(r.buffer) && second.write == !r.write
    {
      hide Good;
      GoodChain(View(), head);
      var first := descriptors[head];
      operation := operations[first.address.i];
      second := descriptors[first.nextIndex];
      third := descriptors[second.nextIndex];
    }

    /** Writes the status a chain ends with. */
    method Report(head: nat, third: Descriptor, well: bool)
      requires head in notes.reqs && head < |info| && third.address == StatusOf(head)
      modifies this`info, this`device, this`notes
      ensures info == old(info)[head := old(info)[head].(status := if well then Okay else Failed)]
      ensures device == old(device).(working := old(device).working - {head}, processed := old(device).processed + {head})
      ensures notes == old(notes).(reqs := Advance(old(notes.reqs), head, Processed))
    {
      info := info[third.address.i := info[third.address.i].(status := if well then Okay else Failed)];
      device := device.(working := device.working - {head}, processed := device.processed + {head});
      notes := notes.(reqs := Advance(notes.reqs, head, Processed));
    }

    /** Does what a chain says. */
    method DeviceTransfers(head: nat)
      requires Valid() && head in device.working
      modifies this`info, this`data, this`blocks, this`device, this`notes
      ensures Valid() && Ran(old(View()), View())
    {
      hide Good, Ran, Advance;
      MovedGood(View(), head, true);
      ghost var next := Moved(View(), head, true);
      var operation, second, third := Follow(head);
      var block := operation.sector * SECTOR_SIZE / BLOCK_SIZE;
      if second.write {
        data := data[second.address.buffer := blocks[block]];
      } else {
        blocks := blocks[block := data[second.address.buffer]];
      }
      Report(head, third, true);
      assert View() == next;
    }

    /** Reports an error instead. */
    method DeviceRefuses(head: nat)
      requires Valid() && head in device.working
      modifies this`info, this`device, this`notes
      ensures Valid() && Ran(old(View()), View())
    {
      hide Good, Ran, Advance;
      MovedGood(View(), head, false);
      ghost var next := Moved(View(), head, false);
      var operation, second, third := Follow(head);
      Report(head, third, false);
      assert View() == next;
    }

    /** Puts a finished chain on the used ring. */
    method DevicePushes(head: nat)
      requires Valid() && head in device.processed
      modifies this`usedRing, this`usedIdx, this`device, this`notes
      ensures Valid() && Ran(old(View()), View())
    {
      hide Good, Ran, Slot;
      PushedGood(View(), head);
      ghost var next := PushedOn(View(), head);
      usedRing := usedRing[Slot(usedIdx) := head];
      usedIdx := (usedIdx + 1) % INDEX_LIMIT;
      device := device.(processed := device.processed - {head});
      notes := next.notes;
      assert View() == next;
    }

    /** Any one step of the device, or none. */
    method DeviceStep()
      requires Valid()
      modifies this`info, this`data, this`blocks, this`device,
               this`usedRing, this`usedIdx, this`notes
      ensures Valid() && Ran(old(View()), View())
    {
      hide Valid, Ran;
      RanNothing(View());
      var choice: nat := *;
      if choice == 0 {
        DeviceTakes();
      } else if choice == 1 && device.working != {} {
        var h :| h in device.working;
        DeviceTransfers(h);
      } else if choice == 2 && device.working != {} {
        var h :| h in device.working;
        DeviceRefuses(h);
      } else if choice == 3 && device.processed != {} {
        var h :| h in device.processed;
        DevicePushes(h);
      }
    }

    /** Any number of steps of the device. */
    method DeviceRuns()
      requires Valid()
      modifies this`info, this`data, this`blocks, this`device,
               this`usedRing, this`usedIdx, this`notes
      ensures Valid() && Ran(old(View()), View())
    {
      hide Valid, Ran;
      ghost var start := View();
      RanNothing(start);
      var steps: nat := *;
      while steps > 0
        invariant Valid() && Ran(start, View())
      {
        ghost var before := View();
        DeviceStep();
        RanTwice(start, before, View());
        steps := steps - 1;
      }
    }

    // ---------- the driver ----------

    /** The first free descriptor, marked as taken. */
    method AllocDescriptor() returns (r: Option<nat>)
      requires Valid()
      modifies this`free, this`notes
      ensures Valid()
      ensures r.None? ==> free == old(free) && notes == old(notes) && forall i | 0 <= i < |free| :: !free[i]
      ensures r.Some? ==>
                && r.value < |old(free)| && old(free)[r.value] && free == old(free)[r.value := false]
                && (forall i | 0 <= i < r.value :: !free[i])
                && notes == old(notes).(reserved := old(notes.reserved) + {r.value}) && r.value !in old(notes.reserved) && r.value < QUEUE_SIZE
    {
      hide Good;
      var i := 0;
      while i < |free|
        invariant 0 <= i <= |free| && forall j | 0 <= j < i :: !free[j]
        invariant View() == old(View())
      {
        if free[i] {
          ReserveGood(View(), i);
          free := free[i := false];
          notes := notes.(reserved := notes.reserved + {i});
          return Some(i);
        }
        i := i + 1;
      }
      r := None;
    }

    method FreeDescriptor(i: nat)
      requires Valid() && i in notes.reserved
      modifies this`free, this`notes, this`descriptors
      ensures Valid() && i < |old(free)| && free == old(free)[i := true] && notes == old(notes).(reserved := old(notes.reserved) - {i})
      ensures i < |old(descriptors)| && descriptors == old(descriptors)[i := NO_DESCRIPTOR]
    {
      hide Good;
      UnreserveGood(View(), i);
      descriptors := descriptors[i := NO_DESCRIPTOR];
      free := free[i := true];
      notes := notes.(reserved := notes.reserved - {i});
    }

    /** `count` descriptors that were free, or none at all; none exactly when fewer were free. */
    method AllocDescriptors(count: nat) returns (r: Option<seq<nat>>)
      requires Valid() && notes.reserved == {}
      modifies this`free, this`notes, this`descriptors
      ensures Valid() && notes == old(notes).(reserved := notes.reserved)
      ensures r.None? <==> |Frees(old(free))| < count
      ensures r.None? ==> notes.reserved == {} && free == old(free)
      ensures r.Some? ==>
                && |r.value| == count && Distinct(r.value) && Without(old(free), free, r.value)
                && (forall i | i in r.value :: i < QUEUE_SIZE) && notes.reserved == set i | i in r.value
    {
      hide Good, Frees;
      var got: seq<nat> := [];
      while |got| < count
        invariant Valid() && |got| <= count && Distinct(got) && notes == old(notes).(reserved := notes.reserved)
        invariant (forall i | i in got :: i < QUEUE_SIZE) && notes.reserved == set i | i in got
        invariant Without(old(free), free, got)
      {
        var d := AllocDescriptor();
        if d.None? {
          AllTaken(old(free), free, got);
          var k := 0;
          while k < |got|
            invariant Valid() && notes == old(notes).(reserved := notes.reserved)
            invariant 0 <= k <= |got| && notes.reserved == set i | i in got[k..]
            invariant Without(old(free), free, got[k..])
          {
            assert got[k..] == [got[k]] + got[k + 1..];
            DistinctRest(got, k);
            ghost var now := free;
            FreeDescriptor(got[k]);
            OneBack(old(free), now, got, k);
            k := k + 1;
          }
          return None;
        }
        LastIn(got, d.value);
        got := got + [d.value];
      }
      EnoughFree(old(free), free, got);
      r := Some(got);
    }

    /** Writes the three descriptors of a request. */
    method FormatDescriptors(h: nat, second: nat, third: nat, b: nat, write: bool)
      requires |descriptors| == QUEUE_SIZE && h < QUEUE_SIZE && second < QUEUE_SIZE && third < QUEUE_SIZE
      modifies this`descriptors
      ensures descriptors == old(descriptors)
                [h := Descriptor(Header(h), 16, true, false, second)]
                [second := Descriptor(Data(b), BLOCK_SIZE, true, !write, third)]
                [third := Descriptor(StatusOf(h), 1, false, true, 0)]
    {
      descriptors := descriptors[h := Descriptor(Header(h), 16, true, false, second)];
      descriptors := descriptors[second := Descriptor(Data(b), BLOCK_SIZE, true, !write, third)];
      descriptors := descriptors[third := Descriptor(StatusOf(h), 1, false, true, 0)];
    }

    /** Writes the three descriptors of a request and the driver's notes about it. */
    method Format(h: nat, second: nat, third: nat, b: nat, k: nat, write: bool)
      requires |descriptors| == |operations| == |info| == QUEUE_SIZE
      requires h < QUEUE_SIZE && second < QUEUE_SIZE && third < QUEUE_SIZE
      modifies this`descriptors, this`operations, this`info, this`owned
      ensures View() == Formatted(old(View()), h, second, third, b, k, write)
    {
      operations := operations[h := Operation(write, k * SECTORS_PER_BLOCK)];
      FormatDescriptors(h, second, third, b, write);
      owned, info := owned + {b}, info[h := Info(Some(b), Pending)];
    }

    /** The ring entry is written before the device is told; the device may run meanwhile. */
    method WriteEntry(h: nat)
      requires Valid() && h in notes.reserved
      modifies this`info, this`data, this`blocks, this`device,
               this`usedRing, this`usedIdx, this`notes, this`availableRing
      ensures Valid() && EntryReady(View(), h) && Ran(old(View()), View())
    {
      hide Good, Ran, Slot, Kept;
      ghost var s := View();
      RingEntryGood(s, h);
      availableRing := availableRing[Slot(availableIdx) := h];
      ghost var s1 := View();
      DeviceRuns();
      RanNotes(s1, View());
      EntryKept(s1, View(), h);
      RanFrom(s, s1, View());
    }

    /** Tells the device. */
    method AdvanceIndex(h: nat, ghost r: Request)
      requires Valid() && notes.reserved == {h, r.second, r.third} && h != r.second && h != r.third && r.second != r.third
      requires ChainOk(descriptors, operations, info, h, r) && r.phase == Queued
      requires RequestOk(r, info[h].status, owned, data, blocks)
      requires !UsesBuffer(notes.reqs, r.buffer) && !UsesBlock(notes.reqs, r.block) && EntryReady(View(), h)
      modifies this`availableIdx, this`notes
      ensures Valid() && h !in old(notes.reqs) && View() == PublishedAs(old(View()), h, r)
    {
      hide Good, ChainOk, RequestOk, UsesBuffer, UsesBlock, EntryReady;
      PublishGood(View(), h, r);
      ghost var next := PublishedAs(View(), h, r);
      availableIdx := (availableIdx + 1) % INDEX_LIMIT;
      notes := next.notes;
    }

    /** The ring entry first, then the index. */
    method Publish(h: nat, ghost r: Request)
      requires Valid() && notes.reserved == {h, r.second, r.third} && h != r.second && h != r.third && r.second != r.third
      requires ChainOk(descriptors, operations, info, h, r) && r.phase == Queued
      requires RequestOk(r, info[h].status, owned, data, blocks)
      requires !UsesBuffer(notes.reqs, r.buffer) && !UsesBlock(notes.reqs, r.block)
      modifies this
      ensures Valid() && notes.reserved == {} && h !in old(notes.reqs) && Onward(old(notes.reqs)[h := r], notes.reqs)
      ensures KeptApart(old(View()), View(), r.buffer, r.block)
    {
      hide Good, KeptApart, Ran, ChainOk, RequestOk, UsesBuffer, UsesBlock, Slot, Onward, EntryReady, PublishedAs;
      ghost var s := View();
      WriteEntry(h);
      ghost var s1 := View();
      RanNotes(s, s1);
      StillPrepared(s, s1, h, r);
      AdvanceIndex(h, r);
      ghost var s2 := View();
      DeviceRuns();
      RanNotes(s2, View());
      PublishedOnward(s, s1, View(), h, r);
      PublishedApart(s, s1, View(), h, r);
    }

    /** Allocates a chain and writes it, with the driver's notes; nothing is published yet. */
    method Prepare(b: nat, k: nat, write: bool) returns (r: Option<nat>, ghost q: Request)
      requires Valid() && notes.reserved == {} && b in data && k in blocks
      requires !UsesBuffer(notes.reqs, b) && !UsesBlock(notes.reqs, k)
      modifies this`free, this`notes, this`descriptors, this`operations, this`info, this`owned
      ensures Valid() && notes == old(notes).(reserved := notes.reserved)
      ensures r.None? <==> |Frees(old(free))| < 3
      ensures r.None? ==> notes.reserved == {} && info == old(info) && free == old(free)
      ensures r.Some? ==>
                && q.buffer == b && q.block == k && q.write == write && q.phase == Queued
                && q.want == (if write then data[b] else blocks[k])
                && notes.reserved == {r.value, q.second, q.third}
                && r.value != q.second && r.value != q.third && q.second != q.third
                && ChainOk(descriptors, operations, info, r.value, q)
                && r.value < |info| && RequestOk(q, info[r.value].status, owned, data, blocks)
    {
      hide Good, ChainOk, RequestOk, UsesBuffer, UsesBlock, Formatted, Frees, Without;
      ghost var want := if write then data[b] else blocks[k];
      q := Request(b, k, write, want, 0, 0, Queued);
      var got := AllocDescriptors(3);
      if got.None? {
        return None, q;
      }
      var h, second, third := got.value[0], got.value[1], got.value[2];
      assert notes.reserved == {h, second, third} && h != second && h != third && second != third;
      q := Request(b, k, write, want, second, third, Queued);
      FreeSize(View());
      FormattedGood(View(), h, second, third, b, k, write, want);
      FormattedRequest(View(), q, h);
      Format(h, second, third, b, k, write);
      r := Some(h);
    }

    /** The first half of readOrWrite, under the lock: allocate, format, publish. Without three free
        descriptors, which is when two requests are in flight, nothing is submitted. */
    method Submit(b: nat, k: nat, write: bool) returns (r: Option<nat>)
      requires Valid() && notes.reserved == {} && b in data && k in blocks
      requires !UsesBuffer(notes.reqs, b) && !UsesBlock(notes.reqs, k)
      modifies this
      ensures Valid() && notes.reserved == {}
      ensures KeptApart(old(View()), View(), b, k)
      ensures (r.None? <==> |Frees(old(free))| < 3) && (r.None? <==> |old(notes.reqs)| == 2)
      ensures r.None? ==> Onward(old(notes.reqs), notes.reqs) && Kept(old(View()), View()) && free == old(free)
      ensures r.Some? ==>
                var h := r.value;
                && h !in old(notes.reqs) && h in notes.reqs
                && notes.reqs[h].buffer == b && notes.reqs[h].block == k && notes.reqs[h].write == write
                && notes.reqs[h].want == (if write then old(data)[b] else old(blocks)[k])
                && Onward(old(notes.reqs)[h := notes.reqs[h]], notes.reqs)
    {
      hide Good, Ran, ChainOk, RequestOk, UsesBuffer, UsesBlock, Onward, Kept, KeptApart, Frees;
      ghost var s := View();
      TwoInFlight(s);
      DeviceRuns();
      ghost var s1 := View();
      RanNotes(s, s1);
      RanKeeps(s, s1, b, k);
      ghost var q;
      r, q := Prepare(b, k, write);
      if r.None? {
        RanThenSame(s, s1, View());
        KeptIsApart(s, View(), b, k);
        return;
      }
      ghost var s2 := View();
      Publish(r.value, q);
      SubmittedApart(s, s1, s2, View(), b, k);
      SubmittedOnward(s.notes.reqs, s1.notes.reqs, notes.reqs, r.value, q);
    }

    /** Takes one completion off the used ring. The driver stops on one that failed. */
    method HandleOne() returns (ok: bool)
      requires Valid() && seen != usedIdx
      modifies this`owned, this`seen, this`notes
      ensures Valid()
      ensures ok ==>
                && notes.done == old(notes.done)[1..] && notes.handled == old(notes.handled) + 1
                && notes.owner == old(notes.owner) && notes.reserved == old(notes.reserved)
                && Forward(old(notes.reqs), notes.reqs) && Unhandled(notes.reqs) < Unhandled(old(notes.reqs))
                && |HandledOf(notes.reqs)| == |HandledOf(old(notes.reqs))| + 1
      ensures !ok ==>
                && notes == old(notes) && owned == old(owned) && seen == old(seen)
                && notes.done != [] && notes.done[0] < |info| && info[notes.done[0]].status == Failed
    {
      hide Good, Slot, Forward, HandledOf, Unhandled;
      ghost var s := View();
      SeesDone(s);
      var id := usedRing[Slot(seen)];
      if info[id].status != Okay {
        return false;
      }
      CompletedGood(s);
      CompletedOne(s.notes.reqs, id);
      var buffer := info[id].buffer.value;
      owned := owned - {buffer};
      seen := (seen + 1) % INDEX_LIMIT;
      notes := Completed(s).notes;
      ok := true;
    }

    /** Handles completions until the used ring has no more; the device may add some meanwhile. Every
        completion is handled once, in the order of the ring. */
    method Interrupt() returns (ok: bool)
      requires Valid()
      modifies this
      ensures Valid() && notes.owner == old(notes.owner) && notes.reserved == old(notes.reserved)
      ensures Forward(old(notes.reqs), notes.reqs) && Kept(old(View()), View())
      ensures notes.handled - old(notes.handled) == |HandledOf(notes.reqs)| - |HandledOf(old(notes.reqs))|
      ensures ok ==> notes.done == []
      ensures !ok ==> notes.done != [] && notes.done[0] < |info| && info[notes.done[0]].status == Failed
    {
      hide Good, Ran, Forward, HandledOf, Unhandled, Onward, Kept;
      ghost var s := View();
      ForwardSame(s.notes.reqs);
      DeviceRuns();
      RanNotes(s, View());
      ForwardOnward(s.notes.reqs, s.notes.reqs, notes.reqs);
      while seen != usedIdx
        invariant Valid() && notes.owner == s.notes.owner && notes.reserved == s.notes.reserved
        invariant Forward(s.notes.reqs, notes.reqs) && Kept(s, View())
        invariant notes.handled - s.notes.handled == |HandledOf(notes.reqs)| - |HandledOf(s.notes.reqs)|
        decreases Unhandled(notes.reqs)
      {
        ghost var s0 := View();
        var one := HandleOne();
        if !one {
          return false;
        }
        ForwardTwice(s.notes.reqs, s0.notes.reqs, notes.reqs);
        ghost var s1 := View();
        DeviceRuns();
        RanNotes(s1, View());
        KeptHandled(s, s0, s1, View());
        ForwardOnward(s.notes.reqs, s1.notes.reqs, notes.reqs);
      }
      SeesDone(View());
      ok := true;
    }

    /** Frees the descriptors of a chain, following it from its head. */
    method FreeChain(head: nat, ghost r: Request)
      requires Valid() && notes.reserved == {head, r.second, r.third}
      requires head != r.second && head != r.third && r.second != r.third
      requires |descriptors| == QUEUE_SIZE && head < QUEUE_SIZE && r.second < QUEUE_SIZE && r.third < QUEUE_SIZE
      requires descriptors[head].next && descriptors[head].nextIndex == r.second
      requires descriptors[r.second].next && descriptors[r.second].nextIndex == r.third && !descriptors[r.third].next
      modifies this`free, this`notes, this`descriptors
      ensures Valid() && notes == old(notes).(reserved := {})
    {
      hide Good;
      ghost var left := {head, r.second, r.third};
      ghost var was := descriptors;
      var current := head;
      while true
        invariant Valid() && |descriptors| == QUEUE_SIZE && notes == old(notes).(reserved := left)
        invariant current in left && forall x | x in left :: x < QUEUE_SIZE && descriptors[x] == was[x]
        invariant if current == head then left == {head, r.second, r.third}
                  else if current == r.second then left == {r.second, r.third}
                  else current == r.third && left == {r.third}
        decreases left
      {
        var next, more := descriptors[current].nextIndex, descriptors[current].next;
        FreeDescriptor(current);
        left := left - {current};
        if !more {
          return;
        }
        current := next;
      }
    }

    /** The second half of readOrWrite, once the buffer is the driver's again. */
    method Finish(head: nat)
      requires Valid() && notes.reserved == {} && head in notes.reqs && notes.reqs[head].buffer !in owned
      modifies this`info, this`free, this`notes, this`descriptors
      ensures Valid() && notes.reserved == {} && notes.reqs == old(notes.reqs) - {head}
      ensures var r := old(notes.reqs)[head];
              && r.buffer in data && r.block in blocks && data[r.buffer] == r.want && blocks[r.block] == r.want
    {
      hide Good, ChainOk;
      ghost var s := View();
      ghost var r := notes.reqs[head];
      OwnRequestDone(s, head);
      RetireGood(s, head);
      GoodChain(s, head);
      info := info[head := info[head].(buffer := None)];
      notes := Unbound1(s, head).notes;
      assert View() == Unbound1(s, head);
      FreeChain(head, r);
    }
  }

  /** Just the descriptors `got` are no longer free. */
  ghost predicate Without(was: seq<bool>, now: seq<bool>, got: seq<nat>) {
    && |now| == |was|
    && (forall i | i in got :: i < |was| && was[i])
    && forall i | 0 <= i < |was| :: now[i] <==> was[i] && i !in got
  }

  lemma OneBack(was: seq<bool>, now: seq<bool>, got: seq<nat>, k: nat)
    requires Distinct(got) && k < |got| && Without(was, now, got[k..]) && got[k] < |now|
    ensures Without(was, now[got[k] := true], got[k + 1..])
  {
    DistinctRest(got, k);
    assert got[k..] == [got[k]] + got[k + 1..];
    var now' := now[got[k] := true];
    forall i | 0 <= i < |was| ensures now'[i] <==> was[i] && i !in got[k + 1..] {
      assert i in got[k..] <==> i == got[k] || i in got[k + 1..];
    }
    forall i | i in got[k + 1..] ensures i < |was| && was[i] {
      assert i in got[k..];
    }
  }

  ghost function Elements(s: seq<nat>): (r: set<nat>)
    ensures forall i: nat :: i in r <==> i in s
  {
    set i | i in s
  }

  lemma {:induction false} SizeOfDistinct(s: seq<nat>)
    requires Distinct(s)
    ensures |Elements(s)| == |s|
    decreases |s|
  {
    hide Elements;
    if s == [] {
      assert Elements(s) == {};
    } else {
      var front, last := s[..|s| - 1], s[|s| - 1];
      SizeOfDistinct(front);
      assert s == front + [last];
      assert last !in front;
      assert Elements(s) == Elements(front) + {last};
    }
  }

  lemma AllTaken(was: seq<bool>, now: seq<bool>, got: seq<nat>)
    requires Without(was, now, got) && Distinct(got) && forall i | 0 <= i < |now| :: !now[i]
    ensures |Frees(was)| == |got|
  {
    hide Elements;
    SizeOfDistinct(got);
    FreesAre(was);
    assert Frees(was) == Elements(got);
  }

  lemma EnoughFree(was: seq<bool>, now: seq<bool>, got: seq<nat>)
    requires Without(was, now, got) && Distinct(got)
    ensures |got| <= |Frees(was)|
  {
    hide Elements;
    SizeOfDistinct(got);
    FreesAre(was);
    SubsetSize(Elements(got), Frees(was));
  }

  lemma FreesAre(free: seq<bool>)
    ensures forall i: nat :: i in Frees(free) <==> i < |free| && free[i]
  {
  }

  /** A process asleep in readOrWrite: the descriptor its chain starts at, and the block it is after. */
  datatype Waiter = Waiter(head: nat, block: nat)

  /** The requests in flight are those of the processes in readOrWrite, by buffer. */
  ghost predicate Remembered(waiting: map<nat, Waiter>, reqs: Requests) {
    && (forall b | b in waiting ::
          waiting[b].head in reqs && reqs[waiting[b].head].buffer == b && reqs[waiting[b].head].block == waiting[b].block)
    && (forall h | h in reqs :: reqs[h].buffer in waiting && waiting[reqs[h].buffer].head == h)
  }

  predicate Idle(waiting: map<nat, Waiter>, b: nat, k: nat) {
    b !in waiting && forall x | x in waiting :: waiting[x].block != k
  }

  lemma IdleUnused(waiting: map<nat, Waiter>, reqs: Requests, b: nat, k: nat)
    requires Remembered(waiting, reqs) && Idle(waiting, b, k)
    ensures !UsesBuffer(reqs, b) && !UsesBlock(reqs, k)
  {
  }

  lemma RememberedOnward(waiting: map<nat, Waiter>, reqs: Requests, reqs': Requests)
    requires Remembered(waiting, reqs) && (Onward(reqs, reqs') || Forward(reqs, reqs'))
    ensures Remembered(waiting, reqs')
  {
  }

  lemma RememberedMore(waiting: map<nat, Waiter>, reqs: Requests, reqs': Requests, h: nat)
    requires Remembered(waiting, reqs) && h !in reqs && h in reqs' && Idle(waiting, reqs'[h].buffer, reqs'[h].block)
    requires Onward(reqs[h := reqs'[h]], reqs')
    ensures Remembered(waiting[reqs'[h].buffer := Waiter(h, reqs'[h].block)], reqs')
  {
  }

  lemma RememberedLess(waiting: map<nat, Waiter>, reqs: Requests, b: nat)
    requires Remembered(waiting, reqs) && b in waiting
    ensures Remembered(waiting - {b}, reqs - {waiting[b].head})
  {
  }

  /** What one process can count on while others run: its own request stays, or, before it has one, its
      buffer and its block stay as they are and nobody else's. */
  ghost predicate Spared(w: map<nat, Waiter>, s: State, w': map<nat, Waiter>, s': State, b: nat, k: nat) {
    && (b in w ==>
          && b in w' && w'[b] == w[b] && w[b].head in s.notes.reqs && w[b].head in s'.notes.reqs
          && s'.notes.reqs[w[b].head] == s.notes.reqs[w[b].head].(phase := s'.notes.reqs[w[b].head].phase))
    && (Idle(w, b, k) && b in s.data && k in s.blocks ==>
          && Idle(w', b, k) && b in s'.data && k in s'.blocks
          && s'.data[b] == s.data[b] && s'.blocks[k] == s.blocks[k])
  }

  lemma SparedNothing(w: map<nat, Waiter>, s: State, b: nat, k: nat)
    requires Remembered(w, s.notes.reqs)
    ensures Spared(w, s, w, s, b, k)
  {
  }

  lemma SparedTwice(w: map<nat, Waiter>, s: State, w1: map<nat, Waiter>, s1: State, w2: map<nat, Waiter>, s2: State, b: nat, k: nat)
    requires Spared(w, s, w1, s1, b, k) && Spared(w1, s1, w2, s2, b, k)
    ensures Spared(w, s, w2, s2, b, k)
  {
    hide Idle;
  }

  lemma SparedByRun(w: map<nat, Waiter>, s: State, s': State, b: nat, k: nat)
    requires Remembered(w, s.notes.reqs) && Kept(s, s')
    requires Onward(s.notes.reqs, s'.notes.reqs) || Forward(s.notes.reqs, s'.notes.reqs)
    ensures Spared(w, s, w, s', b, k)
  {
    hide UsesBuffer, UsesBlock, Idle;
    if Idle(w, b, k) {
      IdleUnused(w, s.notes.reqs, b, k);
    }
  }

  lemma SparedByBegin(w: map<nat, Waiter>, s: State, w': map<nat, Waiter>, s': State, b: nat, k: nat, b': nat, k': nat)
    requires Remembered(w, s.notes.reqs) && b' != b && k' != k && KeptApart(s, s', b', k')
    requires b' in w' && w' == w[b' := w'[b']] && w'[b'].block == k' && w'[b'].head !in s.notes.reqs
    requires w'[b'].head in s'.notes.reqs
    requires Onward(s.notes.reqs[w'[b'].head := s'.notes.reqs[w'[b'].head]], s'.notes.reqs)
    ensures Spared(w, s, w', s', b, k)
  {
    hide UsesBuffer, UsesBlock;
    if Idle(w, b, k) {
      IdleUnused(w, s.notes.reqs, b, k);
    }
  }

  lemma SparedByEnd(w: map<nat, Waiter>, s: State, s': State, b: nat, k: nat, b': nat)
    requires Remembered(w, s.notes.reqs) && b' != b && b' in w && s'.data == s.data && s'.blocks == s.blocks
    requires s'.notes.reqs == s.notes.reqs - {w[b'].head}
    ensures Spared(w, s, w - {b'}, s', b, k)
  {
  }

  /** The driver among the processes that use it. */
  class Kernel {
    const disk: Driver
    var waiting: map<nat, Waiter>

    ghost predicate Valid()
      reads this, disk
    {
      disk.Valid() && disk.notes.reserved == {} && Remembered(waiting, disk.notes.reqs)
    }

    constructor (disk: Driver)
      requires disk.Valid() && disk.notes.reserved == {} && disk.notes.reqs == map[]
      ensures Valid() && this.disk == disk && waiting == map[]
    {
      this.disk, waiting := disk, map[];
    }

    /** Whenever the lock is free: three descriptors for every request in flight, the others free. */
    lemma ThreeEachAndFree()
      requires Valid()
      ensures |Frees(disk.free)| + 3 * |disk.notes.reqs| == QUEUE_SIZE
    {
      Accounted(disk.free, disk.notes.reqs, disk.notes.owner);
    }

    /** A process tries to get its request to the device. */
    method Begin(b: nat, k: nat, write: bool) returns (ok: bool)
      requires Valid() && b in disk.data && k in disk.blocks && Idle(waiting, b, k)
      modifies this, disk
      ensures Valid() && KeptApart(old(disk.View()), disk.View(), b, k)
      ensures (!ok <==> |Frees(old(disk.free))| < 3) && (!ok <==> |old(disk.notes.reqs)| == 2)
      ensures !ok ==> waiting == old(waiting) && Kept(old(disk.View()), disk.View()) && disk.free == old(disk.free)
      ensures !ok ==> Onward(old(disk.notes.reqs), disk.notes.reqs)
      ensures ok ==>
                && b in waiting && waiting == old(waiting)[b := waiting[b]] && waiting[b].block == k
                && waiting[b].head !in old(disk.notes.reqs)
                && waiting[b].head in disk.notes.reqs
                && Onward(old(disk.notes.reqs)[waiting[b].head := disk.notes.reqs[waiting[b].head]], disk.notes.reqs)
                && var r := disk.notes.reqs[waiting[b].head];
                   r.buffer == b && r.block == k && r.want == if write then old(disk.data)[b] else old(disk.blocks)[k]
    {
      hide Good, Remembered, KeptApart, Kept, Onward, UsesBuffer, UsesBlock, Idle, Frees;
      ghost var reqs0 := disk.notes.reqs;
      IdleUnused(waiting, reqs0, b, k);
      var h := disk.Submit(b, k, write);
      if h.None? {
        RememberedOnward(waiting, reqs0, disk.notes.reqs);
        return false;
      }
      RememberedMore(waiting, reqs0, disk.notes.reqs, h.value);
      waiting := waiting[b := Waiter(h.value, k)];
      ok := true;
    }

    /** A process whose buffer is its own again is done. */
    method End(b: nat)
      requires Valid() && b in waiting && b !in disk.owned
      modifies this, disk
      ensures Valid() && waiting == old(waiting) - {b}
      ensures disk.data == old(disk.data) && disk.blocks == old(disk.blocks)
      ensures old(waiting)[b].head in old(disk.notes.reqs)
      ensures disk.notes.reqs == old(disk.notes.reqs) - {old(waiting)[b].head}
      ensures var r := old(disk.notes.reqs)[old(waiting)[b].head];
              && r.buffer == b && r.block == old(waiting)[b].block
              && b in disk.data && r.block in disk.blocks && disk.data[b] == r.want && disk.blocks[r.block] == r.want
    {
      hide Good, Remembered;
      ghost var reqs0 := disk.notes.reqs;
      OwnHead(waiting, reqs0, b);
      RememberedLess(waiting, reqs0, b);
      disk.Finish(waiting[b].head);
      waiting := waiting - {b};
    }

    /** The next completion is of a request that failed, at which the driver stops. */
    ghost predicate Stopped()
      reads disk
    {
      disk.notes.done != [] && disk.notes.done[0] < |disk.info| && disk.info[disk.notes.done[0]].status == Failed
    }

    /** Anything that can happen while a process is between taking the lock twice: the device runs, the
        interrupt comes, another process begins or ends. The cache's locks keep others away from `b` and
        `k`. */
    method OneOther(b: nat, k: nat) returns (alive: bool)
      requires Valid()
      modifies this, disk
      ensures Valid() && Spared(old(waiting), old(disk.View()), waiting, disk.View(), b, k)
      ensures !alive ==> Stopped()
    {
      hide Good, Remembered, KeptApart, Kept, Onward, Forward, UsesBuffer, UsesBlock, Idle, Spared, Ran, HandledOf;
      ghost var w, s := waiting, disk.View();
      alive := true;
      SparedNothing(w, s, b, k);
      var choice: nat, b': nat, k': nat, write: bool := *, *, *, *;
      if choice == 0 {
        disk.DeviceRuns();
        RanNotes(s, disk.View());
        RememberedOnward(w, s.notes.reqs, disk.notes.reqs);
        SparedByRun(w, s, disk.View(), b, k);
      } else if choice == 1 {
        alive := disk.Interrupt();
        RememberedOnward(w, s.notes.reqs, disk.notes.reqs);
        SparedByRun(w, s, disk.View(), b, k);
      } else if choice == 2 && b' != b && k' != k && b' in disk.data && k' in disk.blocks && Idle(waiting, b', k') {
        var begun := Begin(b', k', write);
        if begun {
          SparedByBegin(w, s, waiting, disk.View(), b, k, b', k');
        } else {
          SparedByRun(w, s, disk.View(), b, k);
        }
      } else if choice == 3 && b' != b && b' in waiting && b' !in disk.owned {
        End(b');
        SparedByEnd(w, s, disk.View(), b, k, b');
      }
    }

    method Others(b: nat, k: nat) returns (alive: bool)
      requires Valid()
      modifies this, disk
      ensures Valid() && Spared(old(waiting), old(disk.View()), waiting, disk.View(), b, k)
      ensures !alive ==> Stopped()
    {
      hide Valid, Spared, Stopped;
      ghost var w, s := waiting, disk.View();
      alive := true;
      SparedAtFirst(b, k);
      var n: nat := *;
      while n > 0 && alive
        invariant Valid() && Spared(w, s, waiting, disk.View(), b, k) && (!alive ==> Stopped())
      {
        ghost var w1, s1 := waiting, disk.View();
        alive := OneOther(b, k);
        SparedTwice(w, s, w1, s1, waiting, disk.View(), b, k);
        n := n - 1;
      }
    }

    lemma SparedAtFirst(b: nat, k: nat)
      requires Valid()
      ensures Spared(waiting, disk.View(), waiting, disk.View(), b, k)
    {
      hide Good, Remembered, Spared;
      SparedNothing(waiting, disk.View(), b, k);
    }

    /** readOrWrite, from the call to the return, with everything else going on. `patience` bounds how
        often it is woken up; within any bound it may still be waiting, for three descriptors or for the device.
        When it returns, the disk block and the buffer are the same: what the buffer held at the call if it
        wrote, what the block held at the call if it read. */
    method ReadOrWrite(b: nat, k: nat, write: bool, patience: nat) returns (returned: bool)
      requires Valid() && b in disk.data && k in disk.blocks && Idle(waiting, b, k)
      modifies this, disk
      ensures Valid()
      ensures returned ==>
                && b in disk.data && k in disk.blocks && b !in waiting
                && disk.data[b] == disk.blocks[k] == if write then old(disk.data)[b] else old(disk.blocks)[k]
      ensures !returned ==> Stopped() || |Frees(disk.free)| < 3 || (b in waiting && b in disk.owned)
    {
      hide Good, Remembered, KeptApart, Kept, Onward, UsesBuffer, UsesBlock, Idle, Spared, Stopped, Frees;
      ghost var want := if write then disk.data[b] else disk.blocks[k];
      var left := patience;
      var ok := Begin(b, k, write);
      BeginSpares(old(waiting), old(disk.View()), disk.View(), b, k, ok, waiting);
      while !ok
        invariant Valid()
        invariant !ok ==> Idle(waiting, b, k) && b in disk.data && k in disk.blocks && |Frees(disk.free)| < 3
        invariant !ok ==> want == if write then disk.data[b] else disk.blocks[k]
        invariant ok ==> InFlight(waiting, disk.notes.reqs, b, k, want)
        decreases left, !ok
      {
        if left == 0 {
          return false;
        }
        left := left - 1;
        ghost var w, s := waiting, disk.View();
        var alive := Others(b, k);
        SparedIdle(w, s, waiting, disk.View(), b, k);
        if !alive {
          return false;
        }
        ghost var w1, s1 := waiting, disk.View();
        ok := Begin(b, k, write);
        BeginSpares(w1, s1, disk.View(), b, k, ok, waiting);
      }
      while b in disk.owned
        invariant Valid() && InFlight(waiting, disk.notes.reqs, b, k, want)
        decreases left
      {
        if left == 0 {
          return false;
        }
        left := left - 1;
        ghost var w, s := waiting, disk.View();
        var alive := Others(b, k);
        SparedInFlight(w, s, waiting, disk.View(), b, k, want);
        if !alive {
          return false;
        }
      }
      End(b);
      returned := true;
    }
  }

  ghost predicate InFlight(w: map<nat, Waiter>, reqs: Requests, b: nat, k: nat, want: Block) {
    b in w && w[b].head in reqs && reqs[w[b].head].buffer == b && reqs[w[b].head].block == k && w[b].block == k
    && reqs[w[b].head].want == want
  }

  lemma SparedIdle(w: map<nat, Waiter>, s: State, w': map<nat, Waiter>, s': State, b: nat, k: nat)
    requires Spared(w, s, w', s', b, k) && Idle(w, b, k) && b in s.data && k in s.blocks
    ensures Idle(w', b, k) && b in s'.data && k in s'.blocks && s'.data[b] == s.data[b] && s'.blocks[k] == s.blocks[k]
  {
  }

  lemma SparedInFlight(w: map<nat, Waiter>, s: State, w': map<nat, Waiter>, s': State, b: nat, k: nat, want: Block)
    requires Spared(w, s, w', s', b, k) && InFlight(w, s.notes.reqs, b, k, want)
    ensures InFlight(w', s'.notes.reqs, b, k, want)
  {
    hide Idle;
  }

  /** A failed attempt leaves the buffer and the block alone. */
  lemma BeginSpares(w: map<nat, Waiter>, s: State, s': State, b: nat, k: nat, ok: bool, w': map<nat, Waiter>)
    requires Remembered(w, s.notes.reqs) && Idle(w, b, k) && b in s.data && k in s.blocks
    requires !ok ==> Kept(s, s') && w' == w
    ensures !ok ==> Idle(w', b, k) && b in s'.data && k in s'.blocks && s'.data[b] == s.data[b] && s'.blocks[k] == s.blocks[k]
  {
    hide UsesBuffer, UsesBlock;
    IdleUnused(w, s.notes.reqs, b, k);
  }

  lemma OwnHead(waiting: map<nat, Waiter>, reqs: Requests, b: nat)
    requires Remembered(waiting, reqs) && b in waiting
    ensures waiting[b].head in reqs && reqs[waiting[b].head].buffer == b && reqs[waiting[b].head].block == waiting[b].block
  {
  }

  lemma TwoInFlight(s: State)
    requires Good(s) && s.notes.reserved == {}
    ensures |Frees(s.free)| < 3 <==> |s.notes.reqs| == 2
  {
    hide Chained, Placed, Unshared, Transferred, Ring, Partitioned;
    Accounted(s.free, s.notes.reqs, s.notes.owner);
  }

  lemma GoodChain(s: State, h: nat)
    requires Good(s) && h in s.notes.reqs
    ensures |s.descriptors| == |s.operations| == |s.info| == QUEUE_SIZE && h < QUEUE_SIZE
    ensures var r := s.notes.reqs[h];
            && r.second < QUEUE_SIZE && r.third < QUEUE_SIZE
            && s.descriptors[h].address == Header(h) && s.descriptors[h].nextIndex == r.second
            && s.operations[h].write == r.write && s.operations[h].sector * SECTOR_SIZE == r.block * BLOCK_SIZE
            && s.descriptors[r.second].address == Data(r.buffer) && s.descriptors[r.second].write == !r.write
            && s.descriptors[r.second].nextIndex == r.third && s.descriptors[r.third].address == StatusOf(h)
            && s.info[h].buffer == Some(r.buffer)
            && s.descriptors[h].next && s.descriptors[r.second].next && !s.descriptors[r.third].next
  {
    hide Partitioned, Chained, Placed, Unshared, Transferred, Ring;
    ChainRead(s.descriptors, s.operations, s.info, s.notes.reqs, h);
  }

  lemma DistinctRest(s: seq<nat>, k: nat)
    requires Distinct(s) && k < |s|
    ensures s[k] !in s[k + 1..]
  {
  }

  lemma EntryKept(s: State, s': State, h: nat)
    requires Good(s) && Good(s') && h in s'.notes.reserved
    requires |s.availableRing| == QUEUE_SIZE && s.availableRing[Slot(s.availableIdx)] == h
    requires s'.availableRing == s.availableRing && s'.availableIdx == s.availableIdx
    ensures EntryReady(s', h)
  {
    hide Good, Slot;
    EntrySlot(s');
    QueueRoom(s', h);
  }

  lemma RanFrom(s: State, s1: State, s2: State)
    requires s1 == s.(availableRing := s1.availableRing) && Ran(s1, s2)
    ensures Ran(s, s2)
  {
  }

  lemma PublishedOnward(s: State, s1: State, s2: State, h: nat, r: Request)
    requires Ran(s, s1) && Ran(PublishedAs(s1, h, r), s2) && h !in s1.notes.reqs
    ensures PublishedAs(s1, h, r).notes.reserved == {}
    ensures h !in s.notes.reqs && Onward(s.notes.reqs[h := r], s2.notes.reqs)
  {
    hide Kept;
  }

  lemma RanKeeps(s: State, s': State, b: nat, k: nat)
    requires Ran(s, s') && b in s.data && k in s.blocks && !UsesBuffer(s.notes.reqs, b) && !UsesBlock(s.notes.reqs, k)
    ensures b in s'.data && s'.data[b] == s.data[b] && k in s'.blocks && s'.blocks[k] == s.blocks[k]
    ensures !UsesBuffer(s'.notes.reqs, b) && !UsesBlock(s'.notes.reqs, k)
  {
    hide UsesBuffer, UsesBlock, Onward;
    UsesSame(s.notes.reqs, s'.notes.reqs, b);
    UsesSame(s.notes.reqs, s'.notes.reqs, k);
  }

  lemma RanThenSame(s: State, s1: State, s2: State)
    requires Ran(s, s1) && s2.info == s1.info && s2.data == s1.data && s2.blocks == s1.blocks
    requires s2.notes == s1.notes.(reserved := s2.notes.reserved) && s2.notes.reserved == s.notes.reserved
    ensures Onward(s.notes.reqs, s2.notes.reqs) && Kept(s, s2)
  {
    hide UsesBuffer, UsesBlock, Onward;
  }

  lemma FormattedRequest(s: State, r: Request, h: nat)
    requires Formatted.requires(s, h, r.second, r.third, r.buffer, r.block, r.write)
    requires r.buffer in s.data && r.block in s.blocks && r.phase == Queued
    requires r.want == if r.write then s.data[r.buffer] else s.blocks[r.block]
    ensures var s' := Formatted(s, h, r.second, r.third, r.buffer, r.block, r.write);
            && |s'.info| == QUEUE_SIZE && RequestOk(r, s'.info[h].status, s'.owned, s'.data, s'.blocks)
            && s'.notes == s.notes && s'.data == s.data && s'.blocks == s.blocks
  {
  }

  lemma SubmittedApart(s: State, s1: State, s2: State, s3: State, b: nat, k: nat)
    requires Ran(s, s1) && s2.notes.reqs == s1.notes.reqs && s2.data == s1.data && s2.blocks == s1.blocks
    requires KeptApart(s2, s3, b, k)
    ensures KeptApart(s, s3, b, k)
  {
    hide UsesBuffer, UsesBlock;
    assert KeptApart(s1, s3, b, k);
    ApartTwice(s, s1, s3, b, k);
  }

  lemma KeptHandled(s: State, s0: State, s1: State, s2: State)
    requires Kept(s, s0) && Forward(s.notes.reqs, s0.notes.reqs) && Forward(s0.notes.reqs, s1.notes.reqs) && Kept(s1, s2)
    requires s1.notes.owner == s0.notes.owner && s1.notes.reserved == s0.notes.reserved
    requires s1.info == s0.info && s1.data == s0.data && s1.blocks == s0.blocks
    ensures Kept(s, s2)
  {
    hide UsesBuffer, UsesBlock, Forward;
    assert Kept(s, s1);
    ForwardTwice(s.notes.reqs, s0.notes.reqs, s1.notes.reqs);
    KeptForward(s, s1, s2);
  }

  lemma SubmittedOnward(reqs: Requests, reqs1: Requests, reqs2: Requests, h: nat, r: Request)
    requires Onward(reqs, reqs1) && h !in reqs1 && Onward(reqs1[h := r], reqs2)
    ensures h !in reqs && h in reqs2 && reqs2[h] == r.(phase := reqs2[h].phase)
    ensures Onward(reqs[h := reqs2[h]], reqs2)
  {
  }

  lemma ForwardSame(reqs: Requests)
    ensures Forward(reqs, reqs)
  {
  }
}
