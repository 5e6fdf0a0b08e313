/** The disk driver's shared memory, and the device at the other end of it: what the rings, the
    descriptors and the driver's notes say about the requests in flight. */
module DiskQueue {
  import opened Wrappers
  import opened Blocks

  const QUEUE_SIZE := 8
  const INDEX_LIMIT := 0x1_0000  // ring indexes are 16 bits wide

  /** What a descriptor points at: the header of a request, a buffer, or a status byte. */
  datatype Address = Nowhere | Header(i: nat) | Data(buffer: nat) | StatusOf(i: nat)

  datatype Descriptor = Descriptor(address: Address, length: nat, next: bool, write: bool, nextIndex: nat)

  const NO_DESCRIPTOR := Descriptor(Nowhere, 0, false, false, 0)

  datatype Operation = Operation(write: bool, sector: nat)

  datatype Status = Pending | Okay | Failed

  datatype Info = Info(buffer: Option<nat>, status: Status)

  const SECTOR_SIZE := 512
  const SECTORS_PER_BLOCK := 2  // BLOCK_SIZE / SECTOR_SIZE

  datatype Phase = Queued | Working | Processed | Done | Handled

  /** A request in flight; its chain starts at the descriptor it is filed under. `want` is what was to
      be transferred when it was made. */
  datatype Request = Request(buffer: nat, block: nat, write: bool, want: Block, second: nat, third: nat, phase: Phase)

  type Requests = map<nat, Request>

  // ---------- descriptors ----------

  ghost predicate InChain(r: Request, head: nat, i: nat) {
    i == head || i == r.second || i == r.third
  }

  /** Chains are disjoint, and a descriptor is free exactly when no chain or reservation has it.
      `owner` names the chain of every descriptor in one. */
  ghost predicate Partitioned(free: seq<bool>, reqs: Requests, owner: map<nat, nat>, reserved: set<nat>) {
    && |free| == QUEUE_SIZE
    && (forall i: nat | i < QUEUE_SIZE :: free[i] <==> i !in owner && i !in reserved)
    && (forall i | i in reserved :: i < QUEUE_SIZE && i !in owner)
    && (forall i | i in owner :: i < QUEUE_SIZE && owner[i] in reqs && InChain(reqs[owner[i]], owner[i], i))
    && (forall h | h in reqs ::
          var r := reqs[h];
          && h in owner && owner[h] == h
          && r.second in owner && owner[r.second] == h
          && r.third in owner && owner[r.third] == h
          && h != r.second && h != r.third && r.second != r.third)
  }

  /** The chain of a request is in memory as section 5.2 of VIRTIO 1.1 wants it. */
  ghost predicate ChainOk(descriptors: seq<Descriptor>, operations: seq<Operation>, info: seq<Info>, h: nat, r: Request) {
    && |descriptors| == |operations| == |info| == QUEUE_SIZE
    && h < QUEUE_SIZE && r.second < QUEUE_SIZE && r.third < QUEUE_SIZE
    && descriptors[h] == Descriptor(Header(h), 16, true, false, r.second)
    && descriptors[r.second] == Descriptor(Data(r.buffer), BLOCK_SIZE, true, !r.write, r.third)
    && descriptors[r.third] == Descriptor(StatusOf(h), 1, false, true, 0)
    && operations[h] == Operation(r.write, r.block * SECTORS_PER_BLOCK)
    && info[h].buffer == Some(r.buffer)
  }

  ghost predicate Chained(descriptors: seq<Descriptor>, operations: seq<Operation>, info: seq<Info>, reqs: Requests) {
    && |descriptors| == |operations| == |info| == QUEUE_SIZE
    && forall h | h in reqs :: ChainOk(descriptors, operations, info, h, reqs[h])
  }

  // ---------- rings ----------

  ghost predicate Distinct(s: seq<nat>) {
    forall i: nat, j: nat | i < j < |s| :: s[i] != s[j]
  }

  /** The ring holds `waiting`, entered at index `start` and after; the reader has the 16-bit index
      `reader`, the writer `writer`. */
  ghost predicate Ring(ring: seq<nat>, reader: nat, writer: nat, start: nat, waiting: seq<nat>) {
    && |ring| == QUEUE_SIZE && |waiting| <= QUEUE_SIZE
    && reader == start % INDEX_LIMIT && writer == (start + |waiting|) % INDEX_LIMIT
    && forall k: nat | k < |waiting| :: ring[Slot(start + k)] == waiting[k]
  }

  function Slot(index: nat): (i: nat)
    ensures i < QUEUE_SIZE
  {
    index % QUEUE_SIZE
  }

  /** A slot is the same whether the index has wrapped or not. */
  lemma SlotWraps(index: nat)
    ensures Slot(index % INDEX_LIMIT) == Slot(index)
  {
  }

  lemma SlotsDiffer(start: nat, j: nat, k: nat)
    requires j < k < j + QUEUE_SIZE
    ensures Slot(start + j) != Slot(start + k)
  {
  }

  /** The reader sees that there is something to read exactly when there is. */
  lemma ReaderSees(ring: seq<nat>, reader: nat, writer: nat, start: nat, waiting: seq<nat>)
    requires Ring(ring, reader, writer, start, waiting)
    ensures reader != writer <==> waiting != []
    ensures |ring| == QUEUE_SIZE
    ensures waiting != [] ==> ring[Slot(reader)] == waiting[0]
  {
    SlotWraps(start);
    if waiting != [] {
      assert ring[Slot(start + 0)] == waiting[0];
    }
  }

  lemma ReaderSteps(ring: seq<nat>, reader: nat, writer: nat, start: nat, waiting: seq<nat>)
    requires Ring(ring, reader, writer, start, waiting) && waiting != []
    ensures Ring(ring, (reader + 1) % INDEX_LIMIT, writer, start + 1, waiting[1..])
  {
    forall k: nat | k < |waiting[1..]| ensures ring[Slot(start + 1 + k)] == waiting[1..][k] {
      assert ring[Slot(start + (k + 1))] == waiting[k + 1];
    }
  }

  /** Writing the next slot overwrites nothing the reader has yet to read. */
  lemma WriterFills(ring: seq<nat>, reader: nat, writer: nat, start: nat, waiting: seq<nat>, x: nat)
    requires Ring(ring, reader, writer, start, waiting) && |waiting| < QUEUE_SIZE
    ensures |ring| == QUEUE_SIZE && Ring(ring[Slot(writer) := x], reader, writer, start, waiting)
    ensures ring[Slot(writer) := x][Slot(start + |waiting|)] == x
  {
    SlotWraps(start + |waiting|);
    forall k: nat | k < |waiting| ensures ring[Slot(writer) := x][Slot(start + k)] == waiting[k] {
      SlotsDiffer(start, k, |waiting|);
    }
  }

  lemma WriterSteps(ring: seq<nat>, reader: nat, writer: nat, start: nat, waiting: seq<nat>, x: nat)
    requires Ring(ring, reader, writer, start, waiting) && |waiting| < QUEUE_SIZE
    requires ring[Slot(start + |waiting|)] == x
    ensures Ring(ring, reader, (writer + 1) % INDEX_LIMIT, start, waiting + [x])
  {
    hide Slot;
  }

  lemma {:induction false} RoomForOne(s: seq<nat>, x: nat, n: nat)
    requires Distinct(s) && x !in s && x < n && forall y | y in s :: y < n
    ensures |s| < n
  {
    AtMost(s + [x], n);
  }

  lemma {:induction false} AtMost(s: seq<nat>, n: nat)
    requires Distinct(s) && forall y | y in s :: y < n
    ensures |s| <= n
    decreases n
  {
    if s == [] {
      return;
    }
    assert s[0] in s;
    if n - 1 in s {
      var i: nat :| i < |s| && s[i] == n - 1;
      var t := s[..i] + s[i + 1..];
      forall y | y in t ensures y < n - 1 {
        assert y in s;
      }
      AtMost(t, n - 1);
    } else {
      AtMost(s, n - 1);
    }
  }

  // ---------- requests ----------

  /** Where each request is: on the available ring, with the device, on the used ring, or handled. */
  ghost predicate Placed(reqs: Requests, queue: seq<nat>, working: set<nat>, processed: set<nat>, done: seq<nat>) {
    && (forall h | h in queue :: h in reqs) && (forall h | h in working :: h in reqs)
    && (forall h | h in processed :: h in reqs) && (forall h | h in done :: h in reqs)
    && (forall h | h in reqs ::
          && (h in queue <==> reqs[h].phase == Queued) && (h in working <==> reqs[h].phase == Working)
          && (h in processed <==> reqs[h].phase == Processed) && (h in done <==> reqs[h].phase == Done))
    && Distinct(queue) && Distinct(done)
  }

  /** No two requests are for the same buffer, or for the same block. */
  ghost predicate Unshared(reqs: Requests) {
    forall h, g | h in reqs && g in reqs && h != g ::
      reqs[h].buffer != reqs[g].buffer && reqs[h].block != reqs[g].block
  }

  /** A buffer is the device's until its completion is handled; a transfer that went well has left
      buffer and disk block the same. */
  ghost predicate RequestOk(r: Request, status: Status, owned: set<nat>, data: map<nat, Block>, disk: map<nat, Block>) {
    && r.buffer in data && r.block in disk
    && (r.buffer in owned <==> r.phase != Handled)
    && (r.phase in {Queued, Working} <==> status == Pending)
    && (r.phase == Handled ==> status == Okay)
    && (r.write ==> data[r.buffer] == r.want) && (!r.write ==> disk[r.block] == r.want)
    && (status == Okay ==> data[r.buffer] == disk[r.block])
  }

  ghost predicate Transferred(reqs: Requests, info: seq<Info>, owned: set<nat>, data: map<nat, Block>, disk: map<nat, Block>) {
    && |info| == QUEUE_SIZE
    && forall h | h in reqs :: h < QUEUE_SIZE && RequestOk(reqs[h], info[h].status, owned, data, disk)
  }

  function Advance(reqs: Requests, h: nat, phase: Phase): Requests
    requires h in reqs
  {
    reqs[h := reqs[h].(phase := phase)]
  }

  lemma AdvancedParts(free: seq<bool>, reqs: Requests, owner: map<nat, nat>, reserved: set<nat>, h: nat, phase: Phase)
    requires Partitioned(free, reqs, owner, reserved) && h in reqs
    ensures Partitioned(free, Advance(reqs, h, phase), owner, reserved)
  {
  }

  lemma AdvancedChains(descriptors: seq<Descriptor>, operations: seq<Operation>, info: seq<Info>, reqs: Requests, h: nat, phase: Phase)
    requires Chained(descriptors, operations, info, reqs) && h in reqs
    ensures Chained(descriptors, operations, info, Advance(reqs, h, phase))
  {
  }

  lemma AdvancedUnshared(reqs: Requests, h: nat, phase: Phase)
    requires Unshared(reqs) && h in reqs
    ensures Unshared(Advance(reqs, h, phase))
  {
  }

  lemma FirstOut(s: seq<nat>)
    requires Distinct(s) && s != []
    ensures Distinct(s[1..]) && s[0] !in s[1..]
    ensures forall x :: x in s <==> x == s[0] || x in s[1..]
  {
    assert s == [s[0]] + s[1..];
  }

  lemma LastIn(s: seq<nat>, x: nat)
    requires Distinct(s) && x !in s
    ensures Distinct(s + [x])
  {
  }

  lemma Taken(reqs: Requests, queue: seq<nat>, working: set<nat>, processed: set<nat>, done: seq<nat>)
    requires Placed(reqs, queue, working, processed, done) && queue != []
    ensures queue[0] in reqs && reqs[queue[0]].phase == Queued
    ensures Placed(Advance(reqs, queue[0], Working), queue[1..], working + {queue[0]}, processed, done)
  {
    hide Distinct;
    FirstOut(queue);
    assert queue[0] in queue;
  }

  lemma WorkDone(reqs: Requests, queue: seq<nat>, working: set<nat>, processed: set<nat>, done: seq<nat>, h: nat)
    requires Placed(reqs, queue, working, processed, done) && h in working
    ensures h in reqs && reqs[h].phase == Working
    ensures Placed(Advance(reqs, h, Processed), queue, working - {h}, processed + {h}, done)
  {
    hide Distinct;
  }

  lemma Pushed(reqs: Requests, queue: seq<nat>, working: set<nat>, processed: set<nat>, done: seq<nat>, h: nat)
    requires Placed(reqs, queue, working, processed, done) && h in processed
    ensures h in reqs && reqs[h].phase == Processed && h !in done
    ensures Placed(Advance(reqs, h, Done), queue, working, processed - {h}, done + [h])
  {
    hide Distinct;
    LastIn(done, h);
  }

  lemma Seen(reqs: Requests, queue: seq<nat>, working: set<nat>, processed: set<nat>, done: seq<nat>)
    requires Placed(reqs, queue, working, processed, done) && done != []
    ensures done[0] in reqs && reqs[done[0]].phase == Done
    ensures Placed(Advance(reqs, done[0], Handled), queue, working, processed, done[1..])
  {
    hide Distinct;
    FirstOut(done);
    assert done[0] in done;
  }

  lemma Published(reqs: Requests, queue: seq<nat>, working: set<nat>, processed: set<nat>, done: seq<nat>, h: nat, r: Request)
    requires Placed(reqs, queue, working, processed, done) && h !in reqs && r.phase == Queued
    ensures h !in queue && Placed(reqs[h := r], queue + [h], working, processed, done)
  {
    hide Distinct;
    LastIn(queue, h);
  }

  lemma Retired(reqs: Requests, queue: seq<nat>, working: set<nat>, processed: set<nat>, done: seq<nat>, h: nat)
    requires Placed(reqs, queue, working, processed, done) && h in reqs && reqs[h].phase == Handled
    ensures Placed(reqs - {h}, queue, working, processed, done)
  {
  }

  // ---------- transfers ----------

  lemma PhaseTransferred(reqs: Requests, info: seq<Info>, owned: set<nat>, data: map<nat, Block>, disk: map<nat, Block>, h: nat, phase: Phase)
    requires Transferred(reqs, info, owned, data, disk) && h in reqs
    requires (reqs[h].phase == Queued && phase == Working) || (reqs[h].phase == Processed && phase == Done)
    ensures Transferred(Advance(reqs, h, phase), info, owned, data, disk)
  {
  }

  /** The device's transfer, if it goes well. */
  lemma Moves(reqs: Requests, info: seq<Info>, owned: set<nat>, data: map<nat, Block>, disk: map<nat, Block>, h: nat)
    requires Transferred(reqs, info, owned, data, disk) && Unshared(reqs) && h in reqs && reqs[h].phase == Working
    requires h < QUEUE_SIZE && reqs[h].buffer in data && reqs[h].block in disk
    ensures var r := reqs[h];
            var info' := info[h := info[h].(status := Okay)];
            && (!r.write ==> Transferred(Advance(reqs, h, Processed), info', owned, data[r.buffer := disk[r.block]], disk))
            && (r.write ==> Transferred(Advance(reqs, h, Processed), info', owned, data, disk[r.block := data[r.buffer]]))
  {
  }

  lemma Fails(reqs: Requests, info: seq<Info>, owned: set<nat>, data: map<nat, Block>, disk: map<nat, Block>, h: nat)
    requires Transferred(reqs, info, owned, data, disk) && h in reqs && reqs[h].phase == Working && h < QUEUE_SIZE
    ensures Transferred(Advance(reqs, h, Processed), info[h := info[h].(status := Failed)], owned, data, disk)
  {
  }

  lemma StatusChains(descriptors: seq<Descriptor>, operations: seq<Operation>, info: seq<Info>, reqs: Requests, h: nat, status: Status)
    requires Chained(descriptors, operations, info, reqs) && h < QUEUE_SIZE
    ensures Chained(descriptors, operations, info[h := info[h].(status := status)], reqs)
  {
  }

  /** The driver's part when it sees a completion that went well. */
  lemma HandsBack(reqs: Requests, info: seq<Info>, owned: set<nat>, data: map<nat, Block>, disk: map<nat, Block>, h: nat)
    requires Transferred(reqs, info, owned, data, disk) && Unshared(reqs) && h in reqs && reqs[h].phase == Done
    requires h < QUEUE_SIZE && info[h].status == Okay
    ensures Transferred(Advance(reqs, h, Handled), info, owned - {reqs[h].buffer}, data, disk)
  {
  }

  // ---------- descriptors change hands ----------

  lemma Reserved(free: seq<bool>, reqs: Requests, owner: map<nat, nat>, reserved: set<nat>, i: nat)
    requires Partitioned(free, reqs, owner, reserved) && i < QUEUE_SIZE && free[i]
    ensures Partitioned(free[i := false], reqs, owner, reserved + {i}) && i !in reserved && i !in owner
  {
  }

  lemma Unreserved(free: seq<bool>, reqs: Requests, owner: map<nat, nat>, reserved: set<nat>, i: nat)
    requires Partitioned(free, reqs, owner, reserved) && i in reserved
    ensures i < QUEUE_SIZE && !free[i] && Partitioned(free[i := true], reqs, owner, reserved - {i})
  {
  }

  /** Three reserved descriptors become a chain. */
  lemma Bound(free: seq<bool>, reqs: Requests, owner: map<nat, nat>, h: nat, r: Request)
    requires Partitioned(free, reqs, owner, {h, r.second, r.third})
    requires h != r.second && h != r.third && r.second != r.third
    ensures h !in reqs && h < QUEUE_SIZE && r.second < QUEUE_SIZE && r.third < QUEUE_SIZE
    ensures Partitioned(free, reqs[h := r], owner[h := h][r.second := h][r.third := h], {})
  {
    hide InChain;
    HeadOwned(free, reqs, owner, {h, r.second, r.third}, h);
    BoundOwners(reqs, owner, h, r);
  }

  lemma HeadOwned(free: seq<bool>, reqs: Requests, owner: map<nat, nat>, reserved: set<nat>, h: nat)
    requires Partitioned(free, reqs, owner, reserved)
    ensures h in reqs ==> h in owner && h !in reserved
  {
  }

  lemma BoundOwners(reqs: Requests, owner: map<nat, nat>, h: nat, r: Request)
    requires h !in reqs
    requires forall i | i in owner :: i < QUEUE_SIZE && owner[i] in reqs && InChain(reqs[owner[i]], owner[i], i)
    ensures var owner' := owner[h := h][r.second := h][r.third := h];
            forall i | i in owner' :: owner'[i] in reqs[h := r] && InChain(reqs[h := r][owner'[i]], owner'[i], i)
  {
  }

  /** The chain of a finished request is reserved again, to be freed. */
  lemma Unbound(free: seq<bool>, reqs: Requests, owner: map<nat, nat>, h: nat)
    requires Partitioned(free, reqs, owner, {}) && h in reqs
    ensures var r := reqs[h];
            && h in owner && r.second in owner && r.third in owner
            && Partitioned(free, reqs - {h}, owner - {h, r.second, r.third}, {h, r.second, r.third})
  {
    hide Partitioned;
    WithoutOne(free, reqs, owner, {}, h);
    assert {} + {h, reqs[h].second, reqs[h].third} == {h, reqs[h].second, reqs[h].third};
  }

  function Below(n: nat): (r: set<nat>)
    ensures |r| == n && forall i: nat :: i in r <==> i < n
  {
    if n == 0 then {} else Below(n - 1) + {n - 1}
  }

  function Frees(free: seq<bool>): set<nat> {
    set i | i in Below(|free|) && free[i]
  }

  /** Three descriptors a request: what is free and what is in flight make up the queue. */
  lemma Accounted(free: seq<bool>, reqs: Requests, owner: map<nat, nat>)
    requires Partitioned(free, reqs, owner, {})
    ensures |Frees(free)| + 3 * |reqs| == QUEUE_SIZE
  {
    hide Below, InChain;
    ThreeEach(free, reqs, owner, {});
    FreeOrOwned(free, reqs, owner);
    Together(Frees(free), owner.Keys);
  }

  lemma FreeOrOwned(free: seq<bool>, reqs: Requests, owner: map<nat, nat>)
    requires Partitioned(free, reqs, owner, {})
    ensures Frees(free) + owner.Keys == Below(QUEUE_SIZE) && Frees(free) !! owner.Keys
  {
    hide Below, InChain;
  }

  lemma Together(a: set<nat>, b: set<nat>)
    requires a !! b
    ensures |a + b| == |a| + |b|
  {
  }

  lemma {:induction false} ThreeEach(free: seq<bool>, reqs: Requests, owner: map<nat, nat>, reserved: set<nat>)
    requires Partitioned(free, reqs, owner, reserved)
    ensures |owner.Keys| == 3 * |reqs|
    decreases |reqs.Keys|
  {
    if reqs.Keys == {} {
      NoneOwned(free, reqs, owner, reserved);
    } else {
      hide Partitioned;
      var h :| h in reqs.Keys;
      var r := reqs[h];
      WithoutOne(free, reqs, owner, reserved, h);
      assert (reqs - {h}).Keys == reqs.Keys - {h};
      ThreeEach(free, reqs - {h}, owner - {h, r.second, r.third}, reserved + {h, r.second, r.third});
      ThreeDistinct(free, reqs, owner, reserved, h);
      assert (owner - {h, r.second, r.third}).Keys == owner.Keys - {h, r.second, r.third};
    }
  }

  lemma NoneOwned(free: seq<bool>, reqs: Requests, owner: map<nat, nat>, reserved: set<nat>)
    requires Partitioned(free, reqs, owner, reserved) && reqs.Keys == {}
    ensures owner.Keys == {} && |reqs| == 0
  {
  }

  lemma ThreeDistinct(free: seq<bool>, reqs: Requests, owner: map<nat, nat>, reserved: set<nat>, h: nat)
    requires Partitioned(free, reqs, owner, reserved) && h in reqs
    ensures {h, reqs[h].second, reqs[h].third} <= owner.Keys && |{h, reqs[h].second, reqs[h].third}| == 3
  {
  }

  lemma WithoutOne(free: seq<bool>, reqs: Requests, owner: map<nat, nat>, reserved: set<nat>, h: nat)
    requires Partitioned(free, reqs, owner, reserved) && h in reqs
    ensures var r := reqs[h];
            && h in owner && r.second in owner && r.third in owner
            && Partitioned(free, reqs - {h}, owner - {h, r.second, r.third}, reserved + {h, r.second, r.third})
  {
  }

  // ---------- what the device does to the requests ----------

  /** The requests are the same, and only the driver has handled any. */
  ghost predicate Onward(reqs: Requests, reqs': Requests) {
    && reqs'.Keys == reqs.Keys
    && forall h | h in reqs ::
         && reqs'[h] == reqs[h].(phase := reqs'[h].phase)
         && (reqs'[h].phase == Handled <==> reqs[h].phase == Handled)
  }

  lemma OnwardSame(reqs: Requests)
    ensures Onward(reqs, reqs)
  {
  }

  lemma OnwardTwice(reqs: Requests, reqs1: Requests, reqs2: Requests)
    requires Onward(reqs, reqs1) && Onward(reqs1, reqs2)
    ensures Onward(reqs, reqs2)
  {
  }

  /** What advancing a request keeps. */
  lemma Advanced(free: seq<bool>, owner: map<nat, nat>, reserved: set<nat>, descriptors: seq<Descriptor>,
                 operations: seq<Operation>, info: seq<Info>, reqs: Requests, h: nat, phase: Phase)
    requires Partitioned(free, reqs, owner, reserved) && Chained(descriptors, operations, info, reqs) && Unshared(reqs)
    requires h in reqs
    ensures Partitioned(free, Advance(reqs, h, phase), owner, reserved)
    ensures Chained(descriptors, operations, info, Advance(reqs, h, phase))
    ensures Unshared(Advance(reqs, h, phase))
    ensures reqs[h].phase != Handled && phase != Handled ==> Onward(reqs, Advance(reqs, h, phase))
  {
    AdvancedParts(free, reqs, owner, reserved, h, phase);
    AdvancedChains(descriptors, operations, info, reqs, h, phase);
    AdvancedUnshared(reqs, h, phase);
  }

  /** What a device finds when it follows a chain from its head. */
  lemma ChainRead(descriptors: seq<Descriptor>, operations: seq<Operation>, info: seq<Info>, reqs: Requests, h: nat)
    requires Chained(descriptors, operations, info, reqs) && h in reqs
    ensures |descriptors| == |operations| == |info| == QUEUE_SIZE && h < QUEUE_SIZE
    ensures var r := reqs[h];
            && r.second < QUEUE_SIZE && r.third < QUEUE_SIZE
            && descriptors[h].address == Header(h) && descriptors[h].nextIndex == r.second
            && operations[h].write == r.write && operations[h].sector * SECTOR_SIZE == r.block * BLOCK_SIZE
            && descriptors[r.second].address == Data(r.buffer) && descriptors[r.second].write == !r.write
            && descriptors[r.second].nextIndex == r.third && descriptors[r.third].address == StatusOf(h)
            && info[h].buffer == Some(r.buffer)
            && descriptors[h].next && descriptors[r.second].next && !descriptors[r.third].next
  {
    assert ChainOk(descriptors, operations, info, h, reqs[h]);
  }
}
