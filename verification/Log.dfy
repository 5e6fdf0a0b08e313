/** The log: absorbing writes, committing them through the buffer cache, and recovering. */
module Logging {
  import opened Blocks
  import opened Journal
  import opened BufferCaching
  import opened Reservations
  import opened Wrappers

  /** The panics of log.write. */
  datatype Refusal = TooBigTransaction | OutsideTransaction

  // ---------- how many buffers are referenced ----------

  /** Blocks that the log has pinned and blocks that others are reading. */
  function Busy(pins: seq<nat>, readers: seq<nat>): set<nat> {
    (set n | n in pins) + (set n | n in readers)
  }

  function Range(n: nat): (r: set<nat>)
    ensures |r| == n
    ensures forall i: nat :: i in r <==> i < n
  {
    if n == 0 then {} else Range(n - 1) + {n - 1}
  }

  /** The buffers caching the blocks of `s`. */
  function Slots(s: set<nat>, slot: map<nat, nat>): set<nat>
    requires forall n | n in s :: n in slot
  {
    set n | n in s :: slot[n]
  }

  lemma {:induction false} SlotsSize(s: set<nat>, slot: map<nat, nat>)
    requires forall n | n in s :: n in slot
    requires forall n, m | n in s && m in s && n != m :: slot[n] != slot[m]
    ensures |Slots(s, slot)| == |s|
    decreases |s|
  {
    if s != {} {
      var n :| n in s;
      SlotsSize(s - {n}, slot);
      assert Slots(s, slot) == Slots(s - {n}, slot) + {slot[n]};
    }
  }

  lemma {:induction false} BusySize(h: seq<nat>)
    requires Distinct(h)
    ensures |Busy(h, [])| == |h|
    decreases |h|
  {
    if h == [] {
      assert Busy(h, []) == {};
    } else {
      var front, last := h[..|h| - 1], h[|h| - 1];
      BusySize(front);
      assert h == front + [last];
      assert last !in Busy(front, []);
      assert Busy(h, []) == Busy(front, []) + {last};
    }
  }

  /** A header of distinct blocks and one reader of another block keep one buffer more busy than the header
      alone: with 29 blocks in the header, all thirty. */
  lemma OneReader(h: seq<nat>, n: nat)
    requires Distinct(h) && n !in h
    ensures |Busy(h, [n])| == |h| + 1
  {
    BusySize(h);
    assert n !in Busy(h, []);
    assert Busy(h, [n]) == Busy(h, []) + {n};
  }

  /** The books at a moment when nothing is held but by readers. */
  ghost predicate Booked(bs: seq<Buffer>, g: Books, d: DiskState, pins: seq<nat>, readers: seq<nat>) {
    Consistent(bs, g, d) && g.held == multiset(readers) && g.pinned == multiset(pins)
  }

  /** A busy block is in a buffer of its own. */
  lemma BusySlots(bs: seq<Buffer>, g: Books, d: DiskState, pins: seq<nat>, readers: seq<nat>)
    requires Booked(bs, g, d, pins, readers)
    ensures forall n | n in Busy(pins, readers) ::
              n in g.slot && g.slot[n] < NBUF && bs[g.slot[n]].block == Numbered(n) && bs[g.slot[n]].referenceCount > 0
    ensures |bs| == NBUF && |Slots(Busy(pins, readers), g.slot)| == |Busy(pins, readers)|
    ensures Slots(Busy(pins, readers), g.slot) <= Range(NBUF)
  {
    hide Range;
    forall n | n in Busy(pins, readers)
      ensures n in g.slot && g.slot[n] < NBUF && bs[g.slot[n]].block == Numbered(n) && bs[g.slot[n]].referenceCount > 0
    {
      assert n in g.held || n in g.pinned;
    }
    SlotsSize(Busy(pins, readers), g.slot);
  }

  lemma PinnedCached(bs: seq<Buffer>, g: Books, d: DiskState, n: nat)
    requires Consistent(bs, g, d) && n in g.pinned
    ensures n in g.slot
  {
  }

  /** A referenced buffer caches a busy block. */
  lemma ReferencedIsBusy(bs: seq<Buffer>, g: Books, d: DiskState, pins: seq<nat>, readers: seq<nat>, b: nat)
    requires Booked(bs, g, d, pins, readers) && b < NBUF && bs[b].referenceCount > 0
    ensures exists n :: n in Busy(pins, readers) && n in g.slot && g.slot[n] == b
  {
    assert bs[b].block.Numbered?;
    var n := bs[b].block.number;
    assert n in g.held || n in g.pinned;
    assert n in Busy(pins, readers) && g.slot[n] == b;
  }

  /** All buffers are referenced exactly if as many blocks are busy as there are buffers; then no other
      block is cached. */
  lemma AllBusy(bs: seq<Buffer>, g: Books, d: DiskState, pins: seq<nat>, readers: seq<nat>)
    requires Booked(bs, g, d, pins, readers)
    ensures AllReferenced(bs) <==> |Busy(pins, readers)| >= NBUF
    ensures AllReferenced(bs) ==> forall n | n in g.slot :: n in Busy(pins, readers)
  {
    hide Range, Counted, Coherent, Booked, Busy;
    BusySlots(bs, g, d, pins, readers);
    var used := Slots(Busy(pins, readers), g.slot);
    if AllReferenced(bs) {
      forall b: nat | b < NBUF ensures b in used {
        ReferencedIsBusy(bs, g, d, pins, readers, b);
      }
      assert Range(NBUF) <= used;
      SubsetSize(Range(NBUF), used);
      forall n | n in g.slot ensures n in Busy(pins, readers) {
        OwnBuffer(bs, g, d, pins, readers, n);
      }
    }
    if |Busy(pins, readers)| >= NBUF {
      SubsetSize(used, Range(NBUF));
      forall b: nat | b < NBUF ensures bs[b].referenceCount > 0 {
        assert b in used;
      }
    }
  }

  lemma OwnBuffer(bs: seq<Buffer>, g: Books, d: DiskState, pins: seq<nat>, readers: seq<nat>, n: nat)
    requires Booked(bs, g, d, pins, readers) && AllReferenced(bs) && n in g.slot
    ensures n in Busy(pins, readers)
  {
    assert bs[g.slot[n]].block == Numbered(n);
    assert n in g.held || n in g.pinned;
  }

  /** The latest contents of the blocks in the header. */
  function Pending(view: DiskState, h: seq<nat>): (vals: seq<Block>)
    requires forall i | 0 <= i < |h| :: h[i] < |view|
    ensures |vals| == |h|
  {
    seq(|h|, i requires 0 <= i < |h| => view[h[i]])
  }

  /** What writeLog has to write. */
  function ToLog(r: Region, view: DiskState, h: seq<nat>): (ws: seq<Write>)
    requires Loggable(r, |view|, h)
    ensures |ws| == |h|
  {
    LogWrites(r, Pending(view, h))
  }

  /** A logged block's contents do not change while others are copied to the log. */
  lemma LogRound(r: Region, h: seq<nat>, tail: nat, s: Snapshot, s1: Snapshot)
    requires Loggable(r, |s.view|, h) && tail < |h| && Performed(s, s1, ToLog(r, s.view, h)[..tail])
    ensures |s1.view| == |s.view| && h[tail] < |s.view|
    ensures ToLog(r, s.view, h)[tail] == Write(r.start + 1 + tail, s1.view[h[tail]])
  {
    hide Performed;
    PerformedElsewhere(s, s1, ToLog(r, s.view, h)[..tail], h[tail]);
  }

  /** Log blocks do not change while their contents are installed. */
  lemma InstallRound(r: Region, h: seq<nat>, vals: seq<Block>, tail: nat, s: Snapshot, s1: Snapshot)
    requires Loggable(r, |s.view|, h) && tail < |h| == |vals|
    requires s.view[r.start + 1 + tail] == vals[tail]
    requires Performed(s, s1, InstallWrites(h, vals)[..tail])
    ensures |s1.view| == |s.view| && r.start + 1 + tail < |s.view|
    ensures InstallWrites(h, vals)[tail] == Write(h[tail], s1.view[r.start + 1 + tail])
  {
    hide Performed;
    PerformedElsewhere(s, s1, InstallWrites(h, vals)[..tail], r.start + 1 + tail);
  }

  /** The writes of commit, phase by phase. */
  lemma CommitPerformed(r: Region, h: seq<nat>, s0: Snapshot, s1: Snapshot, s2: Snapshot, s3: Snapshot, s4: Snapshot)
    requires Loggable(r, |s0.view|, h) && h != [] && |s0.view| == |s0.disk| && s0.view[r.start] == s0.disk[r.start]
    requires Performed(s0, s1, ToLog(r, s0.view, h))
    requires r.start < |s1.view| && Stored(s1, s2, Write(r.start, EncodeHeader(s1.view[r.start], h)))
    requires Performed(s2, s3, InstallWrites(h, Pending(s0.view, h)))
    requires r.start < |s3.view| && Stored(s3, s4, Write(r.start, EncodeHeader(s3.view[r.start], [])))
    ensures var ws := CommitWrites(r, s0.disk, h, Pending(s0.view, h)); |ws| == 2 * |h| + 2 && Performed(s0, s4, ws[..2 * |h| + 2])
  {
    var vals := Pending(s0.view, h);
    hide Performed, Stored, EncodeHeader, Pending;
    PerformedElsewhere(s0, s1, ToLog(r, s0.view, h), r.start);
    StoredFacts(s1, s2, Write(r.start, EncodeHeader(s1.view[r.start], h)));
    PerformedElsewhere(s2, s3, InstallWrites(h, vals), r.start);
    PerformedOne(s1, s2, Write(r.start, EncodeHeader(s1.view[r.start], h)));
    PerformedOne(s3, s4, Write(r.start, EncodeHeader(s3.view[r.start], [])));
    PerformedThen(s0, s1, s2, ToLog(r, s0.view, h), [Write(r.start, EncodeHeader(s1.view[r.start], h))]);
    PerformedThen(s0, s2, s3, ToLog(r, s0.view, h) + [Write(r.start, EncodeHeader(s1.view[r.start], h))],
                  InstallWrites(h, vals));
    PerformedThen(s0, s3, s4, ToLog(r, s0.view, h) + [Write(r.start, EncodeHeader(s1.view[r.start], h))]
                              + InstallWrites(h, vals), [Write(r.start, EncodeHeader(s3.view[r.start], []))]);
    assert CommitWrites(r, s0.disk, h, vals)[..2 * |h| + 2] == CommitWrites(r, s0.disk, h, vals);
  }

  /** A commit stopped while it installs has performed the front of its writes. */
  lemma InstallingPerformed(r: Region, h: seq<nat>, s0: Snapshot, s1: Snapshot, s2: Snapshot, s3: Snapshot, j: nat)
    requires Loggable(r, |s0.view|, h) && h != [] && |s0.view| == |s0.disk| && s0.view[r.start] == s0.disk[r.start]
    requires Performed(s0, s1, ToLog(r, s0.view, h))
    requires r.start < |s1.view| && Stored(s1, s2, Write(r.start, EncodeHeader(s1.view[r.start], h)))
    requires j <= |h| && Performed(s2, s3, InstallWrites(h, Pending(s0.view, h))[..j])
    ensures var ws := CommitWrites(r, s0.disk, h, Pending(s0.view, h));
            |h| + 1 + j <= |ws| && Performed(s0, s3, ws[..|h| + 1 + j])
  {
    var vals := Pending(s0.view, h);
    hide Performed, Stored, EncodeHeader, Pending;
    PerformedElsewhere(s0, s1, ToLog(r, s0.view, h), r.start);
    var head := [Write(r.start, EncodeHeader(s1.view[r.start], h))];
    PerformedOne(s1, s2, head[0]);
    PerformedThen(s0, s1, s2, ToLog(r, s0.view, h), head);
    PerformedThen(s0, s2, s3, ToLog(r, s0.view, h) + head, InstallWrites(h, vals)[..j]);
    assert CommitWrites(r, s0.disk, h, vals)[..|h| + 1 + j] == ToLog(r, s0.view, h) + head + InstallWrites(h, vals)[..j];
  }

  lemma LoggingPerformed(r: Region, h: seq<nat>, s0: Snapshot, s1: Snapshot, k: nat)
    requires Loggable(r, |s0.disk|, h) && h != [] && |s0.view| == |s0.disk|
    requires k <= |h| && Performed(s0, s1, ToLog(r, s0.view, h)[..k])
    ensures var ws := CommitWrites(r, s0.disk, h, Pending(s0.view, h));
            k <= |ws| && Performed(s0, s1, ws[..k])
  {
    hide Performed, EncodeHeader, Pending;
    assert CommitWrites(r, s0.disk, h, Pending(s0.view, h))[..k] == ToLog(r, s0.view, h)[..k];
  }

  /** Wherever a commit stops, recovery makes all of the transaction's blocks old or all of them new. */
  lemma StoppedCommit(r: Region, h: seq<nat>, s0: Snapshot, s: Snapshot, k: nat)
    requires Quiet(r, s0.disk) && Loggable(r, |s0.disk|, h) && |s0.view| == |s0.disk|
    requires k <= |CommitWrites(r, s0.disk, h, Pending(s0.view, h))|
    requires Performed(s0, s, CommitWrites(r, s0.disk, h, Pending(s0.view, h))[..k])
    ensures Recoverable(r, s.disk)
    ensures SameHome(r, Recovered(r, s.disk), if k <= |h| then s0.disk else Installed(s0.disk, h, Pending(s0.view, h)))
  {
    hide CommitWrites, Pending, Quiet, Recoverable, Recovered, Apply;
    CommitIsAtomic(r, s0.disk, h, Pending(s0.view, h), k);
  }

  /** After the header is written, the log still holds what goes home. */
  lemma ReadyToInstall(r: Region, h: seq<nat>, s0: Snapshot, s1: Snapshot, s2: Snapshot)
    requires Loggable(r, |s0.view|, h)
    requires Performed(s0, s1, ToLog(r, s0.view, h))
    requires r.start < |s1.view| && Stored(s1, s2, Write(r.start, EncodeHeader(s1.view[r.start], h)))
    ensures |s2.view| == |s0.view| && Fits(r, |s0.view|)
    ensures forall i | 0 <= i < |h| :: s2.view[r.start + 1 + i] == Pending(s0.view, h)[i]
  {
    hide EncodeHeader, Apply;
    var ws := ToLog(r, s0.view, h);
    forall i | 0 <= i < |h| ensures s1.view[r.start + 1 + i] == Pending(s0.view, h)[i] {
      PerformedAt(s0, s1, ws, i);
    }
  }

  lemma StoredFacts(s: Snapshot, s': Snapshot, w: Write)
    requires Stored(s, s', w)
    ensures |s'.view| == |s'.disk| == |s.view| && w.number < |s.view|
    ensures s'.view[w.number] == s'.disk[w.number] == w.data
  {
  }

  /** Clearing the header leaves a quiet disk. */
  lemma ClearedIsQuiet(r: Region, s: Snapshot, s': Snapshot)
    requires Fits(r, |s.view|) && Stored(s, s', Write(r.start, EncodeHeader(s.view[r.start], [])))
    ensures |s'.view| == |s'.disk| == |s.view| && s'.view[r.start] == s'.disk[r.start] && Quiet(r, s'.disk)
    ensures Loggable(r, |s'.view|, [])
  {
    HeaderRoundTrip(s.view[r.start], []);
  }

  /** The log blocks the header on disk counts. */
  function LogContents(r: Region, d: DiskState): (vals: seq<Block>)
    requires r.start < |d| && HeaderLength(d[r.start]) <= LOG_SIZE && r.start + 1 + HeaderLength(d[r.start]) <= |d|
    ensures |vals| == HeaderLength(d[r.start])
    ensures forall i | 0 <= i < |vals| :: vals[i] == d[r.start + 1 + i]
  {
    d[r.start + 1..r.start + 1 + HeaderLength(d[r.start])]
  }

  lemma RecoverableFacts(r: Region, d: DiskState)
    requires Recoverable(r, d)
    ensures Fits(r, |d|) && HeaderLength(d[r.start]) <= LOG_SIZE && r.start + 1 + HeaderLength(d[r.start]) <= |d|
    ensures Loggable(r, |d|, HeaderList(d[r.start]))
  {
  }

  /** The writes of recovery. */
  lemma RecoverPerformed(r: Region, s0: Snapshot, s1: Snapshot, s2: Snapshot)
    requires Recoverable(r, s0.disk) && s0.view == s0.disk
    requires Performed(s0, s1, InstallWrites(HeaderList(s0.disk[r.start]), LogContents(r, s0.disk)))
    requires r.start < |s1.view| && Stored(s1, s2, Write(r.start, EncodeHeader(s1.view[r.start], [])))
    ensures Performed(s0, s2, RecoverWrites(r, s0.disk))
    ensures s2.disk == Recovered(r, s0.disk)
  {
    var ws := InstallWrites(HeaderList(s0.disk[r.start]), LogContents(r, s0.disk));
    PerformedElsewhere(s0, s1, ws, r.start);
    PerformedOne(s1, s2, Write(r.start, EncodeHeader(s1.view[r.start], [])));
    PerformedThen(s0, s1, s2, ws, [Write(r.start, EncodeHeader(s1.view[r.start], []))]);
  }

  lemma NothingToWrite(r: Region, s: Snapshot)
    requires Fits(r, |s.disk|) && |s.view| == |s.disk|
    ensures Loggable(r, |s.disk|, [])
    ensures var ws := CommitWrites(r, s.disk, [], Pending(s.view, [])); |ws| == 0 && Performed(s, s, ws[..0])
  {
  }

  lemma LoggableMore(g: Region, n: nat, h: seq<nat>, b: nat)
    requires Loggable(g, n, h) && b !in h && b < n && !g.IsLog(b)
    requires !Full(|h|, g.size)
    ensures Loggable(g, n, h + [b])
    ensures multiset(h + [b]) == multiset(h) + multiset{b}
  {
  }

  // ---------- readers ----------

  ghost predicate HasBuffer(bs: seq<Buffer>, g: Books, n: nat) {
    exists b: nat :: Holds(bs, g, b) && bs[b].block == Numbered(n)
  }

  /** Contents the disk does not have are pinned. */
  ghost predicate Clean(view: DiskState, d: DiskState, pinned: multiset<nat>) {
    |view| == |d| && forall n | 0 <= n < |d| && view[n] != d[n] :: n in pinned
  }

  /** Whoever holds a buffer only reads it, and none reads the log. */
  ghost predicate ReadOnly(r: Region, bs: seq<Buffer>, g: Books, d: DiskState, readers: seq<nat>) {
    && g.held == multiset(readers) && Clean(g.view, d, g.pinned)
    && forall n | n in readers :: !r.IsLog(n) && HasBuffer(bs, g, n)
  }

  /** Who holds a buffer of a block in `held` still does. */
  ghost predicate KeepsHolds(bs: seq<Buffer>, g: Books, bs': seq<Buffer>, g': Books, held: multiset<nat>) {
    forall b: nat | Holds(bs, g, b) && bs[b].block.number in held :: Holds(bs', g', b) && bs'[b].block == bs[b].block
  }

  lemma StillReadOnly(r: Region, bs: seq<Buffer>, g: Books, d: DiskState, bs': seq<Buffer>, g': Books, d': DiskState, readers: seq<nat>)
    requires ReadOnly(r, bs, g, d, readers) && KeepsHolds(bs, g, bs', g', g.held)
    requires g'.held == g.held && Clean(g'.view, d', g'.pinned)
    ensures ReadOnly(r, bs', g', d', readers)
  {
    hide Clean;
    forall n | n in readers ensures HasBuffer(bs', g', n) {
      var b: nat :| Holds(bs, g, b) && bs[b].block == Numbered(n);
      assert n in g.held;
    }
  }

  lemma KeepsTwice(bs: seq<Buffer>, g: Books, bs1: seq<Buffer>, g1: Books, bs2: seq<Buffer>, g2: Books, held: multiset<nat>)
    requires KeepsHolds(bs, g, bs1, g1, g.held) && KeepsHolds(bs1, g1, bs2, g2, held)
    ensures KeepsHolds(bs, g, bs2, g2, held)
  {
  }

  /** A round takes two buffers, or one, and gives them back. */
  lemma RoundReadOnly(r: Region, bs: seq<Buffer>, g: Books, d: DiskState, bs1: seq<Buffer>, g1: Books,
                      bs2: seq<Buffer>, g2: Books, d2: DiskState, readers: seq<nat>)
    requires ReadOnly(r, bs, g, d, readers) && KeepsHolds(bs, g, bs1, g1, g.held)
    requires KeepsHolds(bs1, g1, bs2, g2, g2.held) && g2.held == g.held && Clean(g2.view, d2, g2.pinned)
    ensures ReadOnly(r, bs2, g2, d2, readers)
  {
    hide ReadOnly, Clean;
    KeepsTwice(bs, g, bs1, g1, bs2, g2, g2.held);
    StillReadOnly(r, bs, g, d, bs2, g2, d2, readers);
  }

  lemma CleanStored(s: Snapshot, s': Snapshot, w: Write, pinned: multiset<nat>, pinned': multiset<nat>)
    requires Clean(s.view, s.disk, pinned) && Stored(s, s', w)
    requires forall n | n != w.number :: pinned'[n] == pinned[n]
    ensures Clean(s'.view, s'.disk, pinned')
  {
  }

  lemma MoreReaders(r: Region, bs: seq<Buffer>, g: Books, bs': seq<Buffer>, g': Books, d: DiskState, readers: seq<nat>, n: nat, b: nat)
    requires ReadOnly(r, bs, g, d, readers) && !r.IsLog(n)
    requires g' == g.(held := g.held + multiset{n}, slot := g'.slot) && Holds(bs', g', b) && bs'[b].block == Numbered(n)
    requires forall c: nat | Holds(bs, g, c) :: Holds(bs', g', c) && SameButCount(bs'[c], bs[c])
    ensures ReadOnly(r, bs', g', d, readers + [n])
  {
    forall m | m in readers + [n] ensures !r.IsLog(m) && HasBuffer(bs', g', m) {
      if m in readers {
        var c: nat :| Holds(bs, g, c) && bs[c].block == Numbered(m);
        assert Holds(bs', g', c);
      }
    }
  }

  lemma ReaderHas(r: Region, bs: seq<Buffer>, g: Books, d: DiskState, readers: seq<nat>, n: nat)
    requires Consistent(bs, g, d) && ReadOnly(r, bs, g, d, readers) && n in readers
    ensures n in g.slot && Holds(bs, g, g.slot[n]) && bs[g.slot[n]].block == Numbered(n)
    ensures n in g.pinned || OnDisk(n, bs[g.slot[n]].data, d)
  {
    hide Counted;
    var b: nat :| Holds(bs, g, b) && bs[b].block == Numbered(n);
  }

  lemma FewerReaders(r: Region, bs: seq<Buffer>, g: Books, bs': seq<Buffer>, g': Books, d: DiskState,
                     readers: seq<nat>, readers': seq<nat>, i: nat)
    requires ReadOnly(r, bs, g, d, readers) && i < |readers| && readers' == readers[..i] + readers[i + 1..]
    requires g' == g.(held := g.held - multiset{readers[i]}) && |bs'| == NBUF
    requires forall c | 0 <= c < NBUF :: |bs| == NBUF && SameButCount(bs'[c], bs[c])
    ensures ReadOnly(r, bs', g', d, readers')
  {
    assert readers == readers[..i] + [readers[i]] + readers[i + 1..];
    assert g'.held == multiset(readers');
    forall m | m in readers' ensures !r.IsLog(m) && HasBuffer(bs', g', m) {
      assert m in readers && m in g'.held;
      var c: nat :| Holds(bs, g, c) && bs[c].block == Numbered(m);
      assert Holds(bs', g', c);
    }
  }

  lemma HeadSpace(bs: seq<Buffer>, g: Books, d: DiskState, r: Region, pins: seq<nat>, readers: seq<nat>)
    requires Booked(bs, g, d, pins, readers) && ReadOnly(r, bs, g, d, readers)
    requires Fits(r, |g.view|) && forall n | n in pins :: !r.IsLog(n)
    ensures AllReferenced(bs) <==> |Busy(pins, readers)| >= NBUF
    ensures AllReferenced(bs) ==> r.start !in g.slot
    ensures r.start !in g.pinned && r.start !in g.held
  {
    hide Range, Slots, Indexed, Counted, Coherent, HasBuffer, Clean;
    AllBusy(bs, g, d, pins, readers);
    assert r.IsLog(r.start);
  }

  /** What copying a logged block to or from the log relies on. */
  lemma LogSpace(bs: seq<Buffer>, g: Books, d: DiskState, r: Region, h: seq<nat>, readers: seq<nat>, tail: nat)
    requires Booked(bs, g, d, h, readers) && ReadOnly(r, bs, g, d, readers)
    requires Loggable(r, |g.view|, h) && tail < |h|
    ensures h[tail] < |g.view| && h[tail] in g.pinned
    ensures r.start + 1 + tail < |g.view| == |d| && r.start + 1 + tail != h[tail]
    ensures AllReferenced(bs) <==> |Busy(h, readers)| >= NBUF
    ensures AllReferenced(bs) ==> r.start + 1 + tail !in g.slot
  {
    hide Range, Slots, Indexed, Counted, Coherent, HasBuffer, Clean;
    AllBusy(bs, g, d, h, readers);
    assert r.start + 1 + tail !in h;
  }

  lemma HomeSpace(bs: seq<Buffer>, g: Books, d: DiskState, r: Region, h: seq<nat>, readers: seq<nat>, tail: nat, isRecovering: bool)
    requires Loggable(r, |g.view|, h) && tail < |h|
    requires Booked(bs, g, d, if isRecovering then [] else h[tail..], readers) && ReadOnly(r, bs, g, d, readers)
    ensures h[tail] < |g.view| && r.start + 1 + tail < |g.view| == |d| && r.start + 1 + tail != h[tail]
    ensures AllReferenced(bs) <==> |Busy(if isRecovering then [] else h[tail..], readers)| >= NBUF
    ensures AllReferenced(bs) ==> r.start + 1 + tail !in g.slot
    ensures !isRecovering ==> h[tail] in g.pinned
    ensures r.start + 1 + tail !in g.pinned && g.view[r.start + 1 + tail] == d[r.start + 1 + tail]
  {
    hide Range, Slots, Indexed, Counted, Coherent, HasBuffer;
    var rest := if isRecovering then [] else h[tail..];
    AllBusy(bs, g, d, rest, readers);
    assert r.start + 1 + tail !in rest;
  }

  lemma FewerBusy(h: seq<nat>, tail: nat, readers: seq<nat>)
    requires tail <= |h|
    ensures |Busy(h[tail..], readers)| <= |Busy(h, readers)|
  {
    SubsetSize(Busy(h[tail..], readers), Busy(h, readers));
  }

  lemma DropOne(h: seq<nat>, tail: nat)
    requires tail < |h|
    ensures multiset(h[tail..]) - multiset{h[tail]} == multiset(h[tail + 1..])
  {
    assert h[tail..] == [h[tail]] + h[tail + 1..];
  }

  predicate OnDisk(n: nat, data: Block, d: DiskState) {
    n < |d| && data == d[n]
  }

  /** Latest contents, disk contents and the history of disk writes at one moment. */
  datatype Snapshot = Snapshot(view: DiskState, disk: DiskState, writes: seq<Write>)

  /** Block contents `w` became a block's latest and reached the disk. */
  ghost predicate Stored(s: Snapshot, s': Snapshot, w: Write) {
    && w.number < |s.view| == |s.disk|
    && s' == Snapshot(s.view[w.number := w.data], s.disk[w.number := w.data], s.writes + [w])
  }

  /** Writes `rs` were performed in order, each through to the disk. */
  ghost predicate Performed(s: Snapshot, s': Snapshot, rs: seq<Write>) {
    && |s.view| == |s.disk|
    && (forall i | 0 <= i < |rs| :: rs[i].number < |s.disk|)
    && s' == Snapshot(Apply(s.view, rs), Apply(s.disk, rs), s.writes + rs)
  }

  lemma PerformedNone(s: Snapshot)
    requires |s.view| == |s.disk|
    ensures Performed(s, s, [])
  {
  }

  lemma PerformedMore(s: Snapshot, s1: Snapshot, s2: Snapshot, rs: seq<Write>, k: nat)
    requires k < |rs| && Performed(s, s1, rs[..k]) && Stored(s1, s2, rs[k])
    ensures Performed(s, s2, rs[..k + 1])
  {
    assert rs[..k + 1][..k] == rs[..k];
    assert rs[..k + 1] == rs[..k] + [rs[k]];
  }

  lemma PerformedThen(s: Snapshot, s1: Snapshot, s2: Snapshot, rs: seq<Write>, rs': seq<Write>)
    requires Performed(s, s1, rs) && Performed(s1, s2, rs')
    ensures Performed(s, s2, rs + rs')
  {
    hide Apply;
    ApplyConcat(s.view, rs, rs');
    ApplyConcat(s.disk, rs, rs');
  }

  lemma PerformedOne(s: Snapshot, s1: Snapshot, w: Write)
    requires Stored(s, s1, w)
    ensures Performed(s, s1, [w])
  {
    AppliedOne(s.view, w);
    AppliedOne(s.disk, w);
  }

  lemma PerformedSizes(s: Snapshot, s1: Snapshot, rs: seq<Write>)
    requires Performed(s, s1, rs)
    ensures |s1.view| == |s1.disk| == |s.view| == |s.disk|
    ensures rs == [] ==> s1 == s
  {
  }

  /** Performed writes leave other blocks as they were. */
  lemma PerformedElsewhere(s: Snapshot, s1: Snapshot, rs: seq<Write>, b: nat)
    requires Performed(s, s1, rs) && b < |s.view|
    requires forall i | 0 <= i < |rs| :: rs[i].number != b
    ensures |s1.view| == |s1.disk| == |s.view| == |s.disk|
    ensures s1.view[b] == s.view[b] && s1.disk[b] == s.disk[b]
  {
    ApplyElsewhere(s.view, rs, b);
    ApplyElsewhere(s.disk, rs, b);
  }

  /** A block written once has what was written. */
  lemma PerformedAt(s: Snapshot, s1: Snapshot, rs: seq<Write>, i: nat)
    requires Performed(s, s1, rs) && i < |rs|
    requires forall j | i < j < |rs| :: rs[j].number != rs[i].number
    ensures |s1.view| == |s1.disk| == |s.view| == |s.disk| && rs[i].number < |s.view|
    ensures s1.view[rs[i].number] == s1.disk[rs[i].number] == rs[i].data
  {
    ApplyAt(s.view, rs, i);
    ApplyAt(s.disk, rs, i);
  }

  lemma ReferencedIsHeld(bs: seq<Buffer>, g: Books, d: DiskState, n: nat, b: nat)
    requires Consistent(bs, g, d) && g.held == multiset{n} && g.pinned == multiset{}
    requires b < NBUF && bs[b].referenceCount > 0
    ensures n in g.slot && g.slot[n] == b
  {
  }

  /** With one block held and none pinned there is a free buffer. */
  lemma FreeBesides(bs: seq<Buffer>, g: Books, d: DiskState, n: nat)
    requires Consistent(bs, g, d) && g.held == multiset{n} && g.pinned == multiset{}
    ensures !AllReferenced(bs)
  {
    if AllReferenced(bs) {
      assert bs[0].referenceCount > 0 && bs[1].referenceCount > 0;
      ReferencedIsHeld(bs, g, d, n, 0);
      ReferencedIsHeld(bs, g, d, n, 1);
      assert false;
    }
  }

  class Log {
    const cache: Cache
    const region: Region
    var outstanding: nat
    var isCommitting: bool
    var header: seq<nat>       // the first `length` entries of the in-memory header
    var readers: seq<nat>      // blocks whose buffers processes outside any operation hold
    ghost var budgets: seq<nat> // new blocks each operation under way may still add

    constructor (cache: Cache, region: Region)
      ensures this.cache == cache && this.region == region
      ensures outstanding == 0 && !isCommitting && header == [] && readers == [] && budgets == []
    {
      this.cache, this.region := cache, region;
      outstanding, isCommitting, header, readers, budgets := 0, false, [], [], [];
    }

    /** The log and the cache under it agree on what is pinned. */
    ghost predicate Linked()
      reads this, cache, cache.disk
    {
      && cache.Valid()
      && Loggable(region, |cache.books.view|, header)
      && |cache.disk.blocks| == |cache.books.view|
      && cache.books.pinned == multiset(header)
    }

    /** Between operations' steps. Nothing committed is waiting on the disk. */
    ghost predicate Valid()
      reads this, cache, cache.disk
    {
      && Linked()
      && Quiet(region, cache.disk.blocks)
      && cache.books.view[region.start] == cache.disk.blocks[region.start]
      && |budgets| == outstanding && (isCommitting ==> outstanding == 0)
      && Covered(Account(|header|, budgets))
    }

    ghost function Now(): Snapshot
      reads cache, cache.disk
    {
      Snapshot(cache.books.view, cache.disk.blocks, cache.disk.writes)
    }

    // ---------- operations ----------

    /** One pass of beginOperation's loop: let the operation in, or leave it asleep. */
    method BeginOperation() returns (entered: bool)
      requires Valid()
      modifies `outstanding, `budgets
      ensures Valid()
      ensures entered <==> !isCommitting && |header| + (old(outstanding) + 1) * 10 <= 30
      ensures entered ==> outstanding == old(outstanding) + 1 && budgets == old(budgets) + [10]
      ensures entered ==>
                && Allowed(region.size, old(Account(|header|, budgets)), Begin)
                && Account(|header|, budgets) == After(region.size, old(Account(|header|, budgets)), Begin)
      ensures !entered ==> outstanding == old(outstanding) && budgets == old(budgets)
    {
      var possible := |header| + (outstanding + 1) * MAX_OP_BLOCKS;
      if isCommitting || possible > LOG_SIZE {
        return false;
      }
      StepCovered(region.size, Account(|header|, budgets), Begin);
      outstanding := outstanding + 1;
      budgets := budgets + [MAX_OP_BLOCKS];
      return true;
    }

    /** log.write: the block in buffer `b`, just modified by operation `op`, joins the header and
        is pinned there, unless it is already in. */
    method LogWrite(b: nat, ghost op: nat) returns (refusal: Option<Refusal>)
      requires Valid() && cache.Holding(b)
      requires cache.buffers[b].block.number < WORD_LIMIT
      requires !region.IsLog(cache.buffers[b].block.number)
      // An operation stays within the ten blocks it reserved.
      requires outstanding > 0 ==> op < |budgets|
      requires outstanding > 0 && cache.buffers[b].block.number !in header ==> budgets[op] > 0
      modifies `header, `budgets, cache`buffers, cache`books
      ensures Valid() && cache.Holding(b) && cache.buffers[b].data == old(cache.buffers)[b].data
      ensures refusal == Some(TooBigTransaction) <==> |old(header)| >= 30 || |old(header)| + 1 >= region.size
      ensures refusal == Some(OutsideTransaction) <==> !Full(|old(header)|, region.size) && outstanding == 0
      ensures refusal.Some? ==> header == old(header) && budgets == old(budgets) && cache.books == old(cache.books)
      ensures refusal.None? ==>
                var n := old(cache.buffers)[b].block.number;
                && header == (if n in old(header) then old(header) else old(header) + [n])
                && cache.books == old(cache.books).(pinned := multiset(header))
                && var step := if n in old(header) then Again(op) else Add(op);
                   && Allowed(region.size, old(Account(|header|, budgets)), step)
                   && Account(|header|, budgets) == After(region.size, old(Account(|header|, budgets)), step)
    {
      hide Indexed, Counted, Coherent, Chained, Aged, Complete, Loggable, Covered, HeaderLength;
      if |header| >= LOG_SIZE || |header| >= region.size - 1 {
        return Some(TooBigTransaction);
      }
      if outstanding < 1 {
        return Some(OutsideTransaction);
      }
      var n := cache.buffers[b].block.number;
      var index := 0;
      while index < |header|
        invariant index <= |header|
        invariant forall i | 0 <= i < index :: header[i] != n
      {
        if header[index] == n {
          break;
        }
        index := index + 1;
      }
      if index == |header| {
        NamedBuffer(cache.buffers, cache.books, cache.disk.blocks, b);
        LoggableMore(region, |cache.books.view|, header, n);
        StepCovered(region.size, Account(|header|, budgets), Add(op));
        cache.Pin(b);
        header := header + [n];
        budgets := budgets[op := budgets[op] - 1];
      } else {
        header := header[index := n];
        assert header == old(header);
      }
      return None;
    }

    // ---------- others at the cache ----------

    /** Nobody is in an operation: buffers are held by readers alone. */
    ghost predicate OnlyReaders()
      reads this, cache, cache.disk
    {
      cache.Valid() && ReadOnly(region, cache.buffers, cache.books, cache.disk.blocks, readers)
    }

    ghost predicate NoBufferLeft()
      reads cache
    {
      |cache.buffers| == NBUF && AllReferenced(cache.buffers)
    }

    /** A process outside any operation starts to read a block. None left for it is the panic "no
        buffers". */
    method StartReading(n: nat) returns (ok: bool)
      requires OnlyReaders() && n < |cache.books.view| && !region.IsLog(n)
      modifies `readers, cache`buffers, cache`books
      ensures OnlyReaders()
      ensures cache.books == old(cache.books).(held := cache.books.held, slot := cache.books.slot)
      ensures !ok ==> NoBufferLeft() && cache.books == old(cache.books) && readers == old(readers)
    {
      hide Indexed, Counted, Coherent, Chained, Aged, Complete;
      ghost var bs, g := cache.buffers, cache.books;
      var r := cache.Read(n);
      if r.None? {
        return false;
      }
      readers := readers + [n];
      MoreReaders(region, bs, g, cache.buffers, cache.books, cache.disk.blocks, old(readers), n, r.value);
      return true;
    }

    method StopReading(i: nat)
      requires OnlyReaders() && i < |readers|
      modifies `readers, cache
      ensures OnlyReaders()
      ensures cache.books == old(cache.books).(held := cache.books.held)
    {
      hide Chained, Aged, Complete;
      ghost var bs, g := cache.buffers, cache.books;
      var n := readers[i];
      ReaderHas(region, bs, g, cache.disk.blocks, readers, n);
      hide ReadOnly, HasBuffer, Clean, Consistent;
      var b := cache.Lookup(n);
      cache.Release(b);
      readers := readers[..i] + readers[i + 1..];
      FewerReaders(region, bs, g, cache.buffers, cache.books, cache.disk.blocks, old(readers), readers, i);
    }

    /** While a commit is between two of its rounds, others start and stop reading. */
    method OtherReaders() returns (alive: bool)
      requires OnlyReaders()
      modifies `readers, cache
      ensures OnlyReaders()
      ensures cache.books == old(cache.books).(held := cache.books.held, slot := cache.books.slot)
      ensures !alive ==> NoBufferLeft()
    {
      hide Cache.Valid, ReadOnly;
      var steps: nat := *;
      alive := true;
      while steps > 0 && alive
        invariant OnlyReaders() && cache.books == old(cache.books).(held := cache.books.held, slot := cache.books.slot)
        invariant !alive ==> NoBufferLeft()
      {
        var n: nat, start: bool := *, *;
        if start {
          if n < |cache.disk.blocks| && !region.IsLog(n) {
            SizesAgree();
            alive := StartReading(n);
          }
        } else if n < |readers| {
          StopReading(n);
        }
        steps := steps - 1;
      }
    }

    // ---------- moving blocks between home and log ----------

    /** Two reads in a row, the second of a block that is pinned unless nothing is busy. */
    method ReadPair(n: nat, m: nat) returns (r: Option<(nat, nat)>)
      requires cache.Valid() && n < |cache.books.view| && m < |cache.books.view| && n != m
      requires m in cache.books.pinned || (cache.books.held == multiset{} && cache.books.pinned == multiset{})
      modifies cache`buffers, cache`books
      ensures cache.Valid()
      ensures r.None? <==> n !in old(cache.books).slot && AllReferenced(old(cache.buffers))
      ensures r.None? ==> cache.books == old(cache.books) && cache.buffers == old(cache.buffers)
      ensures r.Some? ==>
                && cache.Holding(r.value.0) && cache.buffers[r.value.0].block == Numbered(n)
                && cache.buffers[r.value.0].data == cache.books.view[n]
                && cache.Holding(r.value.1) && cache.buffers[r.value.1].block == Numbered(m)
                && cache.buffers[r.value.1].data == cache.books.view[m]
                && cache.books == old(cache.books).(held := old(cache.books).held + multiset{n, m}, slot := cache.books.slot)
                && KeepsHolds(old(cache.buffers), old(cache.books), cache.buffers, cache.books, old(cache.books).held)
    {
      hide Indexed, Counted, Coherent, Chained, Aged, Complete;
      var first := cache.Read(n);
      if first.None? {
        return None;
      }
      if m in cache.books.pinned {
        PinnedCached(cache.buffers, cache.books, cache.disk.blocks, m);
      } else {
        FreeBesides(cache.buffers, cache.books, cache.disk.blocks, n);
      }
      var second := cache.Read(m);
      return Some((first.value, second.value));
    }

    /** Two releases of buffers whose contents are on the disk or pinned. */
    method ReleasePair(a: nat, b: nat)
      requires cache.Valid() && cache.Holding(a) && cache.Holding(b) && cache.buffers[a].block != cache.buffers[b].block
      requires cache.buffers[a].block.number in cache.books.pinned
               || OnDisk(cache.buffers[a].block.number, cache.buffers[a].data, cache.disk.blocks)
      requires cache.buffers[b].block.number in cache.books.pinned
               || OnDisk(cache.buffers[b].block.number, cache.buffers[b].data, cache.disk.blocks)
      modifies cache
      ensures cache.Valid()
      ensures cache.books == old(cache.books).(held := old(cache.books).held
                               - multiset{old(cache.buffers)[a].block.number, old(cache.buffers)[b].block.number})
      ensures KeepsHolds(old(cache.buffers), old(cache.books), cache.buffers, cache.books, cache.books.held)
    {
      hide Indexed, Counted, Coherent, Chained, Aged, Complete;
      cache.Release(a);
      cache.Release(b);
    }

    /** memmove from one held buffer to another, then write the latter through to the disk. */
    method CopyThrough(to: nat, from: nat)
      requires cache.Valid() && cache.Holding(to) && cache.Holding(from)
      modifies cache`buffers, cache`books, cache.disk
      ensures cache.Valid() && cache.Holding(to) && cache.Holding(from)
      ensures var n := cache.buffers[to].block.number;
              var data := old(cache.buffers)[from].data;
              && n < |old(cache.books).view| == |old(cache.disk.blocks)|
              && cache.buffers == old(cache.buffers)[to := old(cache.buffers)[to].(data := data)]
              && cache.books == old(cache.books).(view := old(cache.books).view[n := data])
              && cache.disk.blocks == old(cache.disk.blocks)[n := data]
              && cache.disk.writes == old(cache.disk.writes) + [Write(n, data)]
      ensures KeepsHolds(old(cache.buffers), old(cache.books), cache.buffers, cache.books, old(cache.books).held)
    {
      hide Indexed, Counted, Coherent, Chained, Aged, Complete;
      NamedBuffer(cache.buffers, cache.books, cache.disk.blocks, to);
      cache.SetData(to, cache.buffers[from].data);
      cache.WriteOut(to);
    }

    /** A round of writeLog finds a buffer exactly when fewer blocks are busy than there are buffers. */
    lemma RoomToLog(tail: nat)
      requires Linked() && OnlyReaders() && tail < |header|
      ensures |cache.books.view| == |cache.disk.blocks| && header[tail] < |cache.books.view| && header[tail] in cache.books.pinned
      ensures region.start + 1 + tail < |cache.books.view| && region.start + 1 + tail != header[tail]
      ensures NoBufferLeft() && region.start + 1 + tail !in cache.books.slot <==> |Busy(header, readers)| >= NBUF
      ensures |cache.buffers| == NBUF && Clean(cache.books.view, cache.disk.blocks, cache.books.pinned)
    {
      hide Indexed, Counted, Coherent, Chained, Aged, Complete, ReadOnly, Busy, Booked, Loggable;
      IsBooked(header);
      LogSpace(cache.buffers, cache.books, cache.disk.blocks, region, header, readers, tail);
    }

    /** One round of writeLog: a modified block, still in its pinned buffer, goes to the log. False
        is the panic "no buffers". */
    method CopyToLog(tail: nat) returns (ok: bool)
      requires Linked() && OnlyReaders() && tail < |header|
      modifies cache, cache.disk
      ensures Linked() && OnlyReaders()
      ensures ok <==> |Busy(header, readers)| < NBUF
      ensures !ok ==> Now() == old(Now())
      ensures ok ==> Stored(old(Now()), Now(), Write(region.start + 1 + tail, old(cache.books.view)[header[tail]]))
    {
      hide Cache.Valid, Loggable, ReadOnly, KeepsHolds, Busy, Clean, Booked;
      RoomToLog(tail);
      ghost var bs, g, d, s := cache.buffers, cache.books, cache.disk.blocks, Now();
      var pair := ReadPair(region.start + 1 + tail, header[tail]);
      if pair.None? {
        return false;
      }
      ghost var bs1, g1 := cache.buffers, cache.books;
      MoveToLog(pair.value.0, pair.value.1);
      CleanStored(s, Now(), Write(region.start + 1 + tail, g.view[header[tail]]), g.pinned, cache.books.pinned);
      RoundReadOnly(region, bs, g, d, bs1, g1, cache.buffers, cache.books, cache.disk.blocks, readers);
      return true;
    }

    /** The log block gets the home block's contents, and both buffers are released. */
    method MoveToLog(log: nat, home: nat)
      requires cache.Valid() && cache.Holding(log) && cache.Holding(home)
      requires cache.buffers[home].block != cache.buffers[log].block && cache.buffers[home].block.number in cache.books.pinned
      modifies cache, cache.disk
      ensures cache.Valid()
      ensures cache.books == old(cache.books).(view := cache.books.view, held := old(cache.books).held
                               - multiset{old(cache.buffers)[home].block.number, old(cache.buffers)[log].block.number})
      ensures Stored(old(Now()), Now(), Write(old(cache.buffers)[log].block.number, old(cache.buffers)[home].data))
      ensures KeepsHolds(old(cache.buffers), old(cache.books), cache.buffers, cache.books, cache.books.held)
    {
      hide Cache.Valid;
      CopyThrough(log, home);
      ReleasePair(home, log);
    }

    /** What a round of installTransaction has to find pinned, and how. */
    ghost predicate MayCopyHome(tail: nat, isRecovering: bool)
      reads this, cache, cache.disk
    {
      && OnlyReaders() && Loggable(region, |cache.books.view|, header) && tail < |header|
      && cache.books.pinned == (if isRecovering then multiset{} else multiset(header[tail..]))
      && (isRecovering ==> readers == [])
    }

    /** It finds a buffer exactly when fewer blocks are busy than there are buffers. */
    lemma RoomToCopyHome(tail: nat, isRecovering: bool)
      requires MayCopyHome(tail, isRecovering)
      ensures |cache.books.view| == |cache.disk.blocks| && header[tail] < |cache.books.view|
      ensures region.start + 1 + tail < |cache.books.view| && region.start + 1 + tail != header[tail]
      ensures if isRecovering then cache.books.held == multiset{} && cache.books.pinned == multiset{} else header[tail] in cache.books.pinned
      ensures cache.books.view[region.start + 1 + tail] == cache.disk.blocks[region.start + 1 + tail]
      ensures NoBufferLeft() && region.start + 1 + tail !in cache.books.slot
         <==> !isRecovering && |Busy(header[tail..], readers)| >= NBUF
      ensures |cache.buffers| == NBUF && Clean(cache.books.view, cache.disk.blocks, cache.books.pinned)
    {
      hide Indexed, Counted, Coherent, Chained, Aged, Complete, ReadOnly, Busy, Booked, Loggable;
      var pins := if isRecovering then [] else header[tail..];
      IsBooked(pins);
      NobodyBusy();
      HomeSpace(cache.buffers, cache.books, cache.disk.blocks, region, header, readers, tail, isRecovering);
    }

    /** One round of installTransaction: a block's contents go from the log to its home, which the
        log pinned unless the machine is recovering. */
    method CopyHome(tail: nat, isRecovering: bool) returns (ok: bool)
      requires MayCopyHome(tail, isRecovering)
      modifies cache, cache.disk
      ensures OnlyReaders()
      ensures ok <==> isRecovering || |Busy(header[tail..], readers)| < NBUF
      ensures !ok ==> Now() == old(Now()) && cache.books.pinned == old(cache.books.pinned)
      ensures ok ==> cache.books.pinned == if isRecovering then multiset{} else multiset(header[tail + 1..])
      ensures ok ==> Stored(old(Now()), Now(), Write(header[tail], old(cache.books.view)[region.start + 1 + tail]))
    {
      hide Cache.Valid, Loggable, ReadOnly, KeepsHolds, Busy, Clean, Booked;
      RoomToCopyHome(tail, isRecovering);
      DropOne(header, tail);
      ghost var bs, g, d, s := cache.buffers, cache.books, cache.disk.blocks, Now();
      var pair := ReadPair(region.start + 1 + tail, header[tail]);
      if pair.None? {
        return false;
      }
      ghost var bs1, g1 := cache.buffers, cache.books;
      PutHome(pair.value.1, pair.value.0, isRecovering);
      CleanStored(s, Now(), Write(header[tail], g.view[region.start + 1 + tail]), g.pinned, cache.books.pinned);
      RoundReadOnly(region, bs, g, d, bs1, g1, cache.buffers, cache.books, cache.disk.blocks, readers);
      return true;
    }

    /** The destination gets the log's contents, loses its pin, and both buffers are released. */
    method PutHome(home: nat, log: nat, isRecovering: bool)
      requires cache.Valid() && cache.Holding(home) && cache.Holding(log)
      requires cache.buffers[home].block != cache.buffers[log].block
      requires OnDisk(cache.buffers[log].block.number, cache.buffers[log].data, cache.disk.blocks)
      requires !isRecovering ==> cache.buffers[home].block.number in cache.books.pinned
      modifies cache, cache.disk
      ensures cache.Valid()
      ensures cache.books.pinned == if isRecovering then old(cache.books).pinned
                                    else old(cache.books).pinned - multiset{old(cache.buffers)[home].block.number}
      ensures cache.books.held == old(cache.books).held
                                  - multiset{old(cache.buffers)[home].block.number, old(cache.buffers)[log].block.number}
      ensures Stored(old(Now()), Now(), Write(old(cache.buffers)[home].block.number, old(cache.buffers)[log].data))
      ensures KeepsHolds(old(cache.buffers), old(cache.books), cache.buffers, cache.books, cache.books.held)
    {
      hide Cache.Valid;
      CopyThrough(home, log);
      if !isRecovering {
        cache.Unpin(home);
      }
      ReleasePair(home, log);
    }

    /** writeHead: the in-memory header goes into the header block, through to the disk. */
    method WriteHead(ghost pins: seq<nat>) returns (ok: bool)
      requires OnlyReaders() && cache.books.pinned == multiset(pins)
      requires Fits(region, |cache.books.view|) && |header| <= LOG_SIZE && Words(header)
      requires forall n | n in pins :: !region.IsLog(n)
      modifies cache, cache.disk
      ensures OnlyReaders() && cache.books.pinned == old(cache.books.pinned)
      ensures ok <==> |Busy(pins, readers)| < NBUF
      ensures !ok ==> Now() == old(Now())
      ensures ok ==> Stored(old(Now()), Now(), Write(region.start, EncodeHeader(old(cache.books.view)[region.start], header)))
    {
      hide Indexed, Counted, Coherent, Chained, Aged, Complete, EncodeHeader, ReadOnly, Busy;
      ghost var bs, g, d, s := cache.buffers, cache.books, cache.disk.blocks, Now();
      IsBooked(pins);
      HeadSpace(bs, g, d, region, pins, readers);
      var b := cache.Read(region.start);
      if b.None? {
        return false;
      }
      cache.SetData(b.value, EncodeHeader(cache.buffers[b.value].data, header));
      cache.WriteOut(b.value);
      cache.Release(b.value);
      CleanStored(s, Now(), Write(region.start, EncodeHeader(g.view[region.start], header)), g.pinned, g.pinned);
      StillReadOnly(region, bs, g, d, cache.buffers, cache.books, cache.disk.blocks, readers);
      return true;
    }

    /** The first `n` writes of writeLog have been performed since `s`. */
    ghost predicate LoggedUpTo(n: nat, s: Snapshot)
      reads this, cache, cache.disk
    {
      && Linked() && OnlyReaders() && Loggable(region, |s.view|, header) && n <= |header|
      && Performed(s, Now(), ToLog(region, s.view, header)[..n])
    }

    method LogNext(tail: nat, ghost s: Snapshot) returns (ok: bool)
      requires LoggedUpTo(tail, s) && tail < |header|
      modifies cache, cache.disk
      ensures ok <==> |Busy(header, readers)| < NBUF
      ensures LoggedUpTo(if ok then tail + 1 else tail, s)
    {
      hide Cache.Valid, Loggable, Performed, ToLog, Stored, ReadOnly, Busy;
      ghost var s1 := Now();
      LogRound(region, header, tail, s, s1);
      ok := CopyToLog(tail);
      if ok {
        PerformedMore(s, s1, Now(), ToLog(region, s.view, header), tail);
      }
    }

    /** Others between two rounds of writeLog. */
    method LogPause(ghost tail: nat, ghost s: Snapshot) returns (alive: bool)
      requires LoggedUpTo(tail, s)
      modifies `readers, cache
      ensures LoggedUpTo(tail, s)
      ensures !alive ==> |Busy(header, readers)| >= NBUF
    {
      hide Cache.Valid, Loggable, Performed, ToLog, ReadOnly, Busy;
      alive := OtherReaders();
      FullIsBusy(header);
    }

    /** writeLog: every modified block goes to the log, in header order. `shared` says that others come
        and go between the rounds. */
    method WriteLog(shared: bool) returns (ok: bool, ghost done: nat)
      requires Linked() && OnlyReaders() && header != []
      modifies `readers, cache, cache.disk
      ensures LoggedUpTo(done, old(Now())) && (ok ==> done == |header|)
      ensures !ok ==> |Busy(header, readers)| >= NBUF
      ensures !shared ==> readers == old(readers) && (ok <==> |Busy(header, readers)| < NBUF) && (!ok ==> done == 0)
    {
      hide Cache.Valid, Loggable, Performed, ToLog, Stored, ReadOnly, Busy;
      ghost var s := Now();
      SizesAgree();
      PerformedNone(s);
      assert ToLog(region, s.view, header)[..0] == [];
      done := 0;
      var tail := 0;
      while tail < |header|
        invariant tail == done <= |header| && LoggedUpTo(tail, s)
        invariant !shared ==> readers == old(readers) && (tail > 0 ==> |Busy(header, readers)| < NBUF)
      {
        hide LoggedUpTo;
        if shared {
          ok := LogPause(tail, s);
          if !ok {
            return;
          }
        }
        ok := LogNext(tail, s);
        if !ok {
          return;
        }
        tail, done := tail + 1, done + 1;
      }
      ok := true;
    }

    /** The first `n` writes of installTransaction have been performed since `s`. */
    ghost predicate InstalledUpTo(n: nat, isRecovering: bool, vals: seq<Block>, s: Snapshot)
      reads this, cache, cache.disk
    {
      && OnlyReaders() && (isRecovering ==> readers == [])
      && Loggable(region, |s.view|, header) && n <= |header| == |vals|
      && (forall i | 0 <= i < |header| :: s.view[region.start + 1 + i] == vals[i])
      && cache.books.pinned == (if isRecovering then multiset{} else multiset(header[n..]))
      && Performed(s, Now(), InstallWrites(header, vals)[..n])
    }

    method InstallNext(tail: nat, isRecovering: bool, ghost vals: seq<Block>, ghost s: Snapshot) returns (ok: bool)
      requires InstalledUpTo(tail, isRecovering, vals, s) && tail < |header|
      modifies cache, cache.disk
      ensures ok <==> isRecovering || |Busy(header[tail..], readers)| < NBUF
      ensures InstalledUpTo(if ok then tail + 1 else tail, isRecovering, vals, s)
    {
      hide Cache.Valid, Loggable, Performed, InstallWrites, Stored, ReadOnly, Busy;
      ghost var s1 := Now();
      InstallSizes(tail, isRecovering, vals, s);
      InstallRound(region, header, vals, tail, s, s1);
      ok := CopyHome(tail, isRecovering);
      if ok {
        PerformedMore(s, s1, Now(), InstallWrites(header, vals), tail);
      }
    }

    lemma InstallSizes(tail: nat, isRecovering: bool, vals: seq<Block>, s: Snapshot)
      requires InstalledUpTo(tail, isRecovering, vals, s) && tail < |header|
      ensures |cache.books.view| == |s.view| && region.start + 1 + tail < |s.view|
    {
      hide Cache.Valid, ReadOnly, InstallWrites, Apply;
    }

    /** Others between two rounds of installTransaction. */
    method InstallPause(ghost tail: nat, ghost vals: seq<Block>, ghost s: Snapshot) returns (alive: bool)
      requires InstalledUpTo(tail, false, vals, s)
      modifies `readers, cache
      ensures InstalledUpTo(tail, false, vals, s)
      ensures !alive ==> |Busy(header[tail..], readers)| >= NBUF
    {
      hide Cache.Valid, Loggable, Performed, InstallWrites, ReadOnly, Busy;
      alive := OtherReaders();
      FullIsBusy(header[tail..]);
    }

    /** installTransaction: every block in the header goes from the log to its home. */
    method InstallTransaction(isRecovering: bool, shared: bool, ghost vals: seq<Block>) returns (ok: bool, ghost done: nat)
      requires OnlyReaders() && (isRecovering ==> readers == [] && !shared)
      requires Loggable(region, |cache.books.view|, header) && |vals| == |header|
      requires forall i | 0 <= i < |header| :: cache.books.view[region.start + 1 + i] == vals[i]
      requires cache.books.pinned == if isRecovering then multiset{} else multiset(header)
      modifies `readers, cache, cache.disk
      ensures InstalledUpTo(done, isRecovering, vals, old(Now())) && (ok ==> done == |header|)
      ensures !ok ==> |Busy(header[done..], readers)| >= NBUF
      ensures isRecovering ==> ok
      ensures !shared ==> readers == old(readers) && (|Busy(header, readers)| < NBUF ==> ok)
    {
      hide Cache.Valid, Loggable, Performed, InstallWrites, ReadOnly, Busy, OnlyReaders, InstalledUpTo;
      ghost var s := Now();
      InstallBegins(isRecovering, vals);
      done := 0;
      var tail := 0;
      while tail < |header|
        invariant tail == done <= |header| && InstalledUpTo(tail, isRecovering, vals, s)
        invariant !shared ==> readers == old(readers)
      {
        if shared {
          ok := InstallPause(tail, vals, s);
          if !ok {
            return;
          }
        }
        FewerBusy(header, tail, readers);
        ok := InstallNext(tail, isRecovering, vals, s);
        if !ok {
          return;
        }
        tail, done := tail + 1, done + 1;
      }
      ok := true;
    }

    lemma InstallBegins(isRecovering: bool, vals: seq<Block>)
      requires OnlyReaders() && (isRecovering ==> readers == [])
      requires Loggable(region, |cache.books.view|, header) && |vals| == |header|
      requires forall i | 0 <= i < |header| :: cache.books.view[region.start + 1 + i] == vals[i]
      requires cache.books.pinned == if isRecovering then multiset{} else multiset(header)
      ensures InstalledUpTo(0, isRecovering, vals, Now())
    {
      SizesAgree();
      hide Cache.Valid, Performed, InstallWrites, ReadOnly;
      PerformedNone(Now());
      assert InstallWrites(header, vals)[..0] == [] && header[0..] == header;
    }

    // ---------- commit ----------

    /** The first half of commit, up to and including the header: the commit point. */
    method CommitToLog(shared: bool) returns (ok: bool, ghost s1: Snapshot, ghost done: nat)
      requires Linked() && OnlyReaders() && header != []
      modifies `readers, cache, cache.disk
      ensures ok ==> Committed(old(Now()), s1)
      ensures !ok ==> |Busy(header, readers)| >= NBUF && LoggedUpTo(done, old(Now()))
      ensures !shared ==> readers == old(readers) && (ok <==> |Busy(header, readers)| < NBUF) && (!ok ==> done == 0)
    {
      ghost var s0 := Now();
      hide Cache.Valid, Loggable, Performed, Stored, EncodeHeader, ToLog, ReadOnly, Busy;
      ok, done := WriteLog(shared);
      s1 := Now();
      if ok && shared {
        ok := LogPause(done, s0);
        s1 := Now();
      }
      if !ok {
        return;
      }
      HeaderFacts();
      assert ToLog(region, s0.view, header)[..|header|] == ToLog(region, s0.view, header);
      ok := WriteHead(header);
      if ok {
        StoredFacts(s1, Now(), Write(region.start, EncodeHeader(s1.view[region.start], header)));
      }
    }

    /** The log and the header hold the transaction; nothing is home yet. */
    ghost predicate Committed(s0: Snapshot, s1: Snapshot)
      reads this, cache, cache.disk
    {
      && Linked() && OnlyReaders() && Loggable(region, |s0.view|, header)
      && Performed(s0, s1, ToLog(region, s0.view, header))
      && region.start < |s1.view|
      && Stored(s1, Now(), Write(region.start, EncodeHeader(s1.view[region.start], header)))
    }

    lemma HeaderFacts()
      requires Linked()
      ensures Fits(region, |cache.books.view|) && |header| <= LOG_SIZE && Words(header)
      ensures forall n | n in header :: !region.IsLog(n)
      ensures |cache.books.view| == |cache.disk.blocks|
    {
      hide Cache.Valid;
    }

    /** The second half of commit: everything goes home and the header is cleared. `done` counts the
        commit's writes so far. */
    method CommitHome(shared: bool, ghost s0: Snapshot, ghost s1: Snapshot) returns (ok: bool, ghost done: nat)
      requires Committed(s0, s1) && header != []
      requires |s0.view| == |s0.disk| && s0.view[region.start] == s0.disk[region.start]
      modifies `header, `readers, cache, cache.disk
      ensures Loggable(region, |s0.disk|, old(header))
      ensures var ws := CommitWrites(region, s0.disk, old(header), Pending(s0.view, old(header)));
              && |old(header)| < done <= |ws| && Performed(s0, Now(), ws[..done]) && (ok ==> done == |ws|)
      ensures ok ==> AtRest()
      ensures !ok ==> |Busy(old(header), readers)| >= NBUF
      ensures !shared ==> readers == old(readers) && (|Busy(old(header), readers)| < NBUF ==> ok)
    {
      hide Cache.Valid, Loggable, Performed, Stored, EncodeHeader, ToLog, Pending, CommitWrites, InstallWrites,
           HeaderLength,
           ReadOnly, Busy;
      ghost var h, s2 := header, Now();
      ghost var j;
      ok, j := InstallCommitted(shared, s0, s1);
      ghost var s3 := Now();
      InstallingPerformed(region, h, s0, s1, s2, s3, j);
      done := |h| + 1 + j;
      if !ok {
        return;
      }
      FewerBusy(h, |h|, readers);
      assert h[|h|..] == [];
      ok := ClearHeader();
      if ok {
        CommitPerformed(region, h, s0, s1, s2, s3, Now());
        done := 2 * |h| + 2;
      }
    }

    method InstallCommitted(shared: bool, ghost s0: Snapshot, ghost s1: Snapshot) returns (ok: bool, ghost done: nat)
      requires Committed(s0, s1)
      modifies `readers, cache, cache.disk
      ensures OnlyReaders() && Loggable(region, |s0.view|, header) && Fits(region, |s0.view|) && |cache.books.view| == |s0.view|
      ensures done <= |header| && Performed(old(Now()), Now(), InstallWrites(header, Pending(s0.view, header))[..done])
      ensures ok ==> done == |header| && cache.books.pinned == multiset{}
      ensures ok ==> InstallWrites(header, Pending(s0.view, header))[..done] == InstallWrites(header, Pending(s0.view, header))
      ensures !ok ==> |Busy(header, readers)| >= NBUF
      ensures !shared ==> readers == old(readers) && (|Busy(header, readers)| < NBUF ==> ok)
    {
      hide Cache.Valid, Loggable, Performed, Stored, EncodeHeader, ToLog, InstallWrites, ReadOnly, Busy, OnlyReaders,
           Linked,
           InstalledUpTo, Committed, Pending;
      ghost var s2 := Now();
      ReadyNow(s0, s1);
      ok, done := InstallTransaction(false, shared, Pending(s0.view, header));
      InstallEnds(done, Pending(s0.view, header), s2);
      FewerBusy(header, done, readers);
    }

    lemma ReadyNow(s0: Snapshot, s1: Snapshot)
      requires Committed(s0, s1)
      ensures OnlyReaders() && Loggable(region, |s0.view|, header) && Fits(region, |s0.view|)
      ensures |cache.books.view| == |s0.view| && cache.books.pinned == multiset(header)
      ensures forall i | 0 <= i < |header| :: header[i] < |s0.view|
      ensures forall i | 0 <= i < |header| :: cache.books.view[region.start + 1 + i] == Pending(s0.view, header)[i]
    {
      hide Cache.Valid, Performed, Stored, EncodeHeader, ToLog, ReadOnly;
      ReadyToInstall(region, header, s0, s1, Now());
    }

    lemma InstallEnds(done: nat, vals: seq<Block>, s: Snapshot)
      requires InstalledUpTo(done, false, vals, s)
      ensures OnlyReaders() && done <= |header| == |vals| && |cache.books.view| == |s.view|
      ensures Performed(s, Now(), InstallWrites(header, vals)[..done])
      ensures done == |header| ==> cache.books.pinned == multiset{} && InstallWrites(header, vals)[..done] == InstallWrites(header, vals)
    {
      hide Cache.Valid, ReadOnly, InstallWrites, Loggable, Apply;
      assert header[|header|..] == [];
    }

    /** The last phase: a header that names no block, so that recovery has nothing to install. */
    method ClearHeader() returns (ok: bool)
      requires OnlyReaders() && cache.books.pinned == multiset{} && Fits(region, |cache.books.view|)
      modifies `header, cache, cache.disk
      ensures header == [] && (ok <==> |Busy([], readers)| < NBUF)
      ensures ok ==> AtRest()
      ensures !ok ==> Now() == old(Now())
      ensures ok ==> Stored(old(Now()), Now(), Write(region.start, EncodeHeader(old(cache.books.view)[region.start], [])))
    {
      hide Cache.Valid, Stored, EncodeHeader, HeaderLength, ReadOnly, Busy;
      ghost var s := Now();
      header := [];
      ok := WriteHead([]);
      if ok {
        ClearedIsQuiet(region, s, Now());
      }
    }

    /** No operation has logged anything, and nobody but readers holds a buffer. */
    ghost predicate AtRest()
      reads this, cache, cache.disk
    {
      && header == [] && Linked() && OnlyReaders()
      && Quiet(region, cache.disk.blocks)
      && cache.books.view[region.start] == cache.disk.blocks[region.start]
    }

    lemma SizesAgree()
      requires cache.Valid()
      ensures |cache.books.view| == |cache.disk.blocks|
    {
    }

    lemma IsBooked(pins: seq<nat>)
      requires OnlyReaders() && cache.books.pinned == multiset(pins)
      ensures Booked(cache.buffers, cache.books, cache.disk.blocks, pins, readers)
      ensures Clean(cache.books.view, cache.disk.blocks, cache.books.pinned)
      ensures cache.books.held == multiset(readers)
    {
      hide Indexed, Counted, Coherent, Chained, Aged, Complete, HasBuffer;
    }

    lemma NobodyBusy()
      ensures Busy([], []) == {}
    {
    }

    lemma FullIsBusy(pins: seq<nat>)
      requires OnlyReaders() && cache.books.pinned == multiset(pins)
      ensures NoBufferLeft() ==> |Busy(pins, readers)| >= NBUF
    {
      hide Busy, Chained, Aged, Complete, Indexed, Counted, Coherent, HasBuffer, Clean;
      AllBusy(cache.buffers, cache.books, cache.disk.blocks, pins, readers);
    }

    /** commit, while processes outside any operation hold buffers and, if `shared`, come and go. It fails,
        in the panic "no buffers", only at a moment when as many blocks are pinned or being read as there
        are buffers. It has then performed the first `done` writes of CommitWrites, and recovery from
        there makes the transaction happen whole or not at all. */
    method Commit(shared: bool) returns (ok: bool, ghost done: nat)
      requires Valid() && OnlyReaders() && budgets == []
      modifies `header, `readers, cache, cache.disk
      ensures Loggable(region, |old(cache.disk.blocks)|, old(header)) && |old(cache.books.view)| == |old(cache.disk.blocks)|
      ensures var ws := CommitWrites(region, old(cache.disk.blocks), old(header), Pending(old(cache.books.view), old(header)));
              done <= |ws| && Performed(old(Now()), Now(), ws[..done]) && (ok ==> done == |ws|)
      ensures ok ==> Valid() && OnlyReaders() && header == []
      ensures !ok ==> old(header) != [] && |Busy(old(header), readers)| >= NBUF
      ensures !shared ==> readers == old(readers)
      ensures !shared ==> (ok <==> old(header) == [] || |Busy(old(header), readers)| < NBUF) && (!ok ==> done == 0)
      ensures Recoverable(region, cache.disk.blocks)
      ensures SameHome(region, Recovered(region, cache.disk.blocks),
                       if done <= |old(header)| then old(cache.disk.blocks)
                       else Installed(old(cache.disk.blocks), old(header), Pending(old(cache.books.view), old(header))))
    {
      hide Cache.Valid, Loggable, Performed, CommitWrites, HeaderLength, ReadOnly, Busy, Pending, ToLog, Recoverable,
           Recovered,
           Installed, SameHome;
      ghost var s0, h := Now(), header;
      if header == [] {
        NothingToWrite(region, s0);
        StoppedCommit(region, h, s0, Now(), 0);
        return true, 0;
      }
      ghost var s1;
      ok, s1, done := CommitToLog(shared);
      if ok {
        ok, done := CommitHome(shared, s0, s1);
      } else {
        LoggingPerformed(region, h, s0, Now(), done);
      }
      StoppedCommit(region, h, s0, Now(), done);
    }

    /** The locked part of endOperation. True when the caller has to commit; until it has, no
        operation can begin, so its panic "log commiting" cannot occur. */
    method EndOperation(ghost op: nat) returns (doCommit: bool)
      requires Valid() && outstanding > 0 && op < |budgets|
      modifies `outstanding, `isCommitting, `budgets
      ensures Valid() && !old(isCommitting)
      ensures outstanding == old(outstanding) - 1 && budgets == old(budgets)[..op] + old(budgets)[op + 1..]
      ensures doCommit <==> outstanding == 0
      ensures isCommitting <==> doCommit
      ensures Account(if doCommit then 0 else |header|, budgets)
           == After(region.size, old(Account(|header|, budgets)), Finish(op))
    {
      StepCovered(region.size, Account(|header|, budgets), Finish(op));
      SumRemove(budgets, op);
      hide Cache.Valid, Loggable, HeaderLength;
      outstanding := outstanding - 1;
      budgets := budgets[..op] + budgets[op + 1..];
      doCommit := outstanding == 0;
      isCommitting := doCommit;
    }

    /** The rest of endOperation, by the operation that ended last. */
    method CommitAndReopen(shared: bool) returns (ok: bool, ghost done: nat)
      requires Valid() && isCommitting && OnlyReaders()
      modifies `header, `isCommitting, `readers, cache, cache.disk
      ensures Loggable(region, |old(cache.disk.blocks)|, old(header)) && |old(cache.books.view)| == |old(cache.disk.blocks)|
      ensures var ws := CommitWrites(region, old(cache.disk.blocks), old(header), Pending(old(cache.books.view), old(header)));
              done <= |ws| && Performed(old(Now()), Now(), ws[..done]) && (ok ==> done == |ws|)
      ensures ok ==> Valid() && OnlyReaders() && header == [] && !isCommitting
      ensures !ok ==> old(header) != [] && |Busy(old(header), readers)| >= NBUF
    {
      hide Cache.Valid, Loggable, Performed, CommitWrites, HeaderLength, Covered, ReadOnly, Busy, Pending,
           Recoverable, Recovered,
           Installed, SameHome;
      ok, done := Commit(shared);
      if ok {
        isCommitting := false;
      }
    }

    // ---------- recovery ----------

    /** recoverFromLog, on a cache that holds nothing the disk does not and nobody uses yet. */
    method Recover()
      requires OnlyReaders() && readers == [] && cache.books.pinned == multiset{}
      requires cache.books.view == cache.disk.blocks && Recoverable(region, cache.disk.blocks)
      modifies `header, `readers, cache, cache.disk
      ensures AtRest() && readers == []
      ensures Performed(old(Now()), Now(), RecoverWrites(region, old(cache.disk.blocks)))
      ensures cache.disk.blocks == Recovered(region, old(cache.disk.blocks))
    {
      hide Cache.Valid, Loggable, Performed, Stored, EncodeHeader, HeaderLength, InstallWrites, HeaderList,
           RecoverWrites,
           Recoverable, Recovered, ReadOnly, Busy;
      ghost var s0 := Now();
      NobodyBusy();
      RecoverableFacts(region, s0.disk);
      ReadHead();
      ghost var h, vals := header, LogContents(region, s0.disk);
      var ok, done := InstallTransaction(true, false, vals);
      ghost var s1 := Now();
      assert InstallWrites(h, vals)[..done] == InstallWrites(h, vals);
      PerformedSizes(s0, s1, InstallWrites(h, vals));
      ok := ClearHeader();
      RecoverPerformed(region, s0, s1, Now());
    }

    /** readHead. */
    method ReadHead()
      requires OnlyReaders() && readers == [] && cache.books.pinned == multiset{}
      requires cache.books.view == cache.disk.blocks && Recoverable(region, cache.disk.blocks)
      modifies `header, cache
      ensures OnlyReaders() && cache.books.pinned == multiset{}
      ensures Now() == old(Now()) && header == HeaderList(cache.disk.blocks[region.start])
    {
      hide Chained, Aged, Complete, Indexed, Counted, Coherent, Loggable, HeaderLength, HeaderList, HasBuffer, Busy,
           KeepsHolds;
      NobodyBusy();
      AllBusy(cache.buffers, cache.books, cache.disk.blocks, [], []);
      var b := cache.Read(region.start);
      header := HeaderList(cache.buffers[b.value].data);
      cache.Release(b.value);
    }
  }

  /** initFileSystem after a restart: an empty cache, then recovery. */
  method Restart(disk: Disk, region: Region) returns (log: Log)
    requires Recoverable(region, disk.blocks)
    modifies disk
    ensures fresh(log) && fresh(log.cache) && log.cache.disk == disk && log.region == region
    ensures log.Valid() && log.AtRest() && log.readers == [] && log.outstanding == 0 && !log.isCommitting
    ensures disk.blocks == Recovered(region, old(disk.blocks))
    ensures disk.writes == old(disk.writes) + RecoverWrites(region, old(disk.blocks))
  {
    hide Cache.Valid, Loggable, HeaderLength, RecoverWrites, Recoverable, Recovered, Apply;
    var cache := new Cache(disk);
    log := new Log(cache, region);
    log.Recover();
  }
}
