/** The redo log seen from the disk: which blocks commit and recovery write, in which
    order, and what recovery makes of a disk on which only some of them happened. */
module Journal {
  import opened Blocks

  const LOG_SIZE := 30

  datatype Write = Write(number: nat, data: Block)

  type DiskState = seq<Block>

  /** Where the log lies: `start` is the header, the following `size - 1` blocks hold data. */
  datatype Region = Region(start: nat, size: nat) {
    predicate IsLog(b: nat) {
      start <= b < start + size
    }
  }

  // ---------- the disk ----------

  function Apply(d: DiskState, ws: seq<Write>): (r: DiskState)
    requires forall i | 0 <= i < |ws| :: ws[i].number < |d|
    ensures |r| == |d|
    decreases |ws|
  {
    if ws == [] then d
    else Apply(d, ws[..|ws| - 1])[ws[|ws| - 1].number := ws[|ws| - 1].data]
  }

  lemma {:induction false} ApplyConcat(d: DiskState, xs: seq<Write>, ys: seq<Write>)
    requires forall i | 0 <= i < |xs| :: xs[i].number < |d|
    requires forall i | 0 <= i < |ys| :: ys[i].number < |d|
    ensures forall i | 0 <= i < |xs + ys| :: (xs + ys)[i].number < |d|
    ensures Apply(d, xs + ys) == Apply(Apply(d, xs), ys)
    decreases |ys|
  {
    if ys == [] {
      assert xs + ys == xs;
    } else {
      var front := ys[..|ys| - 1];
      assert (xs + ys)[..|xs + ys| - 1] == xs + front;
      ApplyConcat(d, xs, front);
    }
  }

  lemma AppliedOne(d: DiskState, w: Write)
    requires w.number < |d|
    ensures Apply(d, [w]) == d[w.number := w.data]
  {
    assert [w][..0] == [];
  }

  /** Writes to other blocks leave a block alone. */
  lemma {:induction false} ApplyElsewhere(d: DiskState, ws: seq<Write>, b: nat)
    requires forall i | 0 <= i < |ws| :: ws[i].number < |d| && ws[i].number != b
    requires b < |d|
    ensures Apply(d, ws)[b] == d[b]
    decreases |ws|
  {
    if ws != [] {
      ApplyElsewhere(d, ws[..|ws| - 1], b);
    }
  }

  /** A block written exactly once holds what was written. */
  lemma {:induction false} ApplyAt(d: DiskState, ws: seq<Write>, i: nat)
    requires forall i | 0 <= i < |ws| :: ws[i].number < |d|
    requires i < |ws|
    requires forall j | i < j < |ws| :: ws[j].number != ws[i].number
    ensures Apply(d, ws)[ws[i].number] == ws[i].data
    decreases |ws|
  {
    if i < |ws| - 1 {
      ApplyAt(d, ws[..|ws| - 1], i);
    }
  }

  // ---------- the header block ----------

  function HeaderLength(b: Block): Word {
    GetWord(b, 0)
  }

  /** Block numbers that fit in a header entry. */
  ghost predicate Words(h: seq<nat>) {
    forall i | 0 <= i < |h| :: h[i] < WORD_LIMIT
  }

  function HeaderList(b: Block): (h: seq<nat>)
    requires HeaderLength(b) <= LOG_SIZE
    ensures |h| == HeaderLength(b) && Words(h)
  {
    seq(HeaderLength(b), i requires 0 <= i < HeaderLength(b) => GetWord(b, i + 1))
  }

  /** Header.copyFrom: the length and that many entries are stored, other bytes stay. */
  function EncodeHeader(b: Block, h: seq<nat>): Block
    requires |h| <= LOG_SIZE && Words(h)
  {
    StoreEntries(SetWord(b, 0, |h|), h, |h|)
  }

  function StoreEntries(b: Block, h: seq<nat>, n: nat): Block
    requires n <= |h| <= LOG_SIZE && Words(h)
  {
    if n == 0 then b else SetWord(StoreEntries(b, h, n - 1), n, h[n - 1])
  }

  lemma {:induction false} StoreEntriesAt(b: Block, h: seq<nat>, n: nat, j: nat)
    requires n <= |h| <= LOG_SIZE && Words(h) && j < WORDS_PER_BLOCK
    ensures GetWord(StoreEntries(b, h, n), j) == if 1 <= j <= n then h[j - 1] else GetWord(b, j)
  {
    if n > 0 {
      StoreEntriesAt(b, h, n - 1, j);
      WordRoundTrip(StoreEntries(b, h, n - 1), n, h[n - 1], j);
    }
  }

  /** Decoding a stored header gives the header back, whatever the block held before. */
  lemma HeaderRoundTrip(b: Block, h: seq<nat>)
    requires |h| <= LOG_SIZE && Words(h)
    ensures HeaderLength(EncodeHeader(b, h)) == |h|
    ensures HeaderList(EncodeHeader(b, h)) == h
  {
    var b0 := SetWord(b, 0, |h|);
    WordRoundTrip(b, 0, |h|, 0);
    StoreEntriesAt(b0, h, |h|, 0);
    var e := EncodeHeader(b, h);
    assert HeaderLength(e) == |h|;
    forall i | 0 <= i < |h| ensures HeaderList(e)[i] == h[i] {
      StoreEntriesAt(b0, h, |h|, i + 1);
    }
  }

  // ---------- transactions ----------

  ghost predicate Distinct(s: seq<nat>) {
    forall i, j | 0 <= i < j < |s| :: s[i] != s[j]
  }

  /** A log region on a disk of `n` blocks whose numbers fit in a header entry. */
  ghost predicate Fits(g: Region, n: nat) {
    2 <= g.size && g.start + g.size <= n <= WORD_LIMIT
  }

  /** The header may name blocks `h`: distinct home blocks that fit in the region. */
  ghost predicate Loggable(g: Region, n: nat, h: seq<nat>) {
    && Fits(g, n)
    && |h| <= LOG_SIZE && |h| < g.size
    && Distinct(h)
    && forall i | 0 <= i < |h| :: h[i] < n && !g.IsLog(h[i])
  }

  /** A disk recovery can start from: the header on it names distinct home blocks. */
  ghost predicate Recoverable(g: Region, d: DiskState) {
    && Fits(g, |d|)
    && HeaderLength(d[g.start]) <= LOG_SIZE
    && Loggable(g, |d|, HeaderList(d[g.start]))
  }

  /** A disk at rest: nothing is waiting in the log. */
  ghost predicate Quiet(g: Region, d: DiskState) {
    Fits(g, |d|) && HeaderLength(d[g.start]) == 0
  }

  ghost predicate SameHome(g: Region, d: DiskState, d': DiskState) {
    |d| == |d'| && forall b | 0 <= b < |d| && !g.IsLog(b) :: d[b] == d'[b]
  }

  /** writeLog: block contents go to consecutive log blocks. */
  function LogWrites(g: Region, vals: seq<Block>): seq<Write> {
    seq(|vals|, i requires 0 <= i < |vals| => Write(g.start + 1 + i, vals[i]))
  }

  /** installTransaction: the same contents go to their home blocks. */
  function InstallWrites(h: seq<nat>, vals: seq<Block>): (ws: seq<Write>)
    requires |h| == |vals|
    ensures |ws| == |h|
  {
    seq(|h|, i requires 0 <= i < |h| => Write(h[i], vals[i]))
  }

  /** commit: log, header, homes, cleared header - in this order. */
  function CommitWrites(g: Region, d: DiskState, h: seq<nat>, vals: seq<Block>): seq<Write>
    requires g.start < |d| && |h| == |vals| <= LOG_SIZE && Words(h)
  {
    if h == [] then []
    else
      LogWrites(g, vals) + [Write(g.start, EncodeHeader(d[g.start], h))]
      + InstallWrites(h, vals)
      + [Write(g.start, EncodeHeader(EncodeHeader(d[g.start], h), []))]
  }

  /** recoverFromLog: install what the header names, then clear the header. */
  function RecoverWrites(g: Region, d: DiskState): seq<Write>
    requires g.start < |d| && HeaderLength(d[g.start]) <= LOG_SIZE
    requires g.start + 1 + HeaderLength(d[g.start]) <= |d|
  {
    var h := HeaderList(d[g.start]);
    InstallWrites(h, d[g.start + 1..g.start + 1 + |h|]) + [Write(g.start, EncodeHeader(d[g.start], []))]
  }

  lemma CommitWritesInRange(g: Region, d: DiskState, h: seq<nat>, vals: seq<Block>)
    requires Loggable(g, |d|, h) && |h| == |vals|
    ensures forall i | 0 <= i < |CommitWrites(g, d, h, vals)| :: CommitWrites(g, d, h, vals)[i].number < |d|
  {
  }

  lemma RecoverWritesInRange(g: Region, d: DiskState)
    requires Recoverable(g, d)
    ensures forall i | 0 <= i < |RecoverWrites(g, d)| :: RecoverWrites(g, d)[i].number < |d|
  {
  }

  function Recovered(g: Region, d: DiskState): (r: DiskState)
    requires Recoverable(g, d)
    ensures |r| == |d|
  {
    RecoverWritesInRange(g, d);
    Apply(d, RecoverWrites(g, d))
  }

  /** All of a transaction's blocks in place. */
  function Installed(d: DiskState, h: seq<nat>, vals: seq<Block>): (r: DiskState)
    requires |h| == |vals|
    requires forall i | 0 <= i < |h| :: h[i] < |d|
    ensures |r| == |d|
  {
    Apply(d, InstallWrites(h, vals))
  }

  lemma InstalledAt(d: DiskState, h: seq<nat>, vals: seq<Block>, i: nat)
    requires |h| == |vals| && Distinct(h)
    requires forall i | 0 <= i < |h| :: h[i] < |d|
    requires i < |h|
    ensures Installed(d, h, vals)[h[i]] == vals[i]
  {
    ApplyAt(d, InstallWrites(h, vals), i);
  }

  lemma InstalledElsewhere(d: DiskState, h: seq<nat>, vals: seq<Block>, b: nat)
    requires |h| == |vals|
    requires forall i | 0 <= i < |h| :: h[i] < |d| && h[i] != b
    requires b < |d|
    ensures Installed(d, h, vals)[b] == d[b]
  {
    ApplyElsewhere(d, InstallWrites(h, vals), b);
  }

  /** What recovery leaves, spelled out block by block. */
  lemma RecoveredMeaning(g: Region, d: DiskState)
    requires Recoverable(g, d)
    ensures Quiet(g, Recovered(g, d))
    ensures SameHome(g, Recovered(g, d),
                     Installed(d, HeaderList(d[g.start]), d[g.start + 1..g.start + 1 + HeaderLength(d[g.start])]))
  {
    var h := HeaderList(d[g.start]);
    var vals := d[g.start + 1..g.start + 1 + |h|];
    RecoveredSplit(g, d, h, vals);
    HeaderRoundTrip(d[g.start], []);
  }

  lemma RecoveredSplit(g: Region, d: DiskState, h: seq<nat>, vals: seq<Block>)
    requires Recoverable(g, d) && h == HeaderList(d[g.start]) && vals == d[g.start + 1..g.start + 1 + |h|]
    ensures Recovered(g, d) == Installed(d, h, vals)[g.start := EncodeHeader(d[g.start], [])]
  {
    var last := Write(g.start, EncodeHeader(d[g.start], []));
    RecoverWritesInRange(g, d);
    hide Apply, EncodeHeader, HeaderList, HeaderLength;
    ApplyConcat(d, InstallWrites(h, vals), [last]);
    AppliedOne(Installed(d, h, vals), last);
  }

  // ---------- one transaction, stopped anywhere ----------

  /** Two disks that agree on home blocks outside `h` and have the same contents for `h`
      waiting in the log recover alike. */
  lemma RecoveredFromLog(g: Region, d: DiskState, d': DiskState, h: seq<nat>, vals: seq<Block>)
    requires |d| == |d'| && |h| == |vals|
    requires Loggable(g, |d|, h)
    requires HeaderLength(d'[g.start]) == |h| && HeaderList(d'[g.start]) == h
    requires d'[g.start + 1..g.start + 1 + |h|] == vals
    requires forall b | 0 <= b < |d| && !g.IsLog(b) && b !in h :: d'[b] == d[b]
    ensures Recoverable(g, d')
    ensures Quiet(g, Recovered(g, d'))
    ensures SameHome(g, Recovered(g, d'), Installed(d, h, vals))
  {
    RecoveredMeaning(g, d');
    forall b | 0 <= b < |d| && !g.IsLog(b) ensures Installed(d', h, vals)[b] == Installed(d, h, vals)[b] {
      if b in h {
        var i :| 0 <= i < |h| && h[i] == b;
        InstalledAt(d, h, vals, i);
        InstalledAt(d', h, vals, i);
      } else {
        InstalledElsewhere(d, h, vals, b);
        InstalledElsewhere(d', h, vals, b);
      }
    }
  }

  lemma LogPrefixRange(g: Region, n: nat, vals: seq<Block>, k: nat)
    requires Fits(g, n) && |vals| < g.size && k <= |vals|
    ensures |LogWrites(g, vals)| == |vals|
    ensures forall i | 0 <= i < k :: LogWrites(g, vals)[i] == Write(g.start + 1 + i, vals[i]) && g.start + 1 + i < n
  {
  }

  lemma LogPrefixElsewhere(g: Region, d: DiskState, vals: seq<Block>, k: nat, b: nat)
    requires Fits(g, |d|) && |vals| < g.size && k <= |vals| && b < |d| && (b == g.start || !g.IsLog(b))
    ensures |LogWrites(g, vals)| == |vals| && forall i | 0 <= i < k :: LogWrites(g, vals)[i].number < |d|
    ensures Apply(d, LogWrites(g, vals)[..k])[b] == d[b]
  {
    hide Apply, LogWrites;
    LogPrefixRange(g, |d|, vals, k);
    ApplyElsewhere(d, LogWrites(g, vals)[..k], b);
  }

  lemma LogPrefixAt(g: Region, d: DiskState, vals: seq<Block>, k: nat, i: nat)
    requires Fits(g, |d|) && |vals| < g.size && i < k <= |vals|
    ensures |LogWrites(g, vals)| == |vals| && forall j | 0 <= j < k :: LogWrites(g, vals)[j].number < |d|
    ensures g.start + 1 + i < |d| && Apply(d, LogWrites(g, vals)[..k])[g.start + 1 + i] == vals[i]
  {
    hide Apply, LogWrites;
    LogPrefixRange(g, |d|, vals, k);
    ApplyAt(d, LogWrites(g, vals)[..k], i);
  }

  /** Log blocks are written while the header still says nothing is waiting. */
  lemma LogWritesContents(g: Region, d: DiskState, vals: seq<Block>, k: nat)
    requires Fits(g, |d|) && |vals| < g.size && k <= |vals|
    ensures forall i | 0 <= i < k :: LogWrites(g, vals)[i].number < |d|
    ensures Apply(d, LogWrites(g, vals)[..k])[g.start] == d[g.start]
    ensures SameHome(g, Apply(d, LogWrites(g, vals)[..k]), d)
    ensures forall i | 0 <= i < k :: Apply(d, LogWrites(g, vals)[..k])[g.start + 1 + i] == vals[i]
  {
    hide Apply, LogWrites;
    LogPrefixElsewhere(g, d, vals, k, g.start);
    forall b | 0 <= b < |d| && !g.IsLog(b) ensures Apply(d, LogWrites(g, vals)[..k])[b] == d[b] {
      LogPrefixElsewhere(g, d, vals, k, b);
    }
    forall i | 0 <= i < k ensures Apply(d, LogWrites(g, vals)[..k])[g.start + 1 + i] == vals[i] {
      LogPrefixAt(g, d, vals, k, i);
    }
  }

  lemma InstalledNothing(d: DiskState)
    ensures Installed(d, [], []) == d
  {
  }

  lemma QuietRecovers(g: Region, d: DiskState)
    requires Quiet(g, d)
    ensures Recoverable(g, d)
    ensures Quiet(g, Recovered(g, d)) && SameHome(g, Recovered(g, d), d)
  {
    assert Recoverable(g, d);
    hide Apply, HeaderLength, HeaderList, Recovered;
    RecoveredMeaning(g, d);
    assert d[g.start + 1..g.start + 1 + 0] == [];
    InstalledNothing(d);
  }

  /** With the header on disk and the first `j` homes written. */
  ghost function MidInstall(g: Region, d: DiskState, h: seq<nat>, vals: seq<Block>, j: nat): (r: DiskState)
    requires Loggable(g, |d|, h) && |h| == |vals| && j <= |h|
    ensures |r| == |d|
  {
    Apply(Apply(d, LogWrites(g, vals))[g.start := EncodeHeader(d[g.start], h)], InstallWrites(h, vals)[..j])
  }

  /** Installing touches only the blocks it names. */
  lemma InstallPrefix(d: DiskState, h: seq<nat>, vals: seq<Block>, j: nat)
    requires |h| == |vals| && Distinct(h) && j <= |h|
    requires forall i | 0 <= i < |h| :: h[i] < |d|
    ensures forall i | 0 <= i < j :: InstallWrites(h, vals)[i].number < |d|
    ensures forall b | 0 <= b < |d| && b !in h :: Apply(d, InstallWrites(h, vals)[..j])[b] == d[b]
    ensures forall i | 0 <= i < j :: Apply(d, InstallWrites(h, vals)[..j])[h[i]] == vals[i]
  {
    var ws := InstallWrites(h, vals)[..j];
    hide Apply;
    forall b | 0 <= b < |d| && b !in h ensures Apply(d, ws)[b] == d[b] {
      ApplyElsewhere(d, ws, b);
    }
    forall i | 0 <= i < j ensures Apply(d, ws)[h[i]] == vals[i] {
      ApplyAt(d, ws, i);
    }
  }

  lemma MidInstallContents(g: Region, d: DiskState, h: seq<nat>, vals: seq<Block>, j: nat)
    requires Quiet(g, d) && Loggable(g, |d|, h) && |h| == |vals| && j <= |h|
    ensures var m := MidInstall(g, d, h, vals, j);
            && m[g.start] == EncodeHeader(d[g.start], h)
            && (forall i | 0 <= i < |h| :: m[g.start + 1 + i] == vals[i])
            && (forall b | 0 <= b < |d| && !g.IsLog(b) && b !in h :: m[b] == d[b])
            && (forall i | 0 <= i < j :: m[h[i]] == vals[i])
  {
    hide Apply, EncodeHeader, HeaderLength;
    LogWritesContents(g, d, vals, |vals|);
    assert LogWrites(g, vals)[..|vals|] == LogWrites(g, vals);
    var m0 := Apply(d, LogWrites(g, vals))[g.start := EncodeHeader(d[g.start], h)];
    InstallPrefix(m0, h, vals, j);
  }

  lemma AfterCommitPoint(g: Region, d: DiskState, h: seq<nat>, vals: seq<Block>, j: nat)
    requires Quiet(g, d) && Loggable(g, |d|, h) && |h| == |vals| && j <= |h|
    ensures Recoverable(g, MidInstall(g, d, h, vals, j))
    ensures SameHome(g, Recovered(g, MidInstall(g, d, h, vals, j)), Installed(d, h, vals))
    ensures Quiet(g, Recovered(g, MidInstall(g, d, h, vals, j)))
  {
    MidInstallContents(g, d, h, vals, j);
    var m := MidInstall(g, d, h, vals, j);
    HeaderRoundTrip(d[g.start], h);
    assert m[g.start + 1..g.start + 1 + |h|] == vals;
    RecoveredFromLog(g, d, m, h, vals);
  }

  /** A finished commit: homes in place, header cleared. */
  lemma CommitFinished(g: Region, d: DiskState, h: seq<nat>, vals: seq<Block>)
    requires Quiet(g, d) && Loggable(g, |d|, h) && |h| == |vals| && h != []
    ensures var m := MidInstall(g, d, h, vals, |h|)[g.start := EncodeHeader(EncodeHeader(d[g.start], h), [])];
            Quiet(g, m) && SameHome(g, m, Installed(d, h, vals))
  {
    MidInstallContents(g, d, h, vals, |h|);
    HeaderRoundTrip(EncodeHeader(d[g.start], h), []);
    var m := MidInstall(g, d, h, vals, |h|)[g.start := EncodeHeader(EncodeHeader(d[g.start], h), [])];
    forall b | 0 <= b < |d| && !g.IsLog(b) ensures m[b] == Installed(d, h, vals)[b] {
      if b in h {
        var i :| 0 <= i < |h| && h[i] == b;
        InstalledAt(d, h, vals, i);
      } else {
        InstalledElsewhere(d, h, vals, b);
      }
    }
  }

  /** The disk after the first `k` writes of a commit. */
  function CommitPrefix(g: Region, d: DiskState, h: seq<nat>, vals: seq<Block>, k: nat): (r: DiskState)
    requires Loggable(g, |d|, h) && |h| == |vals|
    requires k <= |CommitWrites(g, d, h, vals)|
    ensures |r| == |d|
  {
    CommitWritesInRange(g, d, h, vals);
    Apply(d, CommitWrites(g, d, h, vals)[..k])
  }

  lemma CommitPrefixShape(g: Region, d: DiskState, h: seq<nat>, vals: seq<Block>, k: nat)
    requires Loggable(g, |d|, h) && |h| == |vals| && h != []
    requires k <= 2 * |h| + 1
    ensures |CommitWrites(g, d, h, vals)| == 2 * |h| + 2
    ensures k <= |h| ==> CommitPrefix(g, d, h, vals, k) == Apply(d, LogWrites(g, vals)[..k])
    ensures k > |h| ==> CommitPrefix(g, d, h, vals, k) == MidInstall(g, d, h, vals, k - |h| - 1)
  {
    var ws := CommitWrites(g, d, h, vals);
    var logs, installs := LogWrites(g, vals), InstallWrites(h, vals);
    CommitWritesInRange(g, d, h, vals);
    if k <= |h| {
      assert ws[..k] == logs[..k];
    } else {
      var head := Write(g.start, EncodeHeader(d[g.start], h));
      var part := installs[..k - |h| - 1];
      assert ws[..k] == logs + [head] + part;
      assert (logs + [head])[..|logs|] == logs;
      ApplyConcat(d, logs + [head], part);
    }
  }

  lemma CommitWhole(g: Region, d: DiskState, h: seq<nat>, vals: seq<Block>)
    requires Loggable(g, |d|, h) && |h| == |vals| && h != []
    ensures |CommitWrites(g, d, h, vals)| == 2 * |h| + 2
    ensures CommitPrefix(g, d, h, vals, 2 * |h| + 2)
            == MidInstall(g, d, h, vals, |h|)[g.start := EncodeHeader(EncodeHeader(d[g.start], h), [])]
  {
    var ws := CommitWrites(g, d, h, vals);
    CommitWritesInRange(g, d, h, vals);
    CommitPrefixShape(g, d, h, vals, 2 * |h| + 1);
    assert ws[..2 * |h| + 2] == ws;
    assert ws[..|ws| - 1] == ws[..2 * |h| + 1];
  }

  lemma NothingToCommit(g: Region, d: DiskState)
    requires Quiet(g, d)
    ensures Loggable(g, |d|, []) && CommitWrites(g, d, [], []) == []
    ensures CommitPrefix(g, d, [], [], 0) == d
  {
  }

  /** Crash atomicity of commit. Stopped after any number of its writes, recovery leaves all
      home blocks as before the transaction when the header had not been written yet, and all
      of them as after it otherwise. */
  lemma CommitIsAtomic(g: Region, d: DiskState, h: seq<nat>, vals: seq<Block>, k: nat)
    requires Quiet(g, d) && Loggable(g, |d|, h) && |h| == |vals|
    requires k <= |CommitWrites(g, d, h, vals)|
    ensures var m := CommitPrefix(g, d, h, vals, k);
            && Recoverable(g, m)
            && Quiet(g, Recovered(g, m))
            && SameHome(g, Recovered(g, m), if k <= |h| then d else Installed(d, h, vals))
  {
    hide Apply, EncodeHeader, CommitWrites, HeaderLength, HeaderList, Recovered;
    if h == [] {
      NothingToCommit(g, d);
      QuietRecovers(g, d);
    } else {
      CommitWhole(g, d, h, vals);
      if k <= 2 * |h| + 1 {
        CommitPrefixShape(g, d, h, vals, k);
      }
      if k <= |h| {
        LogWritesContents(g, d, vals, k);
        QuietRecovers(g, Apply(d, LogWrites(g, vals)[..k]));
      } else if k <= 2 * |h| + 1 {
        AfterCommitPoint(g, d, h, vals, k - |h| - 1);
      } else {
        CommitFinished(g, d, h, vals);
        QuietRecovers(g, CommitPrefix(g, d, h, vals, k));
      }
    }
  }

  // ---------- recovery, itself stopped anywhere ----------

  function RecoverPrefix(g: Region, d: DiskState, k: nat): (r: DiskState)
    requires Recoverable(g, d) && k <= |RecoverWrites(g, d)|
    ensures |r| == |d|
  {
    RecoverWritesInRange(g, d);
    Apply(d, RecoverWrites(g, d)[..k])
  }

  lemma RecoverPrefixContents(g: Region, d: DiskState, h: seq<nat>, vals: seq<Block>, k: nat)
    requires Recoverable(g, d) && h == HeaderList(d[g.start]) && vals == d[g.start + 1..g.start + 1 + |h|]
    requires k < |RecoverWrites(g, d)|
    ensures k <= |h|
    ensures RecoverPrefix(g, d, k)[g.start] == d[g.start]
    ensures RecoverPrefix(g, d, k)[g.start + 1..g.start + 1 + |h|] == vals
    ensures forall b | 0 <= b < |d| && !g.IsLog(b) && b !in h :: RecoverPrefix(g, d, k)[b] == d[b]
  {
    assert RecoverWrites(g, d)[..k] == InstallWrites(h, vals)[..k];
    hide Apply, HeaderLength, HeaderList;
    InstallPrefix(d, h, vals, k);
    var m := RecoverPrefix(g, d, k);
    assert m[g.start + 1..g.start + 1 + |h|] == vals;
  }

  /** Crash atomicity of recovery: a recovery stopped after any number of its writes leaves a
      disk that recovers to the same home blocks. */
  lemma RecoveryIsRestartable(g: Region, d: DiskState, k: nat)
    requires Recoverable(g, d) && k <= |RecoverWrites(g, d)|
    ensures Recoverable(g, RecoverPrefix(g, d, k))
    ensures SameHome(g, Recovered(g, RecoverPrefix(g, d, k)), Recovered(g, d))
  {
    var h := HeaderList(d[g.start]);
    var vals := d[g.start + 1..g.start + 1 + |h|];
    RecoveredMeaning(g, d);
    if k == |RecoverWrites(g, d)| {
      assert RecoverWrites(g, d)[..k] == RecoverWrites(g, d);
      hide Apply, HeaderLength, HeaderList, RecoverWrites;
      QuietRecovers(g, Recovered(g, d));
    } else {
      hide Apply, HeaderLength, HeaderList, RecoverWrites, Recovered, RecoverPrefix, InstallWrites;
      RecoverPrefixContents(g, d, h, vals, k);
      RecoveredFromLog(g, d, RecoverPrefix(g, d, k), h, vals);
    }
  }

  // ---------- whole histories ----------

  /** How a transaction ended: commit ran to its end, or the machine stopped after `at` of its
      writes and then during each of the first recoveries after the given number of writes. */
  datatype Ending = Finished | Stopped(at: nat, recoveries: seq<nat>)

  datatype Transaction = Transaction(h: seq<nat>, vals: seq<Block>, ending: Ending)

  /** Restart the machine: recoveries cut short, then one that completes. A count beyond what a
      recovery writes stands for a crash just after its last write. */
  function Reboot(g: Region, d: DiskState, cuts: seq<nat>): (r: DiskState)
    requires Recoverable(g, d)
    ensures |r| == |d| && Quiet(g, r) && SameHome(g, r, Recovered(g, d))
    decreases |cuts|
  {
    RecoveredMeaning(g, d);
    if cuts == [] then Recovered(g, d)
    else
      var ws := RecoverWrites(g, d);
      var k := if cuts[0] <= |ws| then cuts[0] else |ws|;
      RecoveryIsRestartable(g, d, k);
      Reboot(g, RecoverPrefix(g, d, k), cuts[1..])
  }

  ghost predicate LegalTransaction(g: Region, n: nat, t: Transaction) {
    && Loggable(g, n, t.h) && |t.h| == |t.vals|
    && (t.ending.Stopped? ==> t.ending.at <= (if t.h == [] then 0 else 2 * |t.h| + 2))
  }

  /** The header reached the disk. */
  predicate Durable(t: Transaction) {
    t.ending.Finished? || t.ending.at > |t.h|
  }

  function RunOne(g: Region, d: DiskState, t: Transaction): (r: DiskState)
    requires Quiet(g, d) && LegalTransaction(g, |d|, t)
    ensures |r| == |d| && Quiet(g, r)
    ensures SameHome(g, r, if Durable(t) then Installed(d, t.h, t.vals) else d)
  {
    var ws := CommitWrites(g, d, t.h, t.vals);
    assert |ws| == if t.h == [] then 0 else 2 * |t.h| + 2;
    match t.ending
    case Finished =>
      assert SameHome(g, CommitPrefix(g, d, t.h, t.vals, |ws|), Installed(d, t.h, t.vals))
             && Quiet(g, CommitPrefix(g, d, t.h, t.vals, |ws|)) by {
        if t.h != [] {
          CommitWhole(g, d, t.h, t.vals);
          CommitFinished(g, d, t.h, t.vals);
        }
      }
      CommitPrefix(g, d, t.h, t.vals, |ws|)
    case Stopped(at, cuts) =>
      CommitIsAtomic(g, d, t.h, t.vals, at);
      Reboot(g, CommitPrefix(g, d, t.h, t.vals, at), cuts)
  }

  ghost function Run(g: Region, d: DiskState, ts: seq<Transaction>): (r: DiskState)
    requires Quiet(g, d) && forall i | 0 <= i < |ts| :: LegalTransaction(g, |d|, ts[i])
    ensures |r| == |d| && Quiet(g, r)
    decreases |ts|
  {
    if ts == [] then d else Run(g, RunOne(g, d, ts[0]), ts[1..])
  }

  /** The idealised disk: durable transactions happen, the others never did. */
  ghost function Ideal(g: Region, d: DiskState, ts: seq<Transaction>): (r: DiskState)
    requires forall i | 0 <= i < |ts| :: LegalTransaction(g, |d|, ts[i])
    ensures |r| == |d|
    decreases |ts|
  {
    if ts == [] then d
    else
      assert LegalTransaction(g, |d|, ts[0]);
      Ideal(g, if Durable(ts[0]) then Installed(d, ts[0].h, ts[0].vals) else d, ts[1..])
  }

  lemma {:induction false} IdealSameHome(g: Region, d: DiskState, d': DiskState, ts: seq<Transaction>)
    requires SameHome(g, d, d')
    requires forall i | 0 <= i < |ts| :: LegalTransaction(g, |d|, ts[i])
    ensures SameHome(g, Ideal(g, d, ts), Ideal(g, d', ts))
    decreases |ts|
  {
    if ts != [] {
      var t := ts[0];
      var e := if Durable(t) then Installed(d, t.h, t.vals) else d;
      var e' := if Durable(t) then Installed(d', t.h, t.vals) else d';
      forall b | 0 <= b < |d| && !g.IsLog(b) ensures e[b] == e'[b] {
        if Durable(t) {
          if b in t.h {
            var i :| 0 <= i < |t.h| && t.h[i] == b;
            InstalledAt(d, t.h, t.vals, i);
            InstalledAt(d', t.h, t.vals, i);
          } else {
            InstalledElsewhere(d, t.h, t.vals, b);
            InstalledElsewhere(d', t.h, t.vals, b);
          }
        }
      }
      IdealSameHome(g, e, e', ts[1..]);
    }
  }

  /** Over any history of transactions, crashes at any write and recoveries interrupted any
      number of times, the home blocks are those of the durable transactions, each whole and in
      order, and of no other. */
  lemma {:induction false} HistoryIsAtomic(g: Region, d: DiskState, ts: seq<Transaction>)
    requires Quiet(g, d) && forall i | 0 <= i < |ts| :: LegalTransaction(g, |d|, ts[i])
    ensures SameHome(g, Run(g, d, ts), Ideal(g, d, ts))
    decreases |ts|
  {
    if ts != [] {
      var d1 := RunOne(g, d, ts[0]);
      HistoryIsAtomic(g, d1, ts[1..]);
      IdealSameHome(g, d1, if Durable(ts[0]) then Installed(d, ts[0].h, ts[0].vals) else d, ts[1..]);
    }
  }

  /** What holds of home blocks is unaffected by the log. */
  ghost predicate AboutHome(g: Region, p: DiskState -> bool) {
    forall d: DiskState, d': DiskState | SameHome(g, d, d') :: p(d) == p(d')
  }

  ghost predicate KeptBy(g: Region, p: DiskState -> bool, t: Transaction) {
    forall d: DiskState | LegalTransaction(g, |d|, t) && p(d) :: p(Installed(d, t.h, t.vals))
  }

  /** So a property of the home blocks that every transaction keeps when it happens whole holds after any
      history, whatever transactions were cut off wherever. */
  lemma {:induction false} KeptOverHistory(g: Region, d: DiskState, ts: seq<Transaction>, p: DiskState -> bool)
    requires Quiet(g, d) && forall i | 0 <= i < |ts| :: LegalTransaction(g, |d|, ts[i])
    requires AboutHome(g, p) && p(d) && forall i | 0 <= i < |ts| :: KeptBy(g, p, ts[i])
    ensures p(Run(g, d, ts))
    decreases |ts|
  {
    hide Quiet, LegalTransaction, SameHome, Installed, AboutHome, KeptBy, RunOne, Durable;
    if ts != [] {
      assert LegalTransaction(g, |d|, ts[0]) && KeptBy(g, p, ts[0]);
      KeptByOne(g, d, ts[0], p);
      forall i | 0 <= i < |ts| - 1 ensures LegalTransaction(g, |d|, ts[1..][i]) && KeptBy(g, p, ts[1..][i]) {
        assert ts[1..][i] == ts[i + 1];
      }
      KeptOverHistory(g, RunOne(g, d, ts[0]), ts[1..], p);
    }
  }

  lemma KeptByOne(g: Region, d: DiskState, t: Transaction, p: DiskState -> bool)
    requires Quiet(g, d) && LegalTransaction(g, |d|, t) && AboutHome(g, p) && p(d) && KeptBy(g, p, t)
    ensures p(RunOne(g, d, t))
  {
    assert SameHome(g, RunOne(g, d, t), if Durable(t) then Installed(d, t.h, t.vals) else d);
  }
}
