/** Log space as beginOperation accounts for it. */
module Reservations {
  import opened Journal
  import opened BufferCaching

  const MAX_OP_BLOCKS := 10

  /** Blocks in the header, and for each operation under way how many it may still add. */
  datatype Account = Account(length: nat, budgets: seq<nat>)

  function Sum(s: seq<nat>): nat {
    if s == [] then 0 else s[0] + Sum(s[1..])
  }

  lemma {:induction false} SumUpdate(s: seq<nat>, i: nat, x: nat)
    requires i < |s|
    ensures Sum(s[i := x]) == Sum(s) - s[i] + x
  {
    if i == 0 {
      assert s[0 := x][1..] == s[1..];
    } else {
      SumUpdate(s[1..], i - 1, x);
      assert s[i := x][1..] == s[1..][i - 1 := x];
    }
  }

  lemma {:induction false} SumRemove(s: seq<nat>, i: nat)
    requires i < |s|
    ensures Sum(s[..i] + s[i + 1..]) == Sum(s) - s[i]
  {
    if i == 0 {
      assert s[..0] + s[1..] == s[1..];
    } else {
      SumRemove(s[1..], i - 1);
      assert (s[..i] + s[i + 1..])[1..] == s[1..][..i - 1] + s[1..][i..];
    }
  }

  lemma {:induction false} SumAppend(s: seq<nat>, x: nat)
    ensures Sum(s + [x]) == Sum(s) + x
  {
    if s != [] {
      SumAppend(s[1..], x);
      assert (s + [x])[1..] == s[1..] + [x];
    } else {
      assert ([x])[1..] == [];
    }
  }

  lemma {:induction false} SumBound(s: seq<nat>, m: nat)
    requires forall i | 0 <= i < |s| :: s[i] <= m
    ensures Sum(s) <= |s| * m
  {
    if s != [] {
      SumBound(s[1..], m);
    }
  }

  /** beginOperation lets the caller in. */
  predicate MayBegin(a: Account) {
    a.length + (|a.budgets| + 1) * MAX_OP_BLOCKS <= LOG_SIZE
  }

  /** log.write refuses: "too big a transaction". */
  predicate Full(length: nat, nlog: nat) {
    length >= LOG_SIZE || length + 1 >= nlog
  }

  datatype Step = Begin | Add(op: nat) | Again(op: nat) | Finish(op: nat)

  predicate Allowed(nlog: nat, a: Account, s: Step) {
    match s
    case Begin => MayBegin(a)
    case Add(op) => op < |a.budgets| && a.budgets[op] > 0 && !Full(a.length, nlog)
    case Again(op) => op < |a.budgets| && a.length > 0 && !Full(a.length, nlog)
    case Finish(op) => op < |a.budgets|
  }

  /** An operation begins, adds a block that was not in the header, logs one again that is in it, or ends;
      the last one to end commits and empties the header. */
  function After(nlog: nat, a: Account, s: Step): Account
    requires Allowed(nlog, a, s)
  {
    match s
    case Begin => a.(budgets := a.budgets + [MAX_OP_BLOCKS])
    case Add(op) => Account(a.length + 1, a.budgets[op := a.budgets[op] - 1])
    case Again(_) => a
    case Finish(op) =>
      var rest := a.budgets[..op] + a.budgets[op + 1..];
      Account(if rest == [] then 0 else a.length, rest)
  }

  ghost predicate Covered(a: Account) {
    && (forall i | 0 <= i < |a.budgets| :: a.budgets[i] <= MAX_OP_BLOCKS)
    && a.length + Sum(a.budgets) <= LOG_SIZE
  }

  /** Header length plus unused reservations never exceeds the log. */
  lemma StepCovered(nlog: nat, a: Account, s: Step)
    requires Covered(a) && Allowed(nlog, a, s)
    ensures Covered(After(nlog, a, s))
  {
    match s
    case Begin =>
      SumBound(a.budgets, MAX_OP_BLOCKS);
      SumAppend(a.budgets, MAX_OP_BLOCKS);
    case Add(op) =>
      SumUpdate(a.budgets, op, a.budgets[op] - 1);
    case Again(_) =>
    case Finish(op) =>
      SumRemove(a.budgets, op);
  }

  predicate AllowedRun(nlog: nat, a: Account, run: seq<Step>)
    decreases |run|
  {
    run == [] || (Allowed(nlog, a, run[0]) && AllowedRun(nlog, After(nlog, a, run[0]), run[1..]))
  }

  function RunAll(nlog: nat, a: Account, run: seq<Step>): Account
    requires AllowedRun(nlog, a, run)
    decreases |run|
  {
    if run == [] then a else RunAll(nlog, After(nlog, a, run[0]), run[1..])
  }

  lemma {:induction false} RunCovered(nlog: nat, a: Account, run: seq<Step>)
    requires Covered(a) && AllowedRun(nlog, a, run)
    ensures Covered(RunAll(nlog, a, run))
    decreases |run|
  {
    if run != [] {
      StepCovered(nlog, a, run[0]);
      RunCovered(nlog, After(nlog, a, run[0]), run[1..]);
    }
  }

  ghost predicate Reachable(nlog: nat, a: Account) {
    exists run :: AllowedRun(nlog, Account(0, []), run) && RunAll(nlog, Account(0, []), run) == a
  }

  /** In some reachable state an operation that has added fewer than ten blocks is refused. */
  ghost predicate RefusesWithinBudget(nlog: nat) {
    exists a, op | Reachable(nlog, a) && 0 <= op < |a.budgets| :: a.budgets[op] > 0 && Full(a.length, nlog)
  }

  /** In some reachable state with something to commit, the header's blocks and `outside` others, read by
      processes in no operation, take up all buffers. */
  ghost predicate RunsOut(nlog: nat, outside: nat) {
    exists a | Reachable(nlog, a) :: 0 < a.length && a.length + outside >= NBUF
  }

  lemma {:induction false} Extend(nlog: nat, a: Account, run: seq<Step>, s: Step)
    requires AllowedRun(nlog, a, run) && Allowed(nlog, RunAll(nlog, a, run), s)
    ensures AllowedRun(nlog, a, run + [s])
    ensures RunAll(nlog, a, run + [s]) == After(nlog, RunAll(nlog, a, run), s)
    decreases |run|
  {
    if run == [] {
      assert [s][1..] == [];
    } else {
      Extend(nlog, After(nlog, a, run[0]), run[1..], s);
      assert (run + [s])[1..] == run[1..] + [s];
    }
  }

  lemma ReachableStep(nlog: nat, a: Account, s: Step)
    requires Reachable(nlog, a) && Allowed(nlog, a, s)
    ensures Reachable(nlog, After(nlog, a, s))
  {
    var run :| AllowedRun(nlog, Account(0, []), run) && RunAll(nlog, Account(0, []), run) == a;
    Extend(nlog, Account(0, []), run, s);
    assert AllowedRun(nlog, Account(0, []), run + [s]);
  }

  /** Three operations that have added `n` blocks between them, the earlier ones first. */
  function Three(n: nat): Account
    requires n <= 30
  {
    Account(n, [10 - (if n < 10 then n else 10),
                10 - (if n < 10 then 0 else if n < 20 then n - 10 else 10),
                10 - (if n < 20 then 0 else n - 20)])
  }

  lemma {:induction false} ThreeReachable(nlog: nat, n: nat)
    requires n <= 30 && (n == 0 || n < nlog)
    ensures Reachable(nlog, Three(n))
  {
    if n == 0 {
      var a0 := Account(0, []);
      assert AllowedRun(nlog, a0, []);
      ReachableStep(nlog, a0, Begin);
      ReachableStep(nlog, Account(0, [10]), Begin);
      ReachableStep(nlog, Account(0, [10, 10]), Begin);
    } else {
      ThreeReachable(nlog, n - 1);
      ReachableStep(nlog, Three(n - 1), Add((n - 1) / 10));
    }
  }

  lemma CoveredWhenReachable(nlog: nat, a: Account)
    requires Reachable(nlog, a)
    ensures Covered(a) && (a.length == 0 || a.length < nlog)
  {
    var run :| AllowedRun(nlog, Account(0, []), run) && RunAll(nlog, Account(0, []), run) == a;
    RunCovered(nlog, Account(0, []), run);
    RunShort(nlog, Account(0, []), run);
  }

  /** An operation with budget left is never refused exactly when the log has at least 31
      blocks, one more than LOG_SIZE because the header takes one. */
  lemma ReservationIsEnough(nlog: nat)
    ensures !RefusesWithinBudget(nlog) <==> nlog >= LOG_SIZE + 1
  {
    if nlog >= LOG_SIZE + 1 {
      forall a, op | Reachable(nlog, a) && 0 <= op < |a.budgets| && a.budgets[op] > 0
        ensures !Full(a.length, nlog)
      {
        CoveredWhenReachable(nlog, a);
        SumUpdate(a.budgets, op, 0);
      }
    } else {
      var a := Three(if nlog == 0 then 0 else nlog - 1);
      ThreeReachable(nlog, a.length);
      assert Reachable(nlog, a) && a.budgets[2] > 0 && Full(a.length, nlog);
    }
  }

  /** With such a log, logging once more a block that is in the header is refused exactly when the header
      has 30 blocks, and then no operation has budget left. */
  lemma AgainRefused(nlog: nat, a: Account)
    requires nlog >= LOG_SIZE + 1 && Reachable(nlog, a)
    ensures Full(a.length, nlog) <==> a.length == LOG_SIZE
    ensures a.length == LOG_SIZE ==> forall op | 0 <= op < |a.budgets| :: a.budgets[op] == 0
  {
    CoveredWhenReachable(nlog, a);
    if a.length == LOG_SIZE {
      forall op | 0 <= op < |a.budgets| ensures a.budgets[op] == 0 {
        SumUpdate(a.budgets, op, 0);
      }
    }
  }

  /** That happens: three operations that have added ten blocks each and log one of them again. */
  lemma AgainCanBeRefused(nlog: nat)
    requires nlog >= LOG_SIZE + 1
    ensures Reachable(nlog, Account(30, [0, 0, 0])) && !Allowed(nlog, Account(30, [0, 0, 0]), Again(0))
  {
    ThreeReachable(nlog, 30);
  }

  /** A commit can be left without a buffer exactly when the longest header the log allows, if it is not
      empty, and the blocks others are reading make 30. */
  lemma CommitCanRunOut(nlog: nat, outside: nat)
    ensures RunsOut(nlog, outside) <==> nlog >= 2 && (if nlog <= LOG_SIZE then nlog - 1 else LOG_SIZE) + outside >= NBUF
  {
    if nlog >= 2 {
      var n := if nlog <= LOG_SIZE then nlog - 1 else LOG_SIZE;
      ThreeReachable(nlog, n);
      assert Reachable(nlog, Three(n));
    }
    forall a | Reachable(nlog, a) ensures a.length <= LOG_SIZE && (a.length == 0 || a.length < nlog) {
      CoveredWhenReachable(nlog, a);
    }
  }

  /** Every log that can commit anything has one of the two problems: with no reader at all, or, for a log
      of 30 blocks, both of them with one reader. */
  lemma NoSizeIsSafe(nlog: nat)
    ensures RefusesWithinBudget(nlog) || RunsOut(nlog, 0)
    ensures RefusesWithinBudget(30) && !RunsOut(30, 0) && RunsOut(30, 1)
    ensures Reachable(30, Account(29, [0, 0, 1]))
  {
    ReservationIsEnough(nlog);
    ReservationIsEnough(30);
    CommitCanRunOut(nlog, 0);
    CommitCanRunOut(30, 0);
    CommitCanRunOut(30, 1);
    ThreeReachable(30, 29);
  }

  lemma {:induction false} RunShort(nlog: nat, a: Account, run: seq<Step>)
    requires AllowedRun(nlog, a, run) && (a.length == 0 || a.length < nlog)
    ensures RunAll(nlog, a, run).length == 0 || RunAll(nlog, a, run).length < nlog
    decreases |run|
  {
    if run != [] {
      RunShort(nlog, After(nlog, a, run[0]), run[1..]);
    }
  }
}
