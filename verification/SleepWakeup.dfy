/** Sleeping and waking: any number of processes, any interleaving of their steps at the points where
    they touch a lock, a process state or a channel. */
module SleepWakeup {
  import opened Wrappers

  datatype RunState = Running | Runnable | Sleeping

  /** Where a process is. `l` is the spin lock it passed to sleepWithLock or holds, `c` the channel. */
  datatype Pc =
    | Outside                           // holds no lock
    | Preempted                         // gave up the processor in yield
    | Holding(l: nat)                   // in the critical section of `l`
    | Entering(l: nat, c: nat)          // sleepWithLock called
    | Entered(l: nat, c: nat)           // has its own process lock too
    | Released(l: nat, c: nat)          // has given up `l`
    | Marked(l: nat, c: nat)            // channel set
    | Leaving(l: nat, c: nat)           // state set to sleeping
    | Away(l: nat, c: nat)              // switched to the scheduler
    | Back(l: nat, c: nat)              // chosen again, with its process lock taken by the scheduler
    | Tidied(l: nat)                    // channel cleared
    | Relocking(l: nat)                 // wants `l` again
    | Waking(l: nat, c: nat, i: nat)    // in wakeup, at table entry `i`

  /** `locked` says whether the process's own lock is held, by itself or on its behalf. */
  datatype Process = Process(pc: Pc, state: RunState, channel: Option<nat>, locked: bool)

  datatype Machine = Machine(procs: seq<Process>, locks: map<nat, nat>)

  datatype Action =
    | Preempt | Dispatch
    | Lock(l: nat) | Unlock
    | Sleep(c: nat) | TakeOwnLock | ReleaseLock | SetChannel | SetSleeping | SwitchAway
    | SchedulerRelease | Resume | ClearChannel | DropOwnLock | Relock
    | Wake(c: nat) | WakeNext | WakeDone
    | Kill(q: nat)

  /** Process `p` can take the step now. */
  predicate Enabled(m: Machine, p: nat, a: Action) {
    p < |m.procs| &&
    var x := m.procs[p];
    match a
    case Preempt => x.pc == Outside && !x.locked
    case Dispatch => x.pc == Preempted && x.state == Runnable && !x.locked
    case Lock(l) => x.pc == Outside && l !in m.locks
    case Unlock => x.pc.Holding?
    case Sleep(_) => x.pc.Holding?
    case TakeOwnLock => x.pc.Entering? && !x.locked
    case ReleaseLock => x.pc.Entered?
    case SetChannel => x.pc.Released?
    case SetSleeping => x.pc.Marked?
    case SwitchAway => x.pc.Leaving?
    case SchedulerRelease => x.pc.Away? && x.locked
    case Resume => x.pc.Away? && x.state == Runnable && !x.locked
    case ClearChannel => x.pc.Back?
    case DropOwnLock => x.pc.Tidied?
    case Relock => x.pc.Relocking? && x.pc.l !in m.locks
    case Wake(_) => x.pc.Holding?
    case WakeNext => x.pc.Waking? && x.pc.i < |m.procs| && (x.pc.i == p || !m.procs[x.pc.i].locked)
    case WakeDone => x.pc.Waking? && x.pc.i >= |m.procs|
    case Kill(q) => x.pc == Outside && q < |m.procs| && !m.procs[q].locked
  }

  function WithPc(m: Machine, p: nat, pc: Pc): Machine
    requires p < |m.procs|
  {
    m.(procs := m.procs[p := m.procs[p].(pc := pc)])
  }

  function WithProc(m: Machine, p: nat, x: Process): Machine
    requires p < |m.procs|
  {
    m.(procs := m.procs[p := x])
  }

  /** Entry `i` of the table as wakeup on `c` leaves it. */
  function Woken(x: Process, c: nat): Process {
    if x.state == Sleeping && x.channel == Some(c) then x.(state := Runnable) else x
  }

  function Killed(x: Process): Process {
    if x.state == Sleeping then x.(state := Runnable) else x
  }

  function Next(m: Machine, p: nat, a: Action): Machine
    requires Enabled(m, p, a)
  {
    var x := m.procs[p];
    match a
    case Preempt => WithProc(m, p, x.(pc := Preempted, state := Runnable))
    case Dispatch => WithProc(m, p, x.(pc := Outside, state := Running))
    case Lock(l) => WithPc(m, p, Holding(l)).(locks := m.locks[l := p])
    case Unlock => WithPc(m, p, Outside).(locks := m.locks - {x.pc.l})
    case Sleep(c) => WithPc(m, p, Entering(x.pc.l, c))
    case TakeOwnLock => WithProc(m, p, x.(pc := Entered(x.pc.l, x.pc.c), locked := true))
    case ReleaseLock => WithPc(m, p, Released(x.pc.l, x.pc.c)).(locks := m.locks - {x.pc.l})
    case SetChannel => WithProc(m, p, x.(pc := Marked(x.pc.l, x.pc.c), channel := Some(x.pc.c)))
    case SetSleeping => WithProc(m, p, x.(pc := Leaving(x.pc.l, x.pc.c), state := Sleeping))
    case SwitchAway => WithPc(m, p, Away(x.pc.l, x.pc.c))
    case SchedulerRelease => WithProc(m, p, x.(locked := false))
    case Resume => WithProc(m, p, x.(pc := Back(x.pc.l, x.pc.c), state := Running, locked := true))
    case ClearChannel => WithProc(m, p, x.(pc := Tidied(x.pc.l), channel := None))
    case DropOwnLock => WithProc(m, p, x.(pc := Relocking(x.pc.l), locked := false))
    case Relock => WithPc(m, p, Holding(x.pc.l)).(locks := m.locks[x.pc.l := p])
    case Wake(c) => WithPc(m, p, Waking(x.pc.l, c, 0))
    case WakeNext =>
      var next := WithPc(m, p, Waking(x.pc.l, x.pc.c, x.pc.i + 1));
      if x.pc.i == p then next else WithProc(next, x.pc.i, Woken(m.procs[x.pc.i], x.pc.c))
    case WakeDone => WithPc(m, p, Holding(x.pc.l))
    case Kill(q) => WithProc(m, q, Killed(m.procs[q]))
  }

  /** The spin lock a process holds. */
  function Held(pc: Pc): Option<nat> {
    if pc.Holding? || pc.Entering? || pc.Entered? || pc.Waking? then Some(pc.l) else None
  }

  predicate HoldsOwnLock(pc: Pc) {
    pc.Entered? || pc.Released? || pc.Marked? || pc.Leaving? || pc.Back? || pc.Tidied?
  }

  /** What the place of a process says about its other fields. */
  predicate Consistent(x: Process) {
    && (HoldsOwnLock(x.pc) ==> x.locked)
    && (!HoldsOwnLock(x.pc) && !x.pc.Away? ==> !x.locked)
    && (x.pc.Marked? || x.pc.Leaving? || x.pc.Away? || x.pc.Back? ==> x.channel == Some(x.pc.c))
    && (x.pc.Leaving? ==> x.state == Sleeping)
    && (x.pc.Away? ==> x.state != Running && (x.locked ==> x.state == Sleeping))
    && (x.pc.Preempted? ==> x.state == Runnable)
    && (!x.pc.Leaving? && !x.pc.Away? && !x.pc.Preempted? ==> x.state == Running)
  }

  /** Locks and processes agree on who holds what. */
  ghost predicate Invariant(m: Machine) {
    && (forall p | 0 <= p < |m.procs| :: Consistent(m.procs[p]))
    && (forall p: nat | p < |m.procs| && Held(m.procs[p].pc).Some? ::
          var l := Held(m.procs[p].pc).value; l in m.locks && m.locks[l] == p)
    && (forall l | l in m.locks :: m.locks[l] < |m.procs| && Held(m.procs[m.locks[l]].pc) == Some(l))
  }

  /** A step moves one process, and at most makes another one runnable. */
  lemma Others(m: Machine, p: nat, a: Action, q: nat)
    requires Enabled(m, p, a) && q < |m.procs| && q != p
    ensures |Next(m, p, a).procs| == |m.procs|
    ensures var x, x' := m.procs[q], Next(m, p, a).procs[q];
            x' == x || (!x.locked && x.state == Sleeping && x' == x.(state := Runnable))
  {
  }

  lemma Own(m: Machine, p: nat, a: Action)
    requires Enabled(m, p, a) && Consistent(m.procs[p])
    ensures |Next(m, p, a).procs| == |m.procs| && Consistent(Next(m, p, a).procs[p])
  {
  }

  lemma OwnLocks(m: Machine, p: nat, a: Action)
    requires Enabled(m, p, a)
    ensures |Next(m, p, a).procs| == |m.procs|
    ensures var l, l' := Held(m.procs[p].pc), Held(Next(m, p, a).procs[p].pc);
            var locks, locks' := m.locks, Next(m, p, a).locks;
            || (l' == l && locks' == locks)
            || (l == None && l'.Some? && l'.value !in locks && locks' == locks[l'.value := p])
            || (l.Some? && l' == None && locks' == locks - {l.value})
  {
  }

  lemma Preserved(m: Machine, p: nat, a: Action)
    requires Invariant(m) && Enabled(m, p, a)
    ensures Invariant(Next(m, p, a)) && |Next(m, p, a).procs| == |m.procs|
  {
    hide Next, Enabled;
    var m' := Next(m, p, a);
    Acts(m, p, a);
    Own(m, p, a);
    OwnLocks(m, p, a);
    forall q: nat | q < |m.procs| && q != p
      ensures Consistent(m'.procs[q]) && m'.procs[q].pc == m.procs[q].pc
    {
      Others(m, p, a, q);
    }
  }

  lemma Acts(m: Machine, p: nat, a: Action)
    requires Enabled(m, p, a)
    ensures p < |m.procs|
  {
  }

  /** A spin lock has one holder. */
  lemma SpinLockExclusive(m: Machine, p: nat, q: nat)
    requires Invariant(m) && p < |m.procs| && q < |m.procs|
    requires Held(m.procs[p].pc).Some? && Held(m.procs[p].pc) == Held(m.procs[q].pc)
    ensures p == q
  {
    assert m.locks[Held(m.procs[p].pc).value] == p;
  }

  /** A sleeper is woken by a wakeup of its own channel that passes it, or by kill, and by nothing else. */
  lemma WokenForReason(m: Machine, q: nat, a: Action, p: nat)
    requires Invariant(m) && Enabled(m, q, a) && p < |m.procs| && m.procs[p].state == Sleeping
    ensures |Next(m, q, a).procs| == |m.procs|
    ensures Next(m, q, a).procs[p].state == Sleeping
            || (a == Kill(p) && !m.procs[p].locked)
            || (a == WakeNext && q < |m.procs| && q != p && m.procs[q].pc.Waking? && m.procs[q].pc.i == p
                && m.procs[p].channel == Some(m.procs[q].pc.c) && !m.procs[p].locked)
    ensures Next(m, q, a).procs[p].state != Running
  {
    assert Consistent(m.procs[p]);
  }

  // ---------- runs ----------

  datatype Event = Event(p: nat, a: Action)

  function StepTo(m: Machine, e: Event): Machine {
    if Enabled(m, e.p, e.a) then Next(m, e.p, e.a) else m
  }

  /** The machine after the first `k` events. */
  function After(m: Machine, es: seq<Event>, k: nat): Machine
    requires k <= |es|
  {
    if k == 0 then m else StepTo(After(m, es, k - 1), es[k - 1])
  }

  ghost predicate Run(m: Machine, es: seq<Event>) {
    forall k: nat | k < |es| :: Enabled(After(m, es, k), es[k].p, es[k].a)
  }

  lemma {:induction false} RunPreserves(m: Machine, es: seq<Event>, k: nat)
    requires Invariant(m) && Run(m, es) && k <= |es|
    ensures Invariant(After(m, es, k)) && |After(m, es, k).procs| == |m.procs|
  {
    hide Invariant, Next, Enabled;
    if k > 0 {
      RunPreserves(m, es, k - 1);
      Preserved(After(m, es, k - 1), es[k - 1].p, es[k - 1].a);
    }
  }

  /** `p` has called sleepWithLock(`l`, `c`) and nobody has woken it yet. */
  predicate Waits(m: Machine, p: nat, l: nat, c: nat) {
    p < |m.procs| &&
    var x := m.procs[p];
    || x.pc == Entering(l, c) || x.pc == Entered(l, c) || x.pc == Released(l, c) || x.pc == Marked(l, c)
    || x.pc == Leaving(l, c)
    || (x.pc == Away(l, c) && x.state == Sleeping)
  }

  predicate MadeRunnable(m: Machine, p: nat, l: nat, c: nat) {
    p < |m.procs| && m.procs[p].pc == Away(l, c) && m.procs[p].state == Runnable
  }

  /** The only way out of waiting is to be made runnable. */
  lemma WaitsOrRunnable(m: Machine, q: nat, a: Action, p: nat, l: nat, c: nat)
    requires Invariant(m) && Enabled(m, q, a) && Waits(m, p, l, c)
    ensures Waits(Next(m, q, a), p, l, c) || MadeRunnable(Next(m, q, a), p, l, c)
  {
    assert Consistent(m.procs[p]);
    if q != p {
      Others(m, q, a, p);
    }
  }

  /** A waker that passes a waiting process makes it runnable. */
  lemma PassingWakes(m: Machine, q: nat, a: Action, p: nat, w: nat, l: nat, c: nat)
    requires Invariant(m) && Enabled(m, q, a) && Waits(m, p, l, c) && w < |m.procs|
    requires m.procs[w].pc.Waking? && m.procs[w].pc.l == l && m.procs[w].pc.c == c && m.procs[w].pc.i <= p
    requires !(q == w && a == WakeDone)
    ensures |Next(m, q, a).procs| == |m.procs|
    ensures MadeRunnable(Next(m, q, a), p, l, c)
            || (var pc := Next(m, q, a).procs[w].pc;
                pc.Waking? && pc.l == l && pc.c == c && pc.i <= p && Waits(Next(m, q, a), p, l, c))
  {
    assert Consistent(m.procs[p]) && Consistent(m.procs[w]);
    WaitsOrRunnable(m, q, a, p, l, c);
    if Held(m.procs[p].pc) == Some(l) {
      SpinLockExclusive(m, p, w);
    }
    if q != w {
      Others(m, q, a, w);
    }
  }

  ghost predicate WokenBetween(m: Machine, es: seq<Event>, p: nat, l: nat, c: nat, i: nat, k: nat)
    requires k <= |es|
  {
    exists t: nat :: i < t <= k && MadeRunnable(After(m, es, t), p, l, c)
  }

  lemma {:induction false} StillWaits(m: Machine, es: seq<Event>, p: nat, l: nat, c: nat, i: nat, k: nat)
    requires Invariant(m) && Run(m, es) && i <= k <= |es| && Waits(After(m, es, i), p, l, c)
    ensures WokenBetween(m, es, p, l, c, i, k) || Waits(After(m, es, k), p, l, c)
    decreases k - i
  {
    hide Invariant, Next, Enabled, Waits, MadeRunnable;
    if i < k {
      StillWaits(m, es, p, l, c, i, k - 1);
      RunPreserves(m, es, k - 1);
      if Waits(After(m, es, k - 1), p, l, c) {
        WaitsOrRunnable(After(m, es, k - 1), es[k - 1].p, es[k - 1].a, p, l, c);
        assert After(m, es, k) == Next(After(m, es, k - 1), es[k - 1].p, es[k - 1].a);
      }
    }
  }

  /** `w` is in the wakeup of `c` under `l`, not past table entry `p`. */
  predicate NotPast(m: Machine, w: nat, l: nat, c: nat, p: nat) {
    w < |m.procs| && m.procs[w].pc.Waking? && m.procs[w].pc.l == l && m.procs[w].pc.c == c && m.procs[w].pc.i <= p
  }

  lemma {:induction false} WakeupPasses(m: Machine, es: seq<Event>, p: nat, w: nat, l: nat, c: nat, j: nat, k: nat)
    requires Invariant(m) && Run(m, es) && j <= k <= |es|
    requires Waits(After(m, es, j), p, l, c) && NotPast(After(m, es, j), w, l, c, p)
    requires forall t: nat | j <= t < k :: es[t] != Event(w, WakeDone)
    ensures WokenBetween(m, es, p, l, c, j, k)
            || (Waits(After(m, es, k), p, l, c) && NotPast(After(m, es, k), w, l, c, p))
    decreases k - j
  {
    hide Invariant, Next, Enabled, Waits, MadeRunnable;
    if j < k {
      WakeupPasses(m, es, p, w, l, c, j, k - 1);
      RunPreserves(m, es, k - 1);
      if !WokenBetween(m, es, p, l, c, j, k - 1) {
        PassingWakes(After(m, es, k - 1), es[k - 1].p, es[k - 1].a, p, w, l, c);
        assert After(m, es, k) == Next(After(m, es, k - 1), es[k - 1].p, es[k - 1].a);
      }
    }
  }

  lemma WakeBegins(m: Machine, w: nat, c: nat, l: nat, p: nat)
    requires Enabled(m, w, Wake(c)) && m.procs[w].pc == Holding(l)
    ensures NotPast(Next(m, w, Wake(c)), w, l, c, p)
  {
  }

  lemma NotDone(m: Machine, w: nat, l: nat, c: nat, p: nat)
    requires NotPast(m, w, l, c, p) && Waits(m, p, l, c)
    ensures !Enabled(m, w, WakeDone)
  {
  }

  /** No wakeup is lost. A process calls sleepWithLock with `l` held, on channel `c`; later any process
      that holds `l` calls wakeup on `c`. When that call returns, the sleeper has been made runnable. */
  lemma NoLostWakeup(m: Machine, es: seq<Event>, p: nat, w: nat, l: nat, c: nat, i: nat, j: nat, k: nat)
    requires Invariant(m) && Run(m, es) && i <= j < k < |es|
    requires p < |m.procs| && |After(m, es, i).procs| == |m.procs| && After(m, es, i).procs[p].pc == Entering(l, c)
    requires es[j] == Event(w, Wake(c)) && w < |After(m, es, j).procs| && After(m, es, j).procs[w].pc == Holding(l)
    requires es[k] == Event(w, WakeDone) && forall t: nat | j < t < k :: es[t] != Event(w, WakeDone)
    ensures exists t: nat :: i < t <= k && MadeRunnable(After(m, es, t), p, l, c)
  {
    assert Waits(After(m, es, i), p, l, c);
    hide Invariant, Next, Enabled, Waits, MadeRunnable, NotPast;
    StillWaits(m, es, p, l, c, i, j + 1);
    if !WokenBetween(m, es, p, l, c, i, j + 1) {
      WakeBegins(After(m, es, j), w, c, l, p);
      assert After(m, es, j + 1) == Next(After(m, es, j), w, Wake(c));
      WakeupPasses(m, es, p, w, l, c, j + 1, k);
      if !WokenBetween(m, es, p, l, c, j + 1, k) {
        NotDone(After(m, es, k), w, l, c, p);
      }
    }
  }

  function Boot(n: nat): (m: Machine)
    ensures Invariant(m)
  {
    Machine(seq(n, i => Process(Outside, Running, None, false)), map[])
  }
}
