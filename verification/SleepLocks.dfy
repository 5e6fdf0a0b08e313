/** Sleep locks on top: processes that run acquire, release and isHolding of one sleep lock, among
    everything else the machine allows. */
module SleepLocks {
  import opened Wrappers
  import opened SleepWakeup

  const SPIN := 0     // the spin lock inside the sleep lock
  const CHANNEL := 0  // its address

  /** What a process is about in the critical section of SPIN. */
  datatype Intent =
    | Elsewhere
    | Acquiring | Acquired     // in acquire, before and after setting isLocked
    | Releasing | Cleared | Announced   // in release: before clearing isLocked, after it, after wakeup
    | Looking                  // in isHolding

  /** `owns` records which processes have acquired the lock and not released it. */
  datatype System = System(m: Machine, isLocked: bool, pid: Option<nat>, intents: seq<Intent>, owns: seq<bool>)

  datatype Move =
    | Machinery(a: Action)
    | Begin(intent: Intent)    // the first line of acquire, release or isHolding
    | SetLocked                // isLocked = true; pid = own
    | ClearLocked              // isLocked = false; pid = null

  predicate InSpin(pc: Pc) {
    && (pc.Holding? || pc.Entering? || pc.Entered? || pc.Released? || pc.Marked? || pc.Leaving? || pc.Away? || pc.Back?
        || pc.Tidied? || pc.Relocking? || pc.Waking?)
    && pc.l == SPIN
  }

  /** The program of the sleep lock: what a process in its critical section may do next. */
  predicate Follows(s: System, p: nat, v: Move) {
    p < |s.m.procs| && |s.intents| == |s.owns| == |s.m.procs| &&
    var x := s.m.procs[p];
    match v
    case Machinery(a) =>
      && Enabled(s.m, p, a)
      && a != Lock(SPIN)
      && (x.pc == Holding(SPIN) ==>
            && (a == Unlock ==> s.intents[p] in {Acquired, Announced, Looking})
            && (a.Sleep? ==> a.c == CHANNEL && s.intents[p] == Acquiring && s.isLocked)
            && (a.Wake? ==> a.c == CHANNEL && s.intents[p] == Cleared))
      && (x.pc.Holding? && x.pc.l != SPIN && a.Sleep? ==> a.c != CHANNEL)
    case Begin(i) =>
      && Enabled(s.m, p, Lock(SPIN)) && i in {Acquiring, Releasing, Looking}
      && (i == Acquiring ==> !s.owns[p]) && (i == Releasing ==> s.owns[p])
    case SetLocked => x.pc == Holding(SPIN) && s.intents[p] == Acquiring && !s.isLocked
    case ClearLocked => x.pc == Holding(SPIN) && s.intents[p] == Releasing
  }

  function Moved(s: System, p: nat, v: Move): System
    requires Follows(s, p, v)
  {
    match v
    case Machinery(a) =>
      var m := Next(s.m, p, a);
      var intent :=
        if a == Unlock && s.m.procs[p].pc == Holding(SPIN) then Elsewhere
        else if a == WakeDone && s.m.procs[p].pc.l == SPIN then Announced
        else s.intents[p];
      s.(m := m, intents := s.intents[p := intent])
    case Begin(i) => s.(m := Next(s.m, p, Lock(SPIN)), intents := s.intents[p := i])
    case SetLocked => s.(isLocked := true, pid := Some(p), intents := s.intents[p := Acquired], owns := s.owns[p := true])
    case ClearLocked => s.(isLocked := false, pid := None, intents := s.intents[p := Cleared], owns := s.owns[p := false])
  }

  /** What place and intent say together. */
  predicate Sensible(s: System, p: nat)
    requires p < |s.m.procs| && |s.intents| == |s.owns| == |s.m.procs|
  {
    var pc, intent := s.m.procs[p].pc, s.intents[p];
    && (InSpin(pc) <==> intent != Elsewhere)
    && (InSpin(pc) && !pc.Holding? && !pc.Waking? ==> intent == Acquiring)
    && (InSpin(pc) && pc.Waking? ==> intent == Cleared && pc.c == CHANNEL)
    && (pc.Entering? || pc.Entered? || pc.Released? || pc.Marked? || pc.Leaving? || pc.Away? || pc.Back? ==>
          (pc.l == SPIN <==> pc.c == CHANNEL))
    && (intent == Acquiring || intent == Cleared || intent == Announced ==> !s.owns[p])
    && (intent == Releasing || intent == Acquired ==> s.owns[p])
    && (intent == Cleared ==> !s.isLocked)
    && (InSpin(pc) && (pc.Entering? || pc.Entered?) ==> s.isLocked)
  }

  /** `w` will still come past `p`: it has cleared the lock and has not woken `p` yet. */
  predicate Pending(s: System, w: nat, p: nat) {
    && w < |s.m.procs| && w < |s.intents| && s.intents[w] == Cleared
    && (s.m.procs[w].pc == Holding(SPIN) || NotPast(s.m, w, SPIN, CHANNEL, p))
  }

  /** A process waiting for the lock waits because it is taken, or is about to be woken. */
  ghost predicate NotStranded(s: System, p: nat) {
    Waits(s.m, p, SPIN, CHANNEL) ==> s.isLocked || exists w: nat :: Pending(s, w, p)
  }

  /** The lock is taken exactly while one process owns it, the one it names. */
  ghost predicate Exclusive(s: System) {
    && (forall p: nat | p < |s.owns| :: s.owns[p] <==> s.isLocked && s.pid == Some(p))
    && (s.isLocked ==> s.pid.Some? && s.pid.value < |s.owns|)
  }

  ghost predicate Safe(s: System) {
    && Invariant(s.m) && |s.intents| == |s.owns| == |s.m.procs|
    && (forall p: nat | p < |s.m.procs| :: Sensible(s, p))
    && Exclusive(s)
    && (forall p: nat | p < |s.m.procs| :: NotStranded(s, p))
  }

  lemma SensibleOwn(s: System, p: nat, v: Move)
    requires Follows(s, p, v) && Sensible(s, p) && Consistent(s.m.procs[p]) && Exclusive(s)
    ensures |Moved(s, p, v).m.procs| == |s.m.procs|
    ensures |Moved(s, p, v).intents| == |s.intents| && |Moved(s, p, v).owns| == |s.owns|
    ensures Sensible(Moved(s, p, v), p)
  {
    hide Sensible;
    if v.Machinery? {
      SensibleMachinery(s, p, v.a);
    } else {
      SensibleLine(s, p, v);
    }
  }

  lemma SensibleLine(s: System, p: nat, v: Move)
    requires Follows(s, p, v) && Sensible(s, p) && Exclusive(s) && !v.Machinery?
    ensures |Moved(s, p, v).m.procs| == |s.m.procs|
    ensures |Moved(s, p, v).intents| == |s.intents| && |Moved(s, p, v).owns| == |s.owns|
    ensures Sensible(Moved(s, p, v), p)
  {
  }

  /** Where a step of the machine takes the process itself. */
  lemma OwnPlace(m: Machine, p: nat, a: Action)
    requires Enabled(m, p, a)
    ensures |Next(m, p, a).procs| == |m.procs|
    ensures var pc, pc' := m.procs[p].pc, Next(m, p, a).procs[p].pc;
            || (a == Preempt && pc == Outside && pc' == Preempted)
            || (a == Dispatch && pc == Preempted && pc' == Outside)
            || (a == SchedulerRelease && pc' == pc)
            || (a.Lock? && pc == Outside && pc' == Holding(a.l))
            || (a == Unlock && pc.Holding? && pc' == Outside)
            || (a.Sleep? && pc.Holding? && pc' == Entering(pc.l, a.c))
            || (a == TakeOwnLock && pc.Entering? && pc' == Entered(pc.l, pc.c))
            || (a == ReleaseLock && pc.Entered? && pc' == Released(pc.l, pc.c))
            || (a == SetChannel && pc.Released? && pc' == Marked(pc.l, pc.c))
            || (a == SetSleeping && pc.Marked? && pc' == Leaving(pc.l, pc.c))
            || (a == SwitchAway && pc.Leaving? && pc' == Away(pc.l, pc.c))
            || (a == Resume && pc.Away? && pc' == Back(pc.l, pc.c))
            || (a == ClearChannel && pc.Back? && pc' == Tidied(pc.l))
            || (a == DropOwnLock && pc.Tidied? && pc' == Relocking(pc.l))
            || (a == Relock && pc.Relocking? && pc' == Holding(pc.l))
            || (a.Wake? && pc.Holding? && pc' == Waking(pc.l, a.c, 0))
            || (a == WakeNext && pc.Waking? && pc' == Waking(pc.l, pc.c, pc.i + 1))
            || (a == WakeDone && pc.Waking? && pc' == Holding(pc.l))
            || (a.Kill? && pc == Outside && pc' == pc)
  {
  }

  lemma SensibleMachinery(s: System, p: nat, a: Action)
    requires Follows(s, p, Machinery(a)) && Sensible(s, p) && Consistent(s.m.procs[p])
    ensures |Moved(s, p, Machinery(a)).m.procs| == |s.m.procs|
    ensures |Moved(s, p, Machinery(a)).intents| == |s.intents| && |Moved(s, p, Machinery(a)).owns| == |s.owns|
    ensures Sensible(Moved(s, p, Machinery(a)), p)
  {
    hide Next, Consistent;
    OwnPlace(s.m, p, a);
  }

  /** Another process's step changes neither its place nor its intent; the lock changes only under SPIN. */
  lemma MovedOthers(s: System, p: nat, v: Move, q: nat)
    requires Follows(s, p, v) && q < |s.m.procs| && q != p
    ensures var s' := Moved(s, p, v);
            && |s'.m.procs| == |s'.intents| == |s'.owns| == |s.m.procs|
            && s'.m.procs[q].pc == s.m.procs[q].pc && s'.intents[q] == s.intents[q] && s'.owns[q] == s.owns[q]
            && (s'.isLocked != s.isLocked ==> s.m.procs[p].pc == Holding(SPIN))
  {
    match v
    case Machinery(a) => Others(s.m, p, a, q);
    case Begin(_) => Others(s.m, p, Lock(SPIN), q);
    case _ =>
  }

  lemma SensibleOther(s: System, p: nat, v: Move, q: nat)
    requires Follows(s, p, v) && Invariant(s.m) && q < |s.m.procs| && q != p && Sensible(s, q)
    ensures |Moved(s, p, v).m.procs| == |s.m.procs|
    ensures |Moved(s, p, v).intents| == |s.intents| && |Moved(s, p, v).owns| == |s.owns|
    ensures Sensible(Moved(s, p, v), q)
  {
    hide Moved, Follows, Invariant;
    MovedOthers(s, p, v, q);
    FollowsActs(s, p, v);
    if s.m.procs[p].pc == Holding(SPIN) && Held(s.m.procs[q].pc) == Some(SPIN) {
      SpinLockExclusive(s.m, p, q);
    }
  }

  lemma FollowsActs(s: System, p: nat, v: Move)
    requires Follows(s, p, v)
    ensures p < |s.m.procs| && |s.intents| == |s.owns| == |s.m.procs|
  {
  }

  lemma ExclusiveKept(s: System, p: nat, v: Move)
    requires Follows(s, p, v) && Exclusive(s) && Sensible(s, p)
    ensures Exclusive(Moved(s, p, v))
  {
  }

  lemma MachineKept(s: System, p: nat, v: Move)
    requires Follows(s, p, v) && Invariant(s.m)
    ensures Invariant(Moved(s, p, v).m) && |Moved(s, p, v).m.procs| == |s.m.procs|
  {
    hide Invariant, Next, Enabled;
    match v
    case Machinery(a) => Preserved(s.m, p, a);
    case Begin(_) => Preserved(s.m, p, Lock(SPIN));
    case _ =>
  }

  /** Whoever waits after a step waited before it, or went to sleep because the lock was taken. */
  lemma WaitedBefore(s: System, p: nat, v: Move, q: nat)
    requires Follows(s, p, v) && q < |s.m.procs| && Consistent(s.m.procs[p])
    requires Waits(Moved(s, p, v).m, q, SPIN, CHANNEL)
    ensures Waits(s.m, q, SPIN, CHANNEL) || (s.isLocked && Moved(s, p, v).isLocked)
  {
    if q != p && v.Machinery? {
      Others(s.m, p, v.a, q);
    } else if q != p && v.Begin? {
      Others(s.m, p, Lock(SPIN), q);
    }
  }

  /** A pending waker stays pending for `q` until `q` no longer waits. */
  lemma PendingKept(s: System, p: nat, v: Move, w: nat, q: nat)
    requires Follows(s, p, v) && Safe(s) && Pending(s, w, q) && Waits(s.m, q, SPIN, CHANNEL)
    requires Waits(Moved(s, p, v).m, q, SPIN, CHANNEL)
    ensures Moved(s, p, v).isLocked || Pending(Moved(s, p, v), w, q)
  {
    hide Invariant, Exclusive, NotStranded, Moved;
    MovedIs(s, p, v);
    if p != w {
      MovedOthers(s, p, v, w);
    } else if s.m.procs[w].pc != Holding(SPIN) {
      PendingPasses(s, v, w, q);
    }
  }

  lemma PendingPasses(s: System, v: Move, w: nat, q: nat)
    requires Follows(s, w, v) && Safe(s) && NotPast(s.m, w, SPIN, CHANNEL, q) && Waits(s.m, q, SPIN, CHANNEL)
    requires Waits(Moved(s, w, v).m, q, SPIN, CHANNEL)
    ensures NotPast(Moved(s, w, v).m, w, SPIN, CHANNEL, q) && Moved(s, w, v).intents[w] == s.intents[w]
  {
    hide Invariant, Exclusive, NotStranded, Sensible;
    NotDone(s.m, w, SPIN, CHANNEL, q);
    if v.Machinery? {
      PassingWakes(s.m, w, v.a, q, w, SPIN, CHANNEL);
    }
  }

  lemma MovedIs(s: System, p: nat, v: Move)
    requires Follows(s, p, v)
    ensures |Moved(s, p, v).intents| == |s.intents| == |s.m.procs| == |Moved(s, p, v).m.procs|
    ensures s.m.procs[p].pc == Holding(SPIN) && s.intents[p] == Cleared ==>
              Moved(s, p, v).m.procs[p].pc == Waking(SPIN, CHANNEL, 0) && Moved(s, p, v).intents[p] == Cleared
  {
  }

  lemma NotStrandedKept(s: System, p: nat, v: Move, q: nat)
    requires Follows(s, p, v) && Safe(s) && q < |s.m.procs|
    ensures NotStranded(Moved(s, p, v), q)
  {
    hide Invariant, Exclusive, Moved, Sensible, Follows, Waits, Pending;
    var s' := Moved(s, p, v);
    if Waits(s'.m, q, SPIN, CHANNEL) && !s'.isLocked {
      SafeProcess(s, p, v);
      WaitedBefore(s, p, v, q);
      if s.isLocked {
        Unlocks(s, p, v, q);
      } else {
        assert NotStranded(s, q);
        var w: nat :| Pending(s, w, q);
        PendingKept(s, p, v, w, q);
      }
    }
  }

  lemma SafeProcess(s: System, p: nat, v: Move)
    requires Safe(s) && Follows(s, p, v)
    ensures Consistent(s.m.procs[p]) && Sensible(s, p)
  {
  }

  /** Whoever clears the lock is about to wake. */
  lemma Unlocks(s: System, p: nat, v: Move, q: nat)
    requires Follows(s, p, v) && s.isLocked && !Moved(s, p, v).isLocked
    ensures Pending(Moved(s, p, v), p, q)
  {
  }

  /** Every step of every process keeps the lock safe. */
  lemma SafeKept(s: System, p: nat, v: Move)
    requires Safe(s) && Follows(s, p, v)
    ensures Safe(Moved(s, p, v))
  {
    hide Invariant, Exclusive, Moved, Sensible, Follows, NotStranded;
    SafeProcess(s, p, v);
    FollowsActs(s, p, v);
    SensibleOwn(s, p, v);
    ExclusiveKept(s, p, v);
    MachineKept(s, p, v);
    forall q: nat | q < |s.m.procs| ensures Sensible(Moved(s, p, v), q) && NotStranded(Moved(s, p, v), q) {
      if q != p {
        SensibleOther(s, p, v, q);
      }
      NotStrandedKept(s, p, v, q);
    }
  }

  // ---------- runs ----------

  datatype Turn = Turn(p: nat, v: Move)

  function Initial(n: nat): System {
    System(Boot(n), false, None, seq(n, i => Elsewhere), seq(n, i => false))
  }

  function Turned(s: System, t: Turn): System {
    if Follows(s, t.p, t.v) then Moved(s, t.p, t.v) else s
  }

  function Reached(s: System, ts: seq<Turn>): System {
    if ts == [] then s else Turned(Reached(s, ts[..|ts| - 1]), ts[|ts| - 1])
  }

  lemma SameNumber(s: System, p: nat, v: Move)
    requires Follows(s, p, v)
    ensures |Moved(s, p, v).owns| == |s.owns|
  {
  }

  lemma {:induction false} AlwaysSafe(n: nat, ts: seq<Turn>)
    ensures Safe(Reached(Initial(n), ts)) && |Reached(Initial(n), ts).owns| == n
  {
    hide Follows, Moved;
    if ts == [] {
      InitiallySafe(n);
    } else {
      AlwaysSafe(n, ts[..|ts| - 1]);
      var s, t := Reached(Initial(n), ts[..|ts| - 1]), ts[|ts| - 1];
      if Follows(s, t.p, t.v) {
        SafeKept(s, t.p, t.v);
        SameNumber(s, t.p, t.v);
      }
    }
  }

  lemma InitiallySafe(n: nat)
    ensures Safe(Initial(n))
  {
    forall p: nat | p < n ensures NotStranded(Initial(n), p) {
      assert !Waits(Initial(n).m, p, SPIN, CHANNEL);
    }
  }

  /** At most one process ever holds the sleep lock, and isHolding tells it the truth. */
  lemma OneHolder(n: nat, ts: seq<Turn>, p: nat, q: nat)
    requires p < n && q < n
    ensures var s := Reached(Initial(n), ts);
            && |s.owns| == n && (s.owns[p] && s.owns[q] ==> p == q)
            && (s.owns[p] <==> s.isLocked && s.pid == Some(p))
  {
    hide Reached;
    AlwaysSafe(n, ts);
  }

  /** When the lock is free and nobody is in its critical section, nobody waits for it. */
  lemma NobodyStranded(n: nat, ts: seq<Turn>, p: nat)
    requires !Reached(Initial(n), ts).isLocked && SPIN !in Reached(Initial(n), ts).m.locks
    ensures !Waits(Reached(Initial(n), ts).m, p, SPIN, CHANNEL)
  {
    hide Reached, Safe;
    AlwaysSafe(n, ts);
    QuietAndFree(Reached(Initial(n), ts), p);
  }

  lemma QuietAndFree(s: System, p: nat)
    requires Safe(s) && !s.isLocked && SPIN !in s.m.locks
    ensures !Waits(s.m, p, SPIN, CHANNEL)
  {
    hide Exclusive, Sensible, Waits, Pending;
    NoneCleared(s, p);
    if Waits(s.m, p, SPIN, CHANNEL) {
      WaitsForSomething(s, p);
    }
  }

  lemma WaitsForSomething(s: System, p: nat)
    requires Safe(s) && Waits(s.m, p, SPIN, CHANNEL)
    ensures s.isLocked || exists w: nat :: Pending(s, w, p)
  {
    hide Exclusive, Sensible, Pending;
    assert NotStranded(s, p);
  }

  lemma NoneCleared(s: System, p: nat)
    requires Invariant(s.m) && SPIN !in s.m.locks
    ensures !exists w: nat :: Pending(s, w, p)
  {
    forall w: nat | w < |s.m.procs| ensures Held(s.m.procs[w].pc) != Some(SPIN) {
    }
  }
}