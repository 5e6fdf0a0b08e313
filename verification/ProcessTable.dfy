/** The process table: fork, exit, wait and kill, each method being what one of them does under the
    locks it holds without letting go. Any number of slots. */
module ProcessTables {
  import opened Wrappers

  datatype State = Unused | Used | Sleeping | Runnable | Running | Zombie

  const INIT_PID := 1

  datatype Slot = Slot(state: State, pid: nat, parent: Option<nat>, channel: Option<nat>, killed: bool, status: int)

  const FREE := Slot(Unused, 0, None, None, false, 0)

  /** What has become of a process id. */
  datatype Fate = In(slot: nat) | Reaped(parent: nat) | Aborted

  predicate Alive(x: Slot) {
    x.state in {Sleeping, Runnable, Running}
  }

  /** `forking` has the process that is making each child not yet runnable, `fates` what has become of
      every process id given out. */
  datatype Table = Table(slots: seq<Slot>, init: nat, nextPid: nat, forking: map<nat, nat>, fates: map<nat, Fate>)

  /** What holds of one slot. */
  ghost predicate SlotOk(t: Table, p: nat)
    requires p < |t.slots|
  {
    var x := t.slots[p];
    && (x.state == Unused ==> x == FREE)
    && (x.state != Unused ==> 0 < x.pid < t.nextPid && x.pid in t.fates && t.fates[x.pid] == In(p))
    && (x.state == Used <==> p in t.forking)
    && (p == t.init ==> Alive(x) && x.pid == INIT_PID && x.parent == None)
    && (p != t.init && (Alive(x) || x.state == Zombie) ==> x.parent.Some?)
    && (x.parent.Some? ==>
          && x.parent.value < |t.slots| && Alive(t.slots[x.parent.value])
          && t.slots[x.parent.value].pid < x.pid)
  }

  ghost predicate ForkOk(t: Table, c: nat)
    requires c in t.forking
  {
    var q := t.forking[c];
    && c < |t.slots| && q < |t.slots| && Alive(t.slots[q]) && t.slots[q].pid < t.slots[c].pid
    && (t.slots[c].parent.Some? ==> t.slots[c].parent.value == q)
  }

  ghost predicate FateOk(t: Table, k: nat)
    requires k in t.fates
  {
    0 < k < t.nextPid && match t.fates[k]
                         case In(p) => p < |t.slots| && t.slots[p].state != Unused && t.slots[p].pid == k
                         case _ => true
  }

  ghost predicate Sound(t: Table) {
    && t.init < |t.slots|
    && (forall p: nat | p < |t.slots| :: SlotOk(t, p))
    && (forall c | c in t.forking :: ForkOk(t, c))
    && (forall k | k in t.fates :: FateOk(t, k))
    && (forall k: nat | 0 < k < t.nextPid :: k in t.fates)
  }

  /** Process `q` is asleep in wait. */
  predicate AsleepInWait(x: Slot, q: nat) {
    x.state == Sleeping && x.channel == Some(q)
  }

  /** A parent asleep in wait has no child to reap. */
  ghost predicate Attended(t: Table, q: nat)
    requires q < |t.slots|
  {
    AsleepInWait(t.slots[q], q) ==>
      forall p: nat | p < |t.slots| && t.slots[p].parent == Some(q) :: t.slots[p].state != Zombie
  }

  ghost predicate Good(t: Table) {
    Sound(t) && forall q: nat | q < |t.slots| :: Attended(t, q)
  }

  // ---------- what follows ----------

  /** The parent links from `p` lead to init. */
  ghost predicate Descends(t: Table, p: nat, path: seq<nat>) {
    && path != [] && path[0] == p && path[|path| - 1] == t.init
    && (forall i: nat | i < |path| :: path[i] < |t.slots|)
    && forall i: nat | i + 1 < |path| :: t.slots[path[i]].parent == Some(path[i + 1])
  }

  /** Every process that was ever made runnable descends from init, through parents that are alive. */
  lemma {:induction false} DescendsFromInit(t: Table, p: nat) returns (path: seq<nat>)
    requires Sound(t) && p < |t.slots| && (Alive(t.slots[p]) || t.slots[p].state == Zombie)
    ensures Descends(t, p, path) && forall i: nat | 1 <= i < |path| :: Alive(t.slots[path[i]])
    decreases t.slots[p].pid
  {
    assert SlotOk(t, p);
    if p == t.init {
      path := [p];
    } else {
      var q := t.slots[p].parent.value;
      var rest := DescendsFromInit(t, q);
      path := [p] + rest;
      forall i: nat | i + 1 < |path| ensures t.slots[path[i]].parent == Some(path[i + 1]) {
        if i > 0 {
          assert t.slots[rest[i - 1]].parent == Some(rest[i - 1 + 1]);
        }
      }
      forall i: nat | 1 <= i < |path| ensures Alive(t.slots[path[i]]) {
        if i > 1 {
          assert Alive(t.slots[rest[i - 1]]);
        }
      }
    }
  }

  /** No two slots have the same process id. */
  lemma PidsDiffer(t: Table, p: nat, q: nat)
    requires Sound(t) && p < |t.slots| && q < |t.slots| && p != q
    requires t.slots[p].state != Unused && t.slots[q].state != Unused
    ensures t.slots[p].pid != t.slots[q].pid
  {
    assert SlotOk(t, p) && SlotOk(t, q);
  }

  // ---------- steps ----------

  /** The slot changes in what no other slot depends on. */
  ghost predicate SameRole(x: Slot, y: Slot) {
    && y.pid == x.pid && y.parent == x.parent && (y.state == x.state || (Alive(x) && Alive(y)))
  }

  lemma RoleSound(t: Table, p: nat, y: Slot)
    requires Sound(t) && p < |t.slots| && SameRole(t.slots[p], y) && t.slots[p].state != Unused
    ensures Sound(t.(slots := t.slots[p := y]))
  {
    assert SlotOk(t, p);
    var t' := t.(slots := t.slots[p := y]);
    forall q: nat | q < |t'.slots| ensures SlotOk(t', q) {
      assert SlotOk(t, q);
    }
    forall c | c in t'.forking ensures ForkOk(t', c) {
      assert ForkOk(t, c);
    }
    forall k | k in t'.fates ensures FateOk(t', k) {
      assert FateOk(t, k);
    }
  }

  function Allocated(t: Table, i: nat, q: nat): Table
    requires i < |t.slots|
  {
    t.(slots := t.slots[i := Slot(Used, t.nextPid, None, None, false, 0)], nextPid := t.nextPid + 1,
       forking := t.forking[i := q], fates := t.fates[t.nextPid := In(i)])
  }

  lemma AllocatedGood(t: Table, i: nat, q: nat)
    requires Good(t) && i < |t.slots| && t.slots[i].state == Unused && q < |t.slots| && Alive(t.slots[q])
    ensures Good(Allocated(t, i, q))
  {
    assert SlotOk(t, i) && SlotOk(t, q);
    var t' := Allocated(t, i, q);
    forall p: nat | p < |t'.slots| ensures SlotOk(t', p) && Attended(t', p) {
      assert SlotOk(t, p) && Attended(t, p);
    }
    forall c | c in t'.forking ensures ForkOk(t', c) {
      if c in t.forking {
        assert ForkOk(t, c);
      }
    }
    forall k | k in t'.fates ensures FateOk(t', k) {
      if k in t.fates {
        assert FateOk(t, k);
      }
    }
  }

  /** Slot `p` is free again. */
  function Freed(t: Table, p: nat, fate: Fate): Table
    requires p < |t.slots|
  {
    t.(slots := t.slots[p := FREE], forking := t.forking - {p}, fates := t.fates[t.slots[p].pid := fate])
  }

  /** Embryos and zombies have no children. */
  lemma FreedGood(t: Table, p: nat, fate: Fate)
    requires Good(t) && p < |t.slots| && t.slots[p].state in {Used, Zombie} && !fate.In?
    ensures Good(Freed(t, p, fate))
  {
    assert SlotOk(t, p);
    var t' := Freed(t, p, fate);
    forall q: nat | q < |t'.slots| ensures SlotOk(t', q) && Attended(t', q) {
      assert SlotOk(t, q) && Attended(t, q);
      if q != p && t.slots[q].state != Unused {
        PidsDiffer(t, p, q);
      }
    }
    forall c | c in t'.forking ensures ForkOk(t', c) {
      assert ForkOk(t, c);
    }
    forall k | k in t'.fates ensures FateOk(t', k) {
      assert FateOk(t, k);
    }
  }

  /** A process id that was reaped or aborted stays so: ids are not used twice. */
  lemma FatesSettled(t: Table, p: nat, q: nat, fate: Fate, k: nat)
    requires Good(t) && p < |t.slots| && k in t.fates && !t.fates[k].In?
    ensures t.slots[p].state == Unused ==> Allocated(t, p, q).fates[k] == t.fates[k]
    ensures t.slots[p].state in {Used, Zombie} ==> Freed(t, p, fate).fates[k] == t.fates[k]
  {
    assert SlotOk(t, p) && FateOk(t, k);
  }

  function WithParent(t: Table, c: nat): Table
    requires c in t.forking && c < |t.slots|
  {
    t.(slots := t.slots[c := t.slots[c].(parent := Some(t.forking[c]))])
  }

  lemma WithParentGood(t: Table, c: nat)
    requires Good(t) && c in t.forking
    ensures c < |t.slots| && t.slots[c].state == Used && Good(WithParent(t, c))
  {
    assert ForkOk(t, c);
    assert SlotOk(t, c);
    var t' := WithParent(t, c);
    forall q: nat | q < |t'.slots| ensures SlotOk(t', q) && Attended(t', q) {
      assert SlotOk(t, q) && Attended(t, q);
    }
    forall d | d in t'.forking ensures ForkOk(t', d) {
      assert ForkOk(t, d);
    }
    forall k | k in t'.fates ensures FateOk(t', k) {
      assert FateOk(t, k);
    }
  }

  function Started(t: Table, c: nat): Table
    requires c < |t.slots|
  {
    t.(slots := t.slots[c := t.slots[c].(state := Runnable)], forking := t.forking - {c})
  }

  lemma StartedGood(t: Table, c: nat)
    requires Good(t) && c in t.forking && c < |t.slots| && t.slots[c].parent.Some?
    ensures Good(Started(t, c))
  {
    assert ForkOk(t, c) && SlotOk(t, c);
    var t' := Started(t, c);
    forall q: nat | q < |t'.slots| ensures SlotOk(t', q) && Attended(t', q) {
      assert SlotOk(t, q) && Attended(t, q);
    }
    forall d | d in t'.forking ensures ForkOk(t', d) {
      assert ForkOk(t, d);
    }
    forall k | k in t'.fates ensures FateOk(t', k) {
      assert FateOk(t, k);
    }
  }

  /** Child `c` is given to init. */
  function GivenToInit(t: Table, c: nat): Table
    requires c < |t.slots|
  {
    t.(slots := t.slots[c := t.slots[c].(parent := Some(t.init))])
  }

  lemma GivenSound(t: Table, c: nat, p: nat)
    requires Sound(t) && c < |t.slots| && t.slots[c].parent == Some(p) && forall d | d in t.forking :: t.forking[d] != p
    ensures Sound(GivenToInit(t, c))
  {
    assert SlotOk(t, c) && SlotOk(t, t.init);
    var t' := GivenToInit(t, c);
    InitFirst(t, p);
    forall q: nat | q < |t'.slots| ensures SlotOk(t', q) {
      assert SlotOk(t, q);
    }
    forall d | d in t'.forking ensures ForkOk(t', d) {
      assert ForkOk(t, d);
    }
    forall k | k in t'.fates ensures FateOk(t', k) {
      assert FateOk(t, k);
    }
  }

  lemma InitFirst(t: Table, p: nat)
    requires Sound(t) && p < |t.slots| && t.slots[p].state != Unused
    ensures INIT_PID <= t.slots[p].pid && (p != t.init ==> INIT_PID < t.slots[p].pid)
  {
    assert SlotOk(t, p) && SlotOk(t, t.init);
  }

  lemma GivenAttended(t: Table, c: nat, q: nat)
    requires Sound(t) && c < |t.slots| && q < |t.slots| && q != t.init && Attended(t, q)
    ensures Attended(GivenToInit(t, c), q)
  {
  }

  // ---------- waking and dying ----------

  /** A slot after wakeup of channel `c`. */
  function Awake(x: Slot, c: nat): Slot {
    if x.state == Sleeping && x.channel == Some(c) then x.(state := Runnable) else x
  }

  /** Sleepers woken cost nothing, and whoever slept on `c` is no longer asleep. */
  lemma AwakeAttended(t: Table, i: nat, c: nat, q: nat)
    requires i < |t.slots| && q < |t.slots| && Attended(t, q)
    ensures Attended(t.(slots := t.slots[i := Awake(t.slots[i], c)]), q)
  {
  }

  function Exited(t: Table, p: nat, status: int): Table
    requires p < |t.slots|
  {
    t.(slots := t.slots[p := t.slots[p].(state := Zombie, status := status)])
  }

  lemma ExitedGood(t: Table, p: nat, status: int)
    requires Good(t) && p < |t.slots| && p != t.init && t.slots[p].state == Running
    requires forall q: nat | q < |t.slots| :: t.slots[q].parent != Some(p)
    requires forall d | d in t.forking :: t.forking[d] != p
    requires t.slots[p].parent.Some? && t.slots[p].parent.value < |t.slots|
    requires !AsleepInWait(t.slots[t.slots[p].parent.value], t.slots[p].parent.value)
    ensures Good(Exited(t, p, status))
  {
    assert SlotOk(t, p);
    var t' := Exited(t, p, status);
    forall q: nat | q < |t'.slots| ensures SlotOk(t', q) && Attended(t', q) {
      assert SlotOk(t, q) && Attended(t, q);
    }
    forall d | d in t'.forking ensures ForkOk(t', d) {
      assert ForkOk(t, d);
    }
    forall k | k in t'.fates ensures FateOk(t', k) {
      assert FateOk(t, k);
    }
  }

  lemma ParentOf(t: Table, p: nat)
    requires Sound(t) && p < |t.slots| && p != t.init && Alive(t.slots[p])
    ensures t.slots[p].parent.Some? && t.slots[p].parent.value < |t.slots| && t.slots[p].parent.value != p
    ensures Alive(t.slots[t.slots[p].parent.value])
  {
    assert SlotOk(t, p);
  }

  /** A process that runs may be put to sleep in wait when none of its children is a zombie. */
  lemma SleptGood(t: Table, q: nat)
    requires Good(t) && q < |t.slots| && Alive(t.slots[q])
    requires forall p: nat | p < |t.slots| && t.slots[p].parent == Some(q) :: t.slots[p].state != Zombie
    ensures Good(t.(slots := t.slots[q := t.slots[q].(state := Sleeping, channel := Some(q))]))
  {
    hide Sound;
    var y := t.slots[q].(state := Sleeping, channel := Some(q));
    RoleSound(t, q, y);
    var t' := t.(slots := t.slots[q := y]);
    forall r: nat | r < |t'.slots| ensures Attended(t', r) {
      assert Attended(t, r);
    }
  }

  lemma RoleGood(t: Table, p: nat, y: Slot)
    requires Good(t) && p < |t.slots| && SameRole(t.slots[p], y) && t.slots[p].state != Unused
    requires AsleepInWait(y, p) ==> AsleepInWait(t.slots[p], p)
    ensures Good(t.(slots := t.slots[p := y]))
  {
    hide Sound;
    RoleSound(t, p, y);
    var t' := t.(slots := t.slots[p := y]);
    forall q: nat | q < |t'.slots| ensures Attended(t', q) {
      assert Attended(t, q);
    }
  }

  /** What a process may do next, if it is in a state to do it; the steps of fork come one by one. */
  datatype Call =
    | Begin(parent: nat)
    | Abort(child: nat)
    | Link(child: nat)
    | Start(child: nat)
    | Leave(process: nat, status: int)
    | Await(parent: nat, canCopy: bool)
    | Signal(pid: nat)
    | Change(process: nat, state: State, channel: Option<nat>)

  datatype WaitResult = Child(pid: nat, status: int) | NoChildren | IsKilled | BadAddress | Asleep

  class ProcessTable {
    const init: nat
    var slots: seq<Slot>
    var nextPid: nat
    var forking: map<nat, nat>   // what the calls of fork under way have in their locals
    ghost var fates: map<nat, Fate>

    ghost function View(): Table
      reads this
    {
      Table(slots, init, nextPid, forking, fates)
    }

    ghost predicate Valid()
      reads this
    {
      Good(View())
    }

    /** One process, init, in the first slot of a table with room for more. */
    constructor (n: nat)
      requires n > 0
      ensures Valid() && |slots| == n && init == 0 && nextPid == 2 && forking == map[] && fates == map[1 := In(0)]
      ensures slots[0] == Slot(Runnable, 1, None, None, false, 0)
      ensures forall i | 1 <= i < n :: slots[i] == Slot(Unused, 0, None, None, false, 0)
    {
      init := 0;
      slots := seq(n, i => if i == 0 then Slot(Runnable, INIT_PID, None, None, false, 0) else FREE);
      nextPid := INIT_PID + 1;
      forking := map[];
      fates := map[INIT_PID := In(0)];
    }

    /** The first unused slot, taken for a child of `q`. */
    method Alloc(q: nat) returns (r: Option<nat>)
      requires Valid() && q < |slots| && slots[q].state == Running
      modifies this
      ensures Valid() && |slots| == |old(slots)|
      ensures r.None? ==> View() == old(View()) && forall i | 0 <= i < |slots| :: slots[i].state != Unused
      ensures r.Some? ==>
                && r.value < |slots| && old(slots)[r.value].state == Unused
                && (forall i | 0 <= i < r.value :: slots[i].state != Unused)
                && View() == Allocated(old(View()), r.value, q) && old(nextPid) !in old(fates)
                && slots == old(slots)[r.value := Slot(Used, old(nextPid), None, None, false, 0)]
                && nextPid == old(nextPid) + 1 && forking == old(forking)[r.value := q] && fates == old(fates)[old(nextPid) := In(r.value)]
    {
      hide Good;
      ghost var t := View();
      var i := 0;
      while i < |slots|
        invariant 0 <= i <= |slots| && View() == t && forall j | 0 <= j < i :: slots[j].state != Unused
      {
        if slots[i].state == Unused {
          AllocatedGood(t, i, q);
          NewPid(t);
          forking, fates := forking[i := q], fates[nextPid := In(i)];
          slots := slots[i := Slot(Used, nextPid, None, None, false, 0)];
          nextPid := nextPid + 1;
          return Some(i);
        }
        i := i + 1;
      }
      r := None;
    }

    /** Gives a slot back: a child whose fork failed, or a zombie that was waited for. */
    method Free(p: nat, ghost fate: Fate)
      requires Valid() && p < |slots| && slots[p].state in {Used, Zombie} && !fate.In?
      modifies this
      ensures Valid() && View() == Freed(old(View()), p, fate)
      ensures slots == old(slots)[p := Slot(Unused, 0, None, None, false, 0)]
      ensures forking == old(forking) - {p} && fates == old(fates)[old(slots)[p].pid := fate]
    {
      hide Good;
      FreedGood(View(), p, fate);
      fates := fates[slots[p].pid := fate];
      slots := slots[p := FREE];
      forking := forking - {p};
    }

    /** Under waitLock: the child gets its parent. */
    method LinkParent(c: nat, q: nat)
      requires Valid() && c in forking && forking[c] == q
      modifies this`slots
      ensures Valid() && c < |old(slots)| && View() == WithParent(old(View()), c)
      ensures slots == old(slots)[c := old(slots)[c].(parent := Some(q))]
    {
      hide Good;
      WithParentGood(View(), c);
      slots := slots[c := slots[c].(parent := Some(q))];
    }

    /** Under the child's lock: it may run. */
    method StartChild(c: nat)
      requires Valid() && c in forking && c < |slots| && slots[c].parent.Some?
      modifies this`slots, this`forking
      ensures Valid() && View() == Started(old(View()), c)
      ensures slots == old(slots)[c := old(slots)[c].(state := Runnable)] && forking == old(forking) - {c}
    {
      hide Good;
      StartedGood(View(), c);
      slots := slots[c := slots[c].(state := Runnable)];
      forking := forking - {c};
    }

    /** fork, one stretch after the other. Copying memory may fail. */
    method Fork(q: nat, copies: bool) returns (r: Option<nat>, ghost c: nat)
      requires Valid() && q < |slots| && slots[q].state == Running
      modifies this
      ensures Valid() && |slots| == |old(slots)|
      ensures r.Some? ==>
                && copies && r.value == old(nextPid) && r.value !in old(fates)
                && c < |slots| && old(slots)[c].state == Unused
                && slots == old(slots)[c := Slot(Runnable, r.value, Some(q), None, false, 0)]
                && fates == old(fates)[r.value := In(c)]
      ensures r.None? ==>
                && slots == old(slots)
                && (!copies || forall i | 0 <= i < |slots| :: slots[i].state != Unused)
                && (fates == old(fates) || fates == old(fates)[old(nextPid) := Aborted])
    {
      hide Good;
      ghost var t := View();
      c := 0;
      var slot := Alloc(q);
      if slot.None? {
        return None, c;
      }
      c := slot.value;
      if !copies {
        Free(slot.value, Aborted);
        UnusedIsFree(t, c);
        assert slots == t.slots;
        return None, c;
      }
      LinkParent(slot.value, q);
      StartChild(slot.value);
      r := Some(slots[slot.value].pid);
    }

    /** Every process asleep on `c` but the caller may run again. */
    method Wakeup(current: nat, c: nat)
      requires Sound(View())
      modifies this`slots
      ensures Sound(View()) && |slots| == |old(slots)|
      ensures forall i | 0 <= i < |slots| ::
                slots[i] == if i != current && old(slots)[i].state == Sleeping && old(slots)[i].channel == Some(c)
                            then old(slots)[i].(state := Runnable) else old(slots)[i]
      ensures forall q: nat | q < |slots| && (Attended(old(View()), q) || (q == c && q != current)) :: Attended(View(), q)
    {
      hide Sound, Attended;
      ghost var t := View();
      var i := 0;
      while i < |slots|
        invariant 0 <= i <= |slots| == |t.slots| && Sound(View())
        invariant forall j | 0 <= j < |slots| ::
                    slots[j] == if j < i && j != current then Awake(t.slots[j], c) else t.slots[j]
        invariant forall q: nat | q < |slots| && Attended(t, q) :: Attended(View(), q)
        invariant forall q: nat | q < |slots| :: q < i && q != current && q == c ==> Attended(View(), q)
      {
        if i != current {
          ghost var u := View();
          AwakeStep(u, i, c);
          if slots[i].state == Sleeping && slots[i].channel == Some(c) {
            slots := slots[i := slots[i].(state := Runnable)];
          }
          assert View() == u.(slots := u.slots[i := Awake(u.slots[i], c)]);
        }
        i := i + 1;
      }
    }

    /** Gives the children of `p` to init, waking init for each. */
    method ReparentChildren(p: nat)
      requires Valid() && p < |slots| && p != init && slots[p].state == Running
      requires forall d | d in forking :: forking[d] != p
      modifies this`slots
      ensures Valid() && |slots| == |old(slots)| && slots[p] == old(slots)[p]
      ensures var woken := exists j :: 0 <= j < |old(slots)| && old(slots)[j].parent == Some(p);
              forall i | 0 <= i < |slots| :: Adopted(old(slots)[i], slots[i], p, init, woken)
    {
      hide Good, Sound, Attended;
      ghost var t, woken := View(), false;
      SoundOf(t);
      var i := 0;
      while i < |slots|
        invariant 0 <= i <= |slots| == |t.slots| && Sound(View()) && slots[p] == t.slots[p]
        invariant forall q: nat | q < |slots| :: Attended(View(), q)
        invariant woken <==> exists j :: 0 <= j < i && t.slots[j].parent == Some(p)
        invariant forall j | 0 <= j < |slots| ::
                    if j < i then Adopted(t.slots[j], slots[j], p, init, woken)
                    else slots[j] == if woken then Awake(t.slots[j], init) else t.slots[j]
      {
        if slots[i].parent == Some(p) {
          ghost var u := View();
          GivenSound(u, i, p);
          OthersAttended(u, i);
          NotOwnParent(u, p);
          slots := slots[i := slots[i].(parent := Some(init))];
          assert View() == GivenToInit(u, i);
          InitThere(u);
          Wakeup(p, init);
          woken := true;
        }
        i := i + 1;
      }
      GoodOf(View());
    }

    /** exit, under waitLock: the children go to init, the parent is woken, and the process is a zombie. */
    method Exit(p: nat, status: int)
      requires Valid() && p < |slots| && p != init && slots[p].state == Running
      requires forall d | d in forking :: forking[d] != p
      modifies this`slots
      ensures Valid() && |slots| == |old(slots)|
      ensures slots[p] == old(slots)[p].(state := Zombie, status := status)
      ensures old(slots)[p].parent.Some?
      ensures var orphans := exists j :: 0 <= j < |old(slots)| && old(slots)[j].parent == Some(p);
              forall i | 0 <= i < |slots| && i != p ::
                var x := old(slots)[i];
                var wakes := x.state == Sleeping && (x.channel == old(slots)[p].parent || (orphans && x.channel == Some(init)));
                slots[i] == x.(parent := if x.parent == Some(p) then Some(init) else x.parent,
                               state := if wakes then Runnable else x.state)
    {
      hide Good, Sound, Attended;
      ghost var t := View();
      ReparentChildren(p);
      SoundOf(View());
      ParentOf(View(), p);
      var parent := slots[p].parent.value;
      ghost var u := View();
      Wakeup(p, parent);
      GoodOf(View());
      assert !AsleepInWait(slots[parent], parent);
      ExitedGood(View(), p, status);
      slots := slots[p := slots[p].(state := Zombie, status := status)];
    }

    /** One look at the table under waitLock, and going to sleep if there is nothing to do but wait. The
        status may have nowhere to go, and then the child stays a zombie. */
    method Wait(q: nat, canCopy: bool) returns (r: WaitResult)
      requires Valid() && q < |slots| && slots[q].state == Running
      modifies this
      ensures Valid() && |slots| == |old(slots)|
      ensures r == NoChildren <==> !HasChild(old(slots), q)
      ensures r.Child? || r.BadAddress? <==> HasZombie(old(slots), q)
      ensures r.Child? ==> canCopy
      ensures r == IsKilled <==> HasChild(old(slots), q) && !HasZombie(old(slots), q) && old(slots)[q].killed
      ensures r == Asleep <==> HasChild(old(slots), q) && !HasZombie(old(slots), q) && !old(slots)[q].killed
      ensures r.Child? ==>
                && r.pid in old(fates) && old(fates)[r.pid].In?
                && var i := old(fates)[r.pid].slot;
                   && i < |slots| && old(slots)[i].state == Zombie && old(slots)[i].parent == Some(q)
                   && (forall j | 0 <= j < i && old(slots)[j].parent == Some(q) :: old(slots)[j].state != Zombie)
                   && old(slots)[i].pid == r.pid && old(slots)[i].status == r.status
                   && slots == old(slots)[i := FREE] && fates == old(fates)[r.pid := Reaped(old(slots)[q].pid)]
      ensures !r.Child? ==> fates == old(fates)
      ensures r.BadAddress? ==> !canCopy && slots == old(slots)
      ensures r == Asleep ==> slots == old(slots)[q := old(slots)[q].(state := Sleeping, channel := Some(q))]
      ensures r == IsKilled || r == NoChildren ==> slots == old(slots)
    {
      hide Good, Sound, Attended;
      ghost var t := View();
      var haveKids, i := false, 0;
      while i < |slots|
        invariant 0 <= i <= |slots| && View() == t
        invariant haveKids <==> exists j :: 0 <= j < i && slots[j].parent == Some(q)
        invariant forall j | 0 <= j < i && slots[j].parent == Some(q) :: slots[j].state != Zombie
      {
        if slots[i].parent == Some(q) {
          haveKids := true;
          if slots[i].state == Zombie {
            if !canCopy {
              return BadAddress;
            }
            r := Child(slots[i].pid, slots[i].status);
            NotForking(t, i);
            Free(i, Reaped(slots[q].pid));
            return;
          }
        }
        i := i + 1;
      }
      if !haveKids {
        return NoChildren;
      }
      if slots[q].killed {
        return IsKilled;
      }
      SleptGood(t, q);
      slots := slots[q := slots[q].(state := Sleeping, channel := Some(q))];
      r := Asleep;
    }

    /** The process with a given id is marked, and woken if it sleeps. */
    method Kill(target: nat) returns (ok: bool)
      requires Valid() && target > 0
      modifies this`slots
      ensures Valid() && |slots| == |old(slots)|
      ensures ok <==> exists i :: 0 <= i < |old(slots)| && old(slots)[i].pid == target
      ensures !ok ==> slots == old(slots)
      ensures forall i | 0 <= i < |slots| ::
                slots[i] == if old(slots)[i].pid == target then
                              old(slots)[i].(killed := true, state := if old(slots)[i].state == Sleeping then Runnable else old(slots)[i].state)
                            else old(slots)[i]
    {
      hide Good, Sound, Attended;
      ghost var t := View();
      var i := 0;
      while i < |slots|
        invariant 0 <= i <= |slots| && View() == t && forall j | 0 <= j < i :: slots[j].pid != target
      {
        if slots[i].pid == target {
          OnlyOne(t, i, target);
          var y := slots[i].(killed := true);
          if y.state == Sleeping {
            y := y.(state := Runnable);
          }
          RoleGood(t, i, y);
          slots := slots[i := y];
          return true;
        }
        i := i + 1;
      }
      ok := false;
    }

    /** The scheduler's and other sleepers' changes of state. */
    method SetState(p: nat, state: State, channel: Option<nat>)
      requires Valid() && p < |slots| && Alive(slots[p]) && state in {Sleeping, Runnable, Running}
      requires !(state == Sleeping && channel == Some(p))
      modifies this`slots
      ensures Valid() && slots == old(slots)[p := old(slots)[p].(state := state, channel := channel)]
    {
      hide Good;
      RoleGood(View(), p, slots[p].(state := state, channel := channel));
      slots := slots[p := slots[p].(state := state, channel := channel)];
    }

    /** One call, if the process can make it: what it does under one hold of its locks. */
    method OneCall(call: Call) returns (reaped: Option<nat>)
      requires Valid()
      modifies this
      ensures Valid() && |slots| == |old(slots)| && Settled(old(fates), fates)
      ensures reaped.Some? ==>
                && reaped.value in old(fates) && old(fates)[reaped.value].In?
                && reaped.value in fates && fates[reaped.value].Reaped?
    {
      hide Good, Sound, SlotOk, ForkOk, FateOk, Attended;
      reaped := None;
      match call {
        case Begin(q) =>
          if q < |slots| && slots[q].state == Running {
            var _ := Alloc(q);
          }
        case Abort(c) =>
          if c < |slots| && slots[c].state == Used {
            AllFatesSettled(View(), c, 0, Aborted);
            Free(c, Aborted);
          }
        case Link(c) =>
          if c in forking {
            LinkParent(c, forking[c]);
          }
        case Start(c) =>
          if c in forking && c < |slots| && slots[c].parent.Some? {
            StartChild(c);
          }
        case Leave(p, status) =>
          if p < |slots| && p != init && slots[p].state == Running && forall d | d in forking :: forking[d] != p {
            Exit(p, status);
          }
        case Await(q, canCopy) =>
          if q < |slots| && slots[q].state == Running {
            var r := Wait(q, canCopy);
            if r.Child? {
              reaped := Some(r.pid);
            }
          }
        case Signal(target) =>
          if target > 0 {
            var _ := Kill(target);
          }
        case Change(p, state, channel) =>
          if p < |slots| && Alive(slots[p]) && state in {Sleeping, Runnable, Running} && !(state == Sleeping && channel == Some(p)) {
            SetState(p, state, channel);
          }
      }
    }

    /** Any calls, by any processes, in any order. No process id is ever given to two waiters, or to one
        twice; and what became of an id stays so. */
    method AnyRun(calls: seq<Call>) returns (reaped: seq<nat>)
      requires Valid()
      modifies this
      ensures Valid() && Settled(old(fates), fates)
      ensures forall i, j | 0 <= i < j < |reaped| :: reaped[i] != reaped[j]
      ensures forall k | k in reaped :: k in fates && fates[k].Reaped?
      ensures forall k | k in reaped && k in old(fates) :: old(fates)[k].In?
    {
      hide Good;
      reaped := [];
      var i := 0;
      while i < |calls|
        invariant 0 <= i <= |calls| && Valid() && Settled(old(fates), fates)
        invariant forall i, j | 0 <= i < j < |reaped| :: reaped[i] != reaped[j]
        invariant forall k | k in reaped :: k in fates && fates[k].Reaped?
        invariant forall k | k in reaped && k in old(fates) :: old(fates)[k].In?
      {
        var one := OneCall(calls[i]);
        if one.Some? {
          reaped := reaped + [one.value];
        }
        i := i + 1;
      }
    }
  }

  predicate HasChild(slots: seq<Slot>, q: nat) {
    exists i :: 0 <= i < |slots| && slots[i].parent == Some(q)
  }

  predicate HasZombie(slots: seq<Slot>, q: nat) {
    exists i :: 0 <= i < |slots| && slots[i].parent == Some(q) && slots[i].state == Zombie
  }

  /** What became of a process id stays so. */
  ghost predicate Settled(fates: map<nat, Fate>, fates': map<nat, Fate>) {
    forall k | k in fates :: k in fates' && (!fates[k].In? ==> fates'[k] == fates[k])
  }

  lemma AllFatesSettled(t: Table, p: nat, q: nat, fate: Fate)
    requires Good(t) && p < |t.slots| && t.slots[p].state in {Used, Zombie}
    ensures Settled(t.fates, Freed(t, p, fate).fates)
  {
    hide Good;
    forall k | k in t.fates && !t.fates[k].In? ensures Freed(t, p, fate).fates[k] == t.fates[k] {
      FatesSettled(t, p, q, fate, k);
    }
  }

  /** A slot before and after the children of `p` were given to init, which is woken if there were any. */
  predicate Adopted(x: Slot, y: Slot, p: nat, init: nat, woken: bool) {
    y == x.(parent := if x.parent == Some(p) then Some(init) else x.parent,
            state := if woken && x.state == Sleeping && x.channel == Some(init) then Runnable else x.state)
  }

  lemma SoundOf(t: Table)
    requires Good(t)
    ensures Sound(t) && forall q: nat | q < |t.slots| :: Attended(t, q)
  {
  }

  lemma GoodOf(t: Table)
    requires Sound(t) && forall q: nat | q < |t.slots| :: Attended(t, q)
    ensures Good(t)
  {
  }

  lemma AwakeStep(t: Table, i: nat, c: nat)
    requires Sound(t) && i < |t.slots|
    ensures var t' := t.(slots := t.slots[i := Awake(t.slots[i], c)]);
            && Sound(t') && (forall q: nat | q < |t.slots| && Attended(t, q) :: Attended(t', q))
            && (i == c ==> Attended(t', i))
  {
    hide Sound;
    var t' := t.(slots := t.slots[i := Awake(t.slots[i], c)]);
    if Awake(t.slots[i], c) != t.slots[i] {
      RoleSound(t, i, Awake(t.slots[i], c));
    } else {
      assert t' == t;
    }
    forall q: nat | q < |t.slots| && Attended(t, q) ensures Attended(t', q) {
      AwakeAttended(t, i, c, q);
    }
  }

  lemma OthersAttended(t: Table, c: nat)
    requires Sound(t) && c < |t.slots| && forall q: nat | q < |t.slots| :: Attended(t, q)
    ensures forall q: nat | q < |t.slots| && q != t.init :: Attended(GivenToInit(t, c), q)
  {
    hide Sound, Attended;
    forall q: nat | q < |t.slots| && q != t.init ensures Attended(GivenToInit(t, c), q) {
      GivenAttended(t, c, q);
    }
  }

  lemma NotOwnParent(t: Table, p: nat)
    requires Sound(t) && p < |t.slots|
    ensures t.slots[p].parent != Some(p)
  {
    assert SlotOk(t, p);
  }

  lemma InitThere(t: Table)
    requires Sound(t)
    ensures t.init < |t.slots|
  {
  }

  lemma NotForking(t: Table, i: nat)
    requires Good(t) && i < |t.slots| && t.slots[i].state == Zombie
    ensures t.slots[i].pid in t.fates && t.fates[t.slots[i].pid] == In(i)
  {
    assert SlotOk(t, i);
  }

  lemma OnlyOne(t: Table, i: nat, target: nat)
    requires Good(t) && i < |t.slots| && t.slots[i].pid == target && target > 0
    ensures t.slots[i].state != Unused && forall j: nat | j < |t.slots| && j != i :: t.slots[j].pid != target
  {
    assert SlotOk(t, i);
    forall j: nat | j < |t.slots| && j != i ensures t.slots[j].pid != target {
      assert SlotOk(t, j);
    }
  }

  lemma NewPid(t: Table)
    requires Good(t)
    ensures t.nextPid !in t.fates
  {
    FateBound(t, t.nextPid);
  }

  lemma FateBound(t: Table, k: nat)
    requires Good(t)
    ensures k in t.fates ==> 0 < k < t.nextPid
  {
    if k in t.fates {
      assert FateOk(t, k);
    }
  }

  lemma UnusedIsFree(t: Table, c: nat)
    requires Good(t) && c < |t.slots| && t.slots[c].state == Unused
    ensures t.slots[c] == FREE
  {
    assert SlotOk(t, c);
  }
}
