/** The memory of a process from its allocation to its end: every frame it ever had goes back. */
module ProcessMemory {
  import opened Wrappers
  import opened PageTables
  import opened AddressSpaces

  // ---------- what one process takes ----------

  /** Frames changed hands only from the list to the address space of `root`. */
  ghost predicate Taken(use: map<nat, Use>, use': map<nat, Use>, root: nat) {
    && use'.Keys == use.Keys
    && forall f | f in use :: use'[f] == use[f] || (use[f] == Free && use'[f].At? && use'[f].spot.root == root)
  }

  lemma TakenTwice(use: map<nat, Use>, use1: map<nat, Use>, use2: map<nat, Use>, root: nat)
    requires Taken(use, use1, root) && Taken(use1, use2, root)
    ensures Taken(use, use2, root)
  {
  }

  lemma MadeTakes(use: map<nat, Use>, use': map<nat, Use>, root: nat)
    requires MadeFrom(use, use', root)
    ensures Taken(use, use', root)
  {
  }

  lemma GrownTakes(use: map<nat, Use>, use': map<nat, Use>, root: nat, v: nat, n: nat)
    requires GrownUse(use, use', root, v, n)
    ensures Taken(use, use', root)
  {
    hide PageNumber;
  }

  /** No frame is in the address space of `root`. */
  ghost predicate NoneAt(use: map<nat, Use>, root: nat) {
    forall f | f in use && use[f].At? :: use[f].spot.root != root
  }

  /** What was taken and dropped is back. */
  lemma TakenAndDropped(use: map<nat, Use>, m: Memory, m': Memory, root: nat)
    requires NoneAt(use, root) && Taken(use, m.use, root) && Dropped(m, m', root)
    ensures m'.use == use
  {
    hide Flat;
  }

  lemma FreeRoot(m: Memory, freelist: seq<nat>, pages: map<nat, Frame>, first: nat, stop: nat, f: nat)
    requires Sound(m, {}, freelist, pages, first, stop) && f in m.use && !m.use[f].At?
    ensures NoneAt(m.use, f)
  {
    hide Linked, Sited, Listed, Backed;
    forall g | g in m.use && m.use[g].At? ensures m.use[g].spot.root != f {
      SiteThere(m, g);
      NoSpots(m, f, m.use[g].spot);
    }
  }

  lemma FreeRootFlat(m: Memory, freelist: seq<nat>, pages: map<nat, Frame>, first: nat, stop: nat, f: nat)
    requires Sound(m, {}, freelist, pages, first, stop) && f in m.use && !m.use[f].At?
    ensures forall p: nat :: Flat(m, f, p) == None
  {
    hide Linked, Sited, Listed, Backed, Index;
    forall p: nat ensures Flat(m, f, p) == None {
      if BottomOf(f, p) in m.at {
        NoSpots(m, f, BottomOf(f, p));
      }
    }
  }

  lemma UnusedFrame(m: Memory, freelist: seq<nat>, pages: map<nat, Frame>, first: nat, stop: nat, f: nat)
    requires Sound(m, {}, freelist, pages, first, stop) && f in m.use && m.use[f] in {Free, Held}
    ensures Nowhere(m, f) && first <= f < stop
  {
    hide Linked, Sited, Nowhere;
    UnusedNowhere(m, f);
  }

  // ---------- processes ----------

  /** The frame is the kernel's, and mapped as the trap frame of `root` and nowhere else. */
  ghost predicate TrapFrame(m: Memory, root: nat, f: nat) {
    && IsShared(m.use, f)
    && Flat(m, root, PAGES - 2).Some? && Flat(m, root, PAGES - 2).value.frame == f
    && (forall r: nat, p: nat | p < PAGES && Flat(m, r, p).Some? && Flat(m, r, p).value.frame == f ::
          r == root && p == PAGES - 2)
  }

  /** A process with `n` pages of its own. */
  ghost predicate Process(m: Memory, root: nat, n: nat, trap: nat, trampoline: nat) {
    && Top(root) in m.at && ProcessSpace(m, root, n) && TrapFrame(m, root, trap)
    && Flat(m, root, PAGES - 1).Some? && Flat(m, root, PAGES - 1).value.frame == trampoline
  }

  /** `n` pages more for the address space `root`, or for none when nothing was mapped. */
  lemma SameIsGrown(h: Memory, m: Memory, pages: map<nat, Frame>, root: nat, v: nat, want: nat -> Wanted)
    requires SamePages(h, m) && TablesAdded(h.use, m.use, root)
    ensures Grown(h, m, pages, root, v, 0, want)
  {
    hide Flat;
  }

  /** A process that grows is a process, and never reaches the kernel's pages. */
  lemma SpaceGrown(h: Memory, m: Memory, pages: map<nat, Frame>, root: nat, n: nat, k: nat, want: nat -> Wanted)
    requires Sited(h) && Sited(m) && ProcessSpace(h, root, n) && Grown(h, m, pages, root, n, k, want)
    ensures ProcessSpace(m, root, n + k)
  {
    hide Flat, Sited, PageOf, NewPage, GrownUse, PageNumber;
    GrownPages(h, m, pages, root, n, k, want);
    GrownTakes(h.use, m.use, root, n, k);
    KernelPage(h, root, n);
    forall p: nat | p < n ensures PageOf(root, p) in m.at {
      PageStays(h, m, root, root, p);
    }
    forall p: nat | n + k <= p < PAGES ensures PageOf(root, p) !in m.at {
      NoPageAdded(h, m, root, n, k, p);
    }
  }

  lemma AloneGrown(h: Memory, m: Memory, pages: map<nat, Frame>, root: nat, n: nat, k: nat, want: nat -> Wanted)
    requires Grown(h, m, pages, root, n, k, want)
    ensures Alone(h, root, n) ==> Alone(m, root, n + k)
  {
    hide Flat, NewPage, GrownUse;
  }

  lemma AloneSame(h: Memory, m: Memory, root: nat, n: nat)
    requires forall p: nat | p < PAGES :: Flat(m, root, p) == Flat(h, root, p)
    ensures Alone(m, root, n) <==> Alone(h, root, n)
  {
    hide Flat;
    if Alone(m, root, n) {
      forall p: nat | n <= p < PAGES - 2 ensures Flat(h, root, p) == None {
        assert Flat(m, root, p) == None;
      }
    }
  }

  lemma GrownPages(h: Memory, m: Memory, pages: map<nat, Frame>, root: nat, n: nat, k: nat, want: nat -> Wanted)
    requires Grown(h, m, pages, root, n, k, want)
    ensures GrownUse(h.use, m.use, root, n, k)
    ensures forall p: nat | n <= p < n + k :: Flat(h, root, p) == None && Flat(m, root, p).Some? && PageOf(root, p) in m.at
  {
    hide Flat, PageOf, GrownUse;
    forall p: nat | n <= p < n + k ensures Flat(h, root, p) == None && Flat(m, root, p).Some? && PageOf(root, p) in m.at {
      assert NewPage(h, m, pages, root, p, want(p));
    }
  }

  lemma KernelPage(m: Memory, root: nat, n: nat)
    requires ProcessSpace(m, root, n)
    ensures n <= PAGES - 2 && Flat(m, root, PAGES - 2).Some? && Flat(m, root, PAGES - 1).Some?
  {
    hide Flat, PageOf;
  }

  lemma PageStays(h: Memory, m: Memory, root: nat, r: nat, p: nat)
    requires Sited(h) && Sited(m) && Taken(h.use, m.use, root) && PageOf(r, p) in h.at
    ensures PageOf(r, p) in m.at
  {
    hide Sited, Index;
    Site(h, PageOf(r, p));
    SiteThere(m, h.at[PageOf(r, p)]);
  }

  lemma NoPageAdded(h: Memory, m: Memory, root: nat, n: nat, k: nat, p: nat)
    requires Sited(h) && Sited(m) && GrownUse(h.use, m.use, root, n, k) && PageOf(root, p) !in h.at && p < PAGES
    requires n + k <= p
    ensures PageOf(root, p) !in m.at
  {
    hide Sited, PageNumber, Index;
    if PageOf(root, p) in m.at {
      Site(m, PageOf(root, p));
      var f := m.at[PageOf(root, p)];
      PageNumberOf(root, p);
      assert m.use[f] == h.use[f];
      SiteThere(h, f);
    }
  }

  lemma NoPageElsewhere(h: Memory, m: Memory, root: nat, r: nat, p: nat)
    requires Sited(h) && Sited(m) && Taken(h.use, m.use, root) && PageOf(r, p) !in h.at && r != root
    ensures PageOf(r, p) !in m.at
  {
    hide Sited, Index;
    if PageOf(r, p) in m.at {
      Site(m, PageOf(r, p));
      SiteThere(h, m.at[PageOf(r, p)]);
    }
  }

  lemma RootKept(h: Memory, m: Memory, root: nat, r: nat)
    requires Sited(h) && Sited(m) && Taken(h.use, m.use, root) && Top(r) in h.at
    ensures Top(r) in m.at
  {
    hide Sited;
    Site(h, Top(r));
    SiteThere(m, h.at[Top(r)]);
  }

  /** What one process takes leaves every other as it was. */
  lemma OthersSpace(h: Memory, m: Memory, root: nat, r: nat, n: nat)
    requires Sited(h) && Sited(m) && ProcessSpace(h, r, n) && r != root && Taken(h.use, m.use, root)
    requires forall p: nat | p < PAGES :: Flat(m, r, p) == Flat(h, r, p)
    ensures ProcessSpace(m, r, n)
  {
    hide Flat, Sited, PageOf, Taken;
    forall p: nat | p < n ensures PageOf(r, p) in m.at {
      PageStays(h, m, root, r, p);
    }
    forall p: nat | n <= p < PAGES ensures PageOf(r, p) !in m.at {
      NoPageElsewhere(h, m, root, r, p);
    }
  }

  /** Trap frames stay where they are, whichever process grows. */
  lemma TrapFrameKept(h: Memory, m: Memory, pages: map<nat, Frame>, root: nat, v: nat, k: nat, want: nat -> Wanted, r: nat, f: nat)
    requires TrapFrame(h, r, f) && Grown(h, m, pages, root, v, k, want) && Sited(m)
    ensures TrapFrame(m, r, f)
  {
    hide Flat, PageOf, PageNumber, Sited;
    forall p: nat | v <= p < v + k ensures Flat(h, root, p) == None && Flat(m, root, p).Some? && Flat(m, root, p).value.frame != f {
      assert NewPage(h, m, pages, root, p, want(p));
    }
  }

  /** A process with pages added is a process; so is every other. */
  lemma ProcessGrown(h: Memory, m: Memory, pages: map<nat, Frame>, root: nat, n: nat, k: nat, want: nat -> Wanted,
                     trap: nat, trampoline: nat)
    requires Sited(h) && Sited(m) && Process(h, root, n, trap, trampoline) && Grown(h, m, pages, root, n, k, want)
    ensures Process(m, root, n + k, trap, trampoline) && Taken(h.use, m.use, root) && OthersSame(h, m, Some(root))
    ensures Alone(h, root, n) ==> Alone(m, root, n + k)
  {
    hide Flat, Sited, PageOf, GrownUse, NewPage, ProcessSpace, TrapFrame, Alone;
    AloneGrown(h, m, pages, root, n, k, want);
    GrownPages(h, m, pages, root, n, k, want);
    GrownTakes(h.use, m.use, root, n, k);
    SpaceGrown(h, m, pages, root, n, k, want);
    TrapFrameKept(h, m, pages, root, n, k, want, root, trap);
    RootKept(h, m, root, root);
    KernelPage(m, root, n + k);
  }

  lemma BesideGrown(h: Memory, m: Memory, pages: map<nat, Frame>, root: nat, v: nat, k: nat, want: nat -> Wanted,
                    r: nat, n: nat, trap: nat, trampoline: nat)
    requires Sited(h) && Sited(m) && Process(h, r, n, trap, trampoline) && r != root && Grown(h, m, pages, root, v, k, want)
    ensures Process(m, r, n, trap, trampoline)
  {
    hide Flat, Sited, PageOf, GrownUse, NewPage, ProcessSpace, TrapFrame;
    GrownTakes(h.use, m.use, root, v, k);
    TrapFrameKept(h, m, pages, root, v, k, want, r, trap);
    OthersSpace(h, m, root, r, n);
    RootKept(h, m, root, r);
  }

  // ---------- shrinking ----------

  lemma StillOwned(h: Memory, m: Memory, root: nat, v: nat, n: nat, p: nat)
    requires Sited(h) && Sited(m) && UnmapUse(h.use, m.use, root, v, n, Free) && p < PAGES && (p < v || v + n <= p)
    ensures PageOf(root, p) in h.at <==> PageOf(root, p) in m.at
  {
    hide Sited, PageNumber, Index;
    PageNumberOf(root, p);
    if PageOf(root, p) in h.at {
      Site(h, PageOf(root, p));
      SiteThere(m, h.at[PageOf(root, p)]);
    }
    if PageOf(root, p) in m.at {
      Site(m, PageOf(root, p));
      SiteThere(h, m.at[PageOf(root, p)]);
    }
  }

  lemma NotOwned(h: Memory, m: Memory, root: nat, v: nat, n: nat, p: nat)
    requires Sited(h) && Sited(m) && UnmapUse(h.use, m.use, root, v, n, Free) && v <= p < v + n && p < PAGES
    ensures PageOf(root, p) !in m.at
  {
    hide Sited, PageNumber, Index;
    PageNumberOf(root, p);
    assert OwnPage(At(PageOf(root, p)), root, v, n);
    if PageOf(root, p) in m.at {
      Site(m, PageOf(root, p));
    }
  }

  /** A process that shrinks is a process. */
  lemma ProcessShrunk(h: Memory, m: Memory, root: nat, n: nat, k: nat, trap: nat, trampoline: nat)
    requires Sited(h) && Sited(m) && Process(h, root, n, trap, trampoline) && k <= n && Top(root) in m.at
    requires UnmapsRange(h, m, root, k, n - k) && UnmapUse(h.use, m.use, root, k, n - k, Free)
    ensures Process(m, root, k, trap, trampoline) && OthersSame(h, m, Some(root))
    ensures Alone(h, root, n) ==> Alone(m, root, k)
  {
    hide Flat, Sited, PageOf, UnmapUse;
    TrapFrameThere(h, m, root, k, n - k, trap);
    forall p: nat | k <= p < n ensures PageOf(root, p) !in m.at {
      NotOwned(h, m, root, k, n - k, p);
    }
    forall p: nat | p < PAGES && (p < k || n <= p) ensures PageOf(root, p) in h.at <==> PageOf(root, p) in m.at {
      StillOwned(h, m, root, k, n - k, p);
    }
  }

  lemma TrapFrameThere(h: Memory, m: Memory, root: nat, k: nat, n: nat, f: nat)
    requires TrapFrame(h, root, f) && UnmapUse(h.use, m.use, root, k, n, Free)
    ensures IsShared(m.use, f)
  {
    hide Flat, PageNumber;
  }

  /** On the list or in the address space of `root`. */
  predicate ListOrSpace(u: Use, root: nat) {
    u == Free || (u.At? && u.spot.root == root)
  }

  /** Frames changed hands only between the list and the address space of `root`. */
  ghost predicate OnlyOwn(use: map<nat, Use>, use': map<nat, Use>, root: nat) {
    && use'.Keys == use.Keys
    && forall f | f in use :: use'[f] == use[f] || (ListOrSpace(use[f], root) && ListOrSpace(use'[f], root))
  }

  lemma OnlyOwnTwice(use: map<nat, Use>, use1: map<nat, Use>, use2: map<nat, Use>, root: nat)
    requires OnlyOwn(use, use1, root) && OnlyOwn(use1, use2, root)
    ensures OnlyOwn(use, use2, root)
  {
  }

  lemma TakenIsOwn(use: map<nat, Use>, use': map<nat, Use>, root: nat)
    requires Taken(use, use', root)
    ensures OnlyOwn(use, use', root)
  {
  }

  lemma UnmappedIsOwn(use: map<nat, Use>, use': map<nat, Use>, root: nat, v: nat, n: nat)
    requires UnmapUse(use, use', root, v, n, Free)
    ensures OnlyOwn(use, use', root)
  {
    hide PageNumber;
  }

  // ---------- beginning and end ----------

  lemma NowhereStill(h: Memory, m: Memory, f: nat)
    requires Nowhere(h, f) && OthersSame(h, m, None)
    ensures Nowhere(m, f)
  {
    hide Flat;
  }

  lemma SameFlatOthers(h: Memory, m: Memory)
    requires SameFlat(h, m)
    ensures OthersSame(h, m, None)
  {
    hide Flat;
  }

  lemma OthersTwice(h: Memory, m1: Memory, m2: Memory, r: Option<nat>)
    requires OthersSame(h, m1, r) && OthersSame(m1, m2, r)
    ensures OthersSame(h, m2, r)
  {
    hide Flat;
  }

  lemma OthersMore(h: Memory, m: Memory, r: Option<nat>)
    requires OthersSame(h, m, None)
    ensures OthersSame(h, m, r)
  {
    hide Flat;
  }

  /** The process's address space was made from the list, and its trap frame too. */
  ghost predicate Started(h: Memory, m: Memory, root: nat, trap: nat) {
    && trap in h.use && h.use[trap] == Free && NoneAt(h.use, root)
    && Taken(h.use[trap := Shared], m.use, root) && OthersSame(h, m, Some(root))
  }

  /** The address space and the trap frame are back on the list; everything else is as it was. */
  ghost predicate Gone(h: Memory, m: Memory, root: nat, trap: nat) {
    && m.use.Keys == h.use.Keys
    && (forall f | f in h.use ::
          m.use[f] == if f == trap || (h.use[f].At? && h.use[f].spot.root == root) then Free else h.use[f])
    && (forall r: nat, p: nat | p < PAGES :: Flat(m, r, p) == if r == root then None else Flat(h, r, p))
    && Top(root) !in m.at
  }

  /** A new address space is a process with no pages. */
  lemma ProcessMade(h: Memory, m: Memory, root: nat, trap: nat, trampoline: nat)
    requires Nowhere(h, trap) && OthersSame(h, m, Some(root)) && IsShared(m.use, trap) && trap != trampoline
    requires Top(root) in m.at && Bootable(m, root, trampoline, trap) && ProcessSpace(m, root, 0)
    ensures Process(m, root, 0, trap, trampoline) && Alone(m, root, 0)
  {
    hide Flat, ProcessSpace;
  }

  lemma IsStarted(h: Memory, m1: Memory, m2: Memory, root: nat, trap: nat)
    requires trap in h.use && h.use[trap] == Free && m1.use == h.use[trap := Shared]
    requires MadeFrom(m1.use, m2.use, root) && NoneAt(m1.use, root) && SameFlat(h, m1) && OthersSame(m1, m2, Some(root))
    ensures Started(h, m2, root, trap)
  {
    hide Flat;
    MadeTakes(m1.use, m2.use, root);
    assert forall f | f in h.use && h.use[f].At? :: m1.use[f] == h.use[f];
  }

  lemma IsGone(h: Memory, m1: Memory, m2: Memory, m3: Memory, root: nat, trap: nat)
    requires Dropped(h, m1, root) && TrapFrame(h, root, trap) && OthersSame(m1, m3, None)
    requires m2.use == m1.use[trap := Held] && m3.use == m2.use[trap := Free] && m3.at == m1.at
    ensures Gone(h, m3, root, trap)
  {
    hide Flat;
  }

  lemma TrapFrameNowhere(h: Memory, m: Memory, root: nat, trap: nat)
    requires TrapFrame(h, root, trap) && Dropped(h, m, root)
    ensures Nowhere(m, trap) && IsShared(m.use, trap)
  {
    hide Flat;
  }

  /** A process that took all it has from the list leaves memory as it found it. */
  lemma LifeLeavesNothing(h: Memory, m1: Memory, m2: Memory, m3: Memory, root: nat, trap: nat)
    requires Started(h, m1, root, trap) && OnlyOwn(m1.use, m2.use, root) && Gone(m2, m3, root, trap)
    requires OthersSame(m1, m2, Some(root)) && (forall p: nat | p < PAGES :: Flat(h, root, p) == None)
    ensures m3.use == h.use && OthersSame(h, m3, None)
  {
    hide Flat;
    forall f | f in h.use ensures m3.use[f] == h.use[f] {
      assert h.use[trap := Shared][f] == if f == trap then Shared else h.use[f];
    }
  }

  /** The memory of a new process: a trap frame, and an address space with it and the trampoline. When
      memory runs out, every frame is back on the list. */
  method AllocProcess(memory: PhysicalMemory, trampoline: nat) returns (r: Option<(nat, nat)>)
    requires memory.Valid({}) && IsShared(memory.use, trampoline)
    modifies memory
    ensures memory.Valid({})
    ensures r.None? ==> memory.use == old(memory.use) && OthersSame(old(memory.View()), memory.View(), None)
    ensures r.None? ==> |old(memory.freelist)| < 6
    ensures r.Some? ==> |memory.freelist| + 6 >= |old(memory.freelist)|
    ensures PagesKept(old(memory.use), old(memory.pages), memory.pages)
    ensures r.Some? ==>
              var (root, trap) := r.value;
              && Process(memory.View(), root, 0, trap, trampoline) && Alone(memory.View(), root, 0)
              && memory.first <= trap < memory.stop
              && Started(old(memory.View()), memory.View(), root, trap)
              && forall p: nat | p < PAGES :: Flat(old(memory.View()), root, p) == None
  {
    hide Sound, Flat, SameFlat, Nowhere, OthersSame, MadeFrom, Bootable, ProcessSpace, Process, Started, Filled,
         PagesKept, Alone;
    ghost var h, pages0 := memory.View(), memory.pages;
    NothingDone(h);
    PagesKeptAtFirst(h.use, pages0);
    var page := memory.AllocPage(false, {});
    if page.None? {
      return None;
    }
    var trap := page.value;
    UnusedFrame(h, old(memory.freelist), old(memory.pages), memory.first, memory.stop, trap);
    SameFlatOthers(h, memory.View());
    ghost var m0 := memory.View();
    memory.Share(trap);
    ghost var m1 := memory.View();
    SameFlatOthers(m0, m1);
    OthersTwice(h, m0, m1, None);
    SameFlatTwice(h, m0, m1);
    ghost var free1, pages1 := memory.freelist, memory.pages;
    var created := memory.CreatePagetable(trampoline, trap);
    ghost var m2, pages2 := memory.View(), memory.pages;
    NowhereStill(h, m1, trap);
    KeptBeside(h.use, m1.use, trap, pages0, pages1, pages2);
    if created.None? {
      OthersTwice(h, m1, m2, None);
      NowhereStill(h, m2, trap);
      memory.Unshare(trap);
      ghost var m3 := memory.View();
      var freed := memory.FreePage(trap, {});
      SameFlatTwice(m2, m3, memory.View());
      SameFlatOthers(m2, memory.View());
      OthersTwice(h, m2, memory.View(), None);
      return None;
    }
    var root := created.value;
    RootWasFree(m1.use, m2.use, root, trap);
    FreeRoot(m1, free1, pages1, memory.first, memory.stop, root);
    FreeRootFlat(h, old(memory.freelist), old(memory.pages), memory.first, memory.stop, root);
    IsStarted(h, m1, m2, root, trap);
    ProcessMade(m1, m2, root, trap, trampoline);
    r := Some((root, trap));
  }

  lemma PagesKeptAtFirst(use: map<nat, Use>, pages: map<nat, Frame>)
    ensures PagesKept(use, pages, pages)
  {
  }

  lemma KeptBeside(use: map<nat, Use>, use1: map<nat, Use>, f: nat,
                   pages0: map<nat, Frame>, pages1: map<nat, Frame>, pages2: map<nat, Frame>)
    requires f in use && use[f] == Free && use1 == use[f := Held][f := Shared]
    requires pages1 == pages0[f := Filled(5)] && PagesKept(use1, pages1, pages2)
    ensures PagesKept(use, pages0, pages2) && PagesKept(use, pages0, pages2[f := Filled(1)])
  {
    hide Filled;
  }

  lemma RootWasFree(use: map<nat, Use>, use': map<nat, Use>, root: nat, trap: nat)
    requires MadeFrom(use, use', root) && IsShared(use, trap)
    ensures root in use && use[root] == Free && root != trap && IsShared(use', trap)
  {
  }

  /** All memory of a process that has ended: its pages, its tables and its trap frame. The kernel stops when
      something is still mapped above its size. */
  method FreeProcess(memory: PhysicalMemory, root: nat, size: nat, trap: nat, ghost trampoline: nat) returns (ok: bool)
    requires memory.Valid({}) && size <= TRAPFRAME && memory.first <= trap < memory.stop
    requires Process(memory.View(), root, PagesFor(size), trap, trampoline)
    modifies memory
    ensures ok <==> old(Alone(memory.View(), root, PagesFor(size)))
    ensures ok ==> memory.Valid({}) && Gone(old(memory.View()), memory.View(), root, trap)
    ensures ok ==> PagesKeptBut(old(memory.use), memory.use, old(memory.pages), memory.pages)
  {
    hide Sound, Flat, SameFlat, Nowhere, OthersSame, PagesFor, ProcessSpace, TrapFrame, Filled, Dropped, Gone,
         PagesKeptBut, Alone;
    ghost var h, pages0 := memory.View(), memory.pages;
    ok := memory.FreePageTable(root, size);
    if !ok {
      return;
    }
    ghost var m1, pages1 := memory.View(), memory.pages;
    TrapFrameNowhere(h, m1, root, trap);
    memory.Unshare(trap);
    ghost var m2 := memory.View();
    var freed := memory.FreePage(trap, {});
    SameFlatTwice(m1, m2, memory.View());
    SameFlatOthers(m1, memory.View());
    IsGone(h, m1, m2, memory.View(), root, trap);
    GoneKept(h, m1, memory.View(), root, trap, pages0, pages1);
  }

  lemma GoneKept(h: Memory, m1: Memory, m3: Memory, root: nat, trap: nat, pages0: map<nat, Frame>, pages1: map<nat, Frame>)
    requires TrapFrame(h, root, trap) && Gone(h, m3, root, trap) && PagesKeptBut(h.use, m1.use, pages0, pages1)
    requires m3.use == m1.use[trap := Held][trap := Free]
    ensures PagesKeptBut(h.use, m3.use, pages0, pages1[trap := Filled(1)])
  {
    hide Flat, Filled;
  }

  // ---------- sbrk ----------

  datatype SizeResult = Sized(size: nat) | NoRoom | Overflow

  /** One of the pages from `n` to `k` is mapped: a ring may be. */
  ghost predicate InTheWay(m: Memory, root: nat, n: nat, k: nat) {
    exists p: nat :: n <= p < k && Flat(m, root, p).Some?
  }

  /** Page `p` may be read and written by the user, and not executed, and holds zeros. */
  ghost predicate BlankForUser(m: Memory, pages: map<nat, Frame>, root: nat, p: nat) {
    && Flat(m, root, p).Some?
    && var leaf := Flat(m, root, p).value;
    && leaf.user && leaf.permissions.read && leaf.permissions.write && !leaf.permissions.execute
    && leaf.frame in pages && |pages[leaf.frame]| == PAGE && forall i | 0 <= i < PAGE :: pages[leaf.frame][i] == 0
  }

  /** Page `p` is mapped as it was, and a page mapped there holds what it held. */
  ghost predicate PageStayed(h: Memory, m: Memory, pages: map<nat, Frame>, pages': map<nat, Frame>, root: nat, p: nat) {
    && Flat(m, root, p) == Flat(h, root, p)
    && (Flat(h, root, p).Some? ==>
          var f := Flat(h, root, p).value.frame; f in pages && f in pages' && pages'[f] == pages[f])
  }

  /** The address space of a process whose size went from `size` to `size'`: pages that start in between have
      come, blank, or have gone, and all others are as they were. */
  ghost predicate Resized(h: Memory, m: Memory, pages: map<nat, Frame>, pages': map<nat, Frame>,
                          root: nat, size: nat, size': nat) {
    forall p: nat | p < PAGES ::
      if size <= p * PAGE < size' then BlankForUser(m, pages', root, p)
      else if size' <= p * PAGE < size then Flat(m, root, p) == None
      else PageStayed(h, m, pages, pages', root, p)
  }

  lemma GrownResized(h: Memory, m: Memory, freelist: seq<nat>, pages0: map<nat, Frame>, pages: map<nat, Frame>,
                     first: nat, stop: nat, root: nat, size: nat, size': nat, want: nat -> Wanted)
    requires Sound(h, {}, freelist, pages0, first, stop) && PagesKept(h.use, pages0, pages) && size <= size'
    requires PagesFor(size) <= PagesFor(size')
    requires Grown(h, m, pages, root, PagesFor(size), PagesFor(size') - PagesFor(size), want)
    requires forall p: nat :: want(p).user && want(p).permissions == Permissions(true, true, false) && want(p).contents == Filled(0)
    ensures Resized(h, m, pages0, pages, root, size, size')
  {
    hide Sound, Flat, PageOf, GrownUse, PagesFor, Filled;
    forall p: nat | p < PAGES
      ensures if size <= p * PAGE < size' then BlankForUser(m, pages, root, p) else PageStayed(h, m, pages0, pages, root, p)
    {
      PageBefore(p, size);
      PageBefore(p, size');
      if size <= p * PAGE < size' {
        assert NewPage(h, m, pages, root, p, want(p));
      } else if Flat(h, root, p).Some? {
        FrameInUse(h, freelist, pages0, first, stop, root, p);
      }
    }
  }

  lemma SameResized(h: Memory, m: Memory, freelist: seq<nat>, pages0: map<nat, Frame>, pages: map<nat, Frame>,
                    first: nat, stop: nat, root: nat, size: nat)
    requires Sound(h, {}, freelist, pages0, first, stop) && PagesKept(h.use, pages0, pages) && SamePages(h, m)
    ensures Resized(h, m, pages0, pages, root, size, size)
  {
    hide Sound, Flat;
    forall p: nat | p < PAGES ensures PageStayed(h, m, pages0, pages, root, p) {
      if Flat(h, root, p).Some? {
        FrameInUse(h, freelist, pages0, first, stop, root, p);
      }
    }
  }

  lemma ShrunkResized(h: Memory, m: Memory, freelist: seq<nat>, pages0: map<nat, Frame>, pages: map<nat, Frame>,
                      first: nat, stop: nat, root: nat, size: nat, size': nat)
    requires Sound(h, {}, freelist, pages0, first, stop) && size' <= size && PagesFor(size') <= PagesFor(size)
    requires UnmapsRange(h, m, root, PagesFor(size'), PagesFor(size) - PagesFor(size'))
    requires UnmapUse(h.use, m.use, root, PagesFor(size'), PagesFor(size) - PagesFor(size'), Free)
    requires PagesKeptBut(h.use, m.use, pages0, pages)
    ensures Resized(h, m, pages0, pages, root, size, size')
  {
    hide Sound, Flat, PagesFor, PageOf, UnmapUse, PagesKeptBut;
    forall p: nat | p < PAGES
      ensures if size' <= p * PAGE < size then Flat(m, root, p) == None else PageStayed(h, m, pages0, pages, root, p)
    {
      PageBefore(p, size);
      PageBefore(p, size');
      if !(size' <= p * PAGE < size) && Flat(h, root, p).Some? {
        FrameStays(h, m, freelist, pages0, pages, first, stop, root, PagesFor(size'), PagesFor(size) - PagesFor(size'), p);
      }
    }
  }

  /** The frame of a page that is not taken off stays in use, with what it holds. */
  lemma FrameStays(h: Memory, m: Memory, freelist: seq<nat>, pages0: map<nat, Frame>, pages: map<nat, Frame>,
                   first: nat, stop: nat, root: nat, v: nat, n: nat, p: nat)
    requires Sound(h, {}, freelist, pages0, first, stop) && p < PAGES && Flat(h, root, p).Some? && !(v <= p < v + n)
    requires UnmapUse(h.use, m.use, root, v, n, Free) && PagesKeptBut(h.use, m.use, pages0, pages)
    ensures var f := Flat(h, root, p).value.frame; f in pages0 && f in pages && pages[f] == pages0[f]
  {
    hide Sound, Linked, Sited, Flat, Index, PageNumber, PageOf;
    FrameInUse(h, freelist, pages0, first, stop, root, p);
    SoundLinked(h, {}, freelist, pages0, first, stop);
    PageNumberOf(root, p);
    FrameOfPage(h, freelist, pages0, first, stop, root, p);
  }

  /** A page's frame is the page's own, or the kernel's. */
  lemma FrameOfPage(h: Memory, freelist: seq<nat>, pages: map<nat, Frame>, first: nat, stop: nat, root: nat, p: nat)
    requires Sound(h, {}, freelist, pages, first, stop) && p < PAGES && Flat(h, root, p).Some?
    ensures var f := Flat(h, root, p).value.frame;
            f in h.use && (h.use[f] == Shared || h.use[f] == At(PageOf(root, p)))
  {
    hide Linked, Sited, Index, Listed;
    FrameInUse(h, freelist, pages, first, stop, root, p);
    MappedEntry(h, freelist, pages, first, stop, root, p);
    FlatEntry(h, root, p);
    SoundLinked(h, {}, freelist, pages, first, stop);
    TableEntry(h, {}, BottomOf(root, p), Index(p, 0));
    if PageOf(root, p) in h.at {
      Site(h, PageOf(root, p));
    }
  }

  /** The growing half: pages of zeros, or none. */
  method Grow(memory: PhysicalMemory, root: nat, size: nat, more: nat, ghost trap: nat, ghost trampoline: nat)
    returns (r: SizeResult)
    requires memory.Valid({}) && size <= TRAPFRAME && Process(memory.View(), root, PagesFor(size), trap, trampoline)
    requires more > 0
    modifies memory
    ensures memory.Valid({}) && OthersSame(old(memory.View()), memory.View(), Some(root))
    ensures r == Sized(size + more) || r == NoRoom
    ensures r.Sized? ==> r.size <= TRAPFRAME
    ensures r.NoRoom? ==>
              || size + more > TRAPFRAME || |old(memory.freelist)| < 3 * (PagesFor(size + more) - PagesFor(size))
              || InTheWay(old(memory.View()), root, PagesFor(size), PagesFor(size + more))
    ensures r.Sized? ==> !InTheWay(old(memory.View()), root, PagesFor(size), PagesFor(size + more))
    ensures Process(memory.View(), root, PagesFor(if r.Sized? then r.size else size), trap, trampoline)
    ensures old(Alone(memory.View(), root, PagesFor(size))) ==>
              Alone(memory.View(), root, PagesFor(if r.Sized? then r.size else size))
    ensures OnlyOwn(old(memory.use), memory.use, root) && PagesKeptBut(old(memory.use), memory.use, old(memory.pages), memory.pages)
    ensures Resized(old(memory.View()), memory.View(), old(memory.pages), memory.pages, root, size, if r.Sized? then r.size else size)
  {
    hide Sound, Linked, Sited, Flat, OthersSame, PageRoundUp, PagesFor, Grown, Process, OnlyOwn, Taken, SamePages,
         TablesAdded, Zeroed, PagesKept, PagesKeptBut, Alone, Resized;
    ghost var h, pages0, free0 := memory.View(), memory.pages, memory.freelist;
    KeptIsKeptBut(h.use, h.use, pages0, pages0);
    if size >= TRAPFRAME || more > TRAPFRAME - size {
      NothingDone(h);
      OthersMore(h, h, Some(root));
      TakenIsOwn(h.use, h.use, root) by { TakenNothing(h.use, root); }
      SameItself(h);
      SameResized(h, h, free0, pages0, pages0, memory.first, memory.stop, root, size);
      return NoRoom;
    }
    ghost var n, k := PagesFor(size), PagesFor(size + more) - PagesFor(size);
    GrowReady(h, root, size, more, trap, trampoline);
    SoundLinked(h, {}, memory.freelist, memory.pages, memory.first, memory.stop);
    var grown := memory.Alloc(root, size, size + more, DATA);
    ghost var m, pages := memory.View(), memory.pages;
    SoundLinked(m, {}, memory.freelist, memory.pages, memory.first, memory.stop);
    if grown.None? {
      SameIsGrown(h, m, pages, root, n, Zeroed(DATA));
      SameResized(h, m, free0, pages0, pages, memory.first, memory.stop, root, size);
      k := 0;
    } else {
      NothingWasThere(h, m, pages, root, n, k, Zeroed(DATA));
      forall p: nat ensures Zeroed(DATA)(p) == Wanted(Filled(0), DATA, true) {
        ZeroedIs(DATA, p);
      }
      GrownResized(h, m, free0, pages0, pages, memory.first, memory.stop, root, size, size + more, Zeroed(DATA));
    }
    KeptIsKeptBut(h.use, m.use, pages0, pages);
    ProcessGrown(h, m, pages, root, n, k, Zeroed(DATA), trap, trampoline);
    TakenIsOwn(h.use, m.use, root);
    r := if grown.Some? then Sized(grown.value) else NoRoom;
  }

  lemma KeptIsKeptBut(use: map<nat, Use>, use': map<nat, Use>, pages: map<nat, Frame>, pages': map<nat, Frame>)
    ensures PagesKept(use, pages, pages)
    ensures PagesKept(use, pages, pages') ==> PagesKeptBut(use, use', pages, pages')
  {
  }

  lemma SameItself(h: Memory)
    ensures SamePages(h, h)
  {
    hide Flat;
  }

  lemma TakenNothing(use: map<nat, Use>, root: nat)
    ensures Taken(use, use, root)
  {
  }

  lemma BelowTrapFrame(size: nat)
    requires size <= TRAPFRAME
    ensures PagesFor(size) <= PAGES - 2
  {
  }

  lemma GrowReady(m: Memory, root: nat, size: nat, more: nat, trap: nat, trampoline: nat)
    requires Process(m, root, PagesFor(size), trap, trampoline) && size + more <= TRAPFRAME
    ensures Top(root) in m.at && PagesFor(size) <= PagesFor(size + more)
  {
    hide Flat, PageOf, PagesFor, TrapFrame;
    RoundedOrder(size, size + more);
    BelowTrapFrame(size + more);
  }

  lemma ShrinkReady(m: Memory, root: nat, size: nat, less: nat, trap: nat, trampoline: nat)
    requires Process(m, root, PagesFor(size), trap, trampoline) && less <= size
    ensures Top(root) in m.at && PagesFor(size - less) <= PagesFor(size)
    ensures forall p: nat | p < PagesFor(size) :: Flat(m, root, p).Some? && PageOf(root, p) in m.at
  {
    hide Flat, PageOf, PagesFor, TrapFrame;
    RoundedOrder(size - less, size);
  }

  /** The shrinking half: the pages taken off are free. */
  method Shrink(memory: PhysicalMemory, root: nat, size: nat, less: nat, ghost trap: nat, ghost trampoline: nat)
    returns (r: SizeResult)
    requires memory.Valid({}) && less <= size <= TRAPFRAME && Process(memory.View(), root, PagesFor(size), trap, trampoline)
    modifies memory
    ensures memory.Valid({}) && OthersSame(old(memory.View()), memory.View(), Some(root))
    ensures r == Sized(size - less)
    ensures Process(memory.View(), root, PagesFor(size - less), trap, trampoline)
    ensures old(Alone(memory.View(), root, PagesFor(size))) ==> Alone(memory.View(), root, PagesFor(size - less))
    ensures OnlyOwn(old(memory.use), memory.use, root) && PagesKeptBut(old(memory.use), memory.use, old(memory.pages), memory.pages)
    ensures Resized(old(memory.View()), memory.View(), old(memory.pages), memory.pages, root, size, r.size)
  {
    hide Sound, Linked, Sited, Flat, OthersSame, PageRoundUp, PagesFor, PageOf, Process, OnlyOwn, UnmapUse,
         UnmapsRange, PagesKeptBut, Alone, Resized;
    ghost var h, n, k, pages0, free0 := memory.View(), PagesFor(size), PagesFor(size - less), memory.pages, memory.freelist;
    ShrinkReady(h, root, size, less, trap, trampoline);
    SoundLinked(h, {}, memory.freelist, memory.pages, memory.first, memory.stop);
    var rest := memory.Dealloc(root, size, size - less);
    ghost var m := memory.View();
    SoundLinked(m, {}, memory.freelist, memory.pages, memory.first, memory.stop);
    ProcessShrunk(h, m, root, n, k, trap, trampoline);
    UnmappedIsOwn(h.use, m.use, root, k, n - k);
    ShrunkResized(h, m, free0, pages0, memory.pages, memory.first, memory.stop, root, size, size - less);
    r := Sized(rest);
  }

  /** sbrk: the size changes by `difference` or stays. Taking off more than there is overflows, which the
      kernel is built to stop at. */
  method ChangeSize(memory: PhysicalMemory, root: nat, size: nat, difference: int, ghost trap: nat, ghost trampoline: nat)
    returns (r: SizeResult)
    requires memory.Valid({}) && size <= TRAPFRAME && Process(memory.View(), root, PagesFor(size), trap, trampoline)
    modifies memory
    ensures memory.Valid({}) && OthersSame(old(memory.View()), memory.View(), Some(root))
    ensures r.Overflow? <==> size + difference < 0
    ensures r.Sized? ==> r.size == size + difference <= TRAPFRAME
    ensures r.NoRoom? ==>
              && difference > 0
              && (size + difference > TRAPFRAME
                  || |old(memory.freelist)| < 3 * (PagesFor(size + difference) - PagesFor(size))
                  || InTheWay(old(memory.View()), root, PagesFor(size), PagesFor(size + difference)))
    ensures r.Sized? ==> !InTheWay(old(memory.View()), root, PagesFor(size), PagesFor(r.size))
    ensures Process(memory.View(), root, PagesFor(if r.Sized? then r.size else size), trap, trampoline)
    ensures old(Alone(memory.View(), root, PagesFor(size))) ==>
              Alone(memory.View(), root, PagesFor(if r.Sized? then r.size else size))
    ensures OnlyOwn(old(memory.use), memory.use, root) && PagesKeptBut(old(memory.use), memory.use, old(memory.pages), memory.pages)
    ensures Resized(old(memory.View()), memory.View(), old(memory.pages), memory.pages, root, size, if r.Sized? then r.size else size)
  {
    hide Sound, Flat, OthersSame, PagesFor, Process, OnlyOwn, Taken, PagesKept, PagesKeptBut, SamePages, Alone, Resized;
    ghost var h := memory.View();
    KeptIsKeptBut(h.use, h.use, memory.pages, memory.pages);
    SameItself(h);
    SameResized(h, h, memory.freelist, memory.pages, memory.pages, memory.first, memory.stop, root, size);
    NothingDone(h);
    OthersMore(h, h, Some(root));
    TakenNothing(h.use, root);
    TakenIsOwn(h.use, h.use, root);
    if difference > 0 {
      r := Grow(memory, root, size, difference, trap, trampoline);
    } else if difference < 0 {
      if size + difference < 0 {
        return Overflow;
      }
      RoundedOrder(size + difference, size);
      r := Shrink(memory, root, size, -difference, trap, trampoline);
    } else {
      r := Sized(size);
    }
  }

  /** A whole life: a process is made, changes its size any number of times, and ends. Whatever failed on
      the way, every frame is where it was, and every other address space too. */
  method ProcessLife(memory: PhysicalMemory, trampoline: nat, differences: seq<int>)
    requires memory.Valid({}) && IsShared(memory.use, trampoline)
    modifies memory
    ensures memory.Valid({}) && memory.use == old(memory.use)
    ensures OthersSame(old(memory.View()), memory.View(), None)
  {
    hide Sound, Flat, OthersSame, PagesFor, Process, OnlyOwn, Taken, Started, Gone, Alone, InTheWay;
    ghost var h := memory.View();
    var made := AllocProcess(memory, trampoline);
    if made.None? {
      return;
    }
    var (root, trap) := made.value;
    ghost var m1 := memory.View();
    NothingDone(m1);
    OthersMore(m1, m1, Some(root));
    TakenNothing(m1.use, root);
    TakenIsOwn(m1.use, m1.use, root);
    var i: nat, size: nat := 0, 0;
    AlignedSize(0);
    while i < |differences|
      invariant 0 <= i <= |differences| && size <= TRAPFRAME
      invariant memory.Valid({}) && Process(memory.View(), root, PagesFor(size), trap, trampoline)
      invariant Alone(memory.View(), root, PagesFor(size))
      invariant OnlyOwn(m1.use, memory.use, root) && OthersSame(m1, memory.View(), Some(root))
    {
      ghost var m := memory.View();
      var r := ChangeSize(memory, root, size, differences[i], trap, trampoline);
      OnlyOwnTwice(m1.use, m.use, memory.use, root);
      OthersTwice(m1, m, memory.View(), Some(root));
      if r.Sized? {
        size := r.size;
      }
      i := i + 1;
    }
    ghost var m2 := memory.View();
    var freed := FreeProcess(memory, root, size, trap, trampoline);
    LifeLeavesNothing(h, m1, m2, memory.View(), root, trap);
  }

  // ---------- fork and exec ----------

  lemma TrapIsNotTrampoline(m: Memory, root: nat, n: nat, trap: nat, trampoline: nat)
    requires Process(m, root, n, trap, trampoline)
    ensures trap != trampoline && IsShared(m.use, trap)
  {
    hide Flat, ProcessSpace;
  }

  lemma SharedBeside(use: map<nat, Use>, use': map<nat, Use>, trap: nat, root: nat, f: nat)
    requires trap in use && use[trap] == Free && Taken(use[trap := Shared], use', root) && IsShared(use, f)
    ensures f != trap && IsShared(use', f)
  {
  }

  /** Another process's trap frame is not touched when a process is made. */
  lemma TrapFrameBeside(h: Memory, m: Memory, root: nat, trap: nat, trampoline: nat, r: nat, f: nat)
    requires TrapFrame(h, r, f) && OthersSame(h, m, Some(root)) && Process(m, root, 0, trap, trampoline) && Alone(m, root, 0)
    requires f != trampoline && f != trap && r != root && IsShared(m.use, f)
    ensures TrapFrame(m, r, f)
  {
    hide Flat, PageOf;
  }

  /** Setting a free frame aside changes no process. */
  lemma SetAside(h: Memory, freelist: seq<nat>, pages: map<nat, Frame>, first: nat, stop: nat, trap: nat,
                 r: nat, n: nat, f: nat, trampoline: nat)
    requires Sound(h, {}, freelist, pages, first, stop) && trap in h.use && h.use[trap] == Free
    requires Process(h, r, n, f, trampoline)
    ensures var m := WithUse(h, trap, Shared); Sited(m) && ProcessSpace(m, r, n) && Top(r) in m.at && SameFlat(h, m)
  {
    hide Linked, Sited, Flat, PageOf;
    UseLinked(h, {}, trap, Shared);
  }

  /** A process is the same after another was made. */
  lemma BesideMade(h: Memory, m: Memory, freelist: seq<nat>, pages: map<nat, Frame>, first: nat, stop: nat,
                   root: nat, trap: nat, r: nat, n: nat, f: nat, trampoline: nat)
    requires Sound(h, {}, freelist, pages, first, stop) && Sited(m) && Process(h, r, n, f, trampoline)
    requires Started(h, m, root, trap) && Process(m, root, 0, trap, trampoline) && Alone(m, root, 0)
    requires forall p: nat | p < PAGES :: Flat(h, root, p) == None
    ensures r != root && Process(m, r, n, f, trampoline)
  {
    hide Sound, Sited, Flat, PageOf, Taken;
    KernelPage(h, r, n);
    TrapIsNotTrampoline(h, r, n, f, trampoline);
    SharedBeside(h.use, m.use, trap, root, f);
    TrapFrameBeside(h, m, root, trap, trampoline, r, f);
    SetAside(h, freelist, pages, first, stop, trap, r, n, f, trampoline);
    var m1 := WithUse(h, trap, Shared);
    forall p: nat | p < PAGES ensures Flat(m, r, p) == Flat(m1, r, p) {
      SameFlatAt(h, m1, r, p);
    }
    OthersSpace(m1, m, root, r, n);
    RootKept(m1, m, root, r);
  }

  /** A process is the same when nothing changed. */
  lemma ProcessSame(h: Memory, m: Memory, r: nat, n: nat, f: nat, trampoline: nat)
    requires Sited(h) && Sited(m) && m.use == h.use && OthersSame(h, m, None) && Process(h, r, n, f, trampoline)
    ensures Process(m, r, n, f, trampoline)
  {
    hide Flat, Sited, PageOf;
    TakenNothing(h.use, r + 1);
    OthersSpace(h, m, r + 1, r, n);
    RootKept(h, m, r + 1, r);
  }

  /** Page `p` of the new process holds what the parent's page held, with the same rights, in a frame that
      was free. */
  ghost predicate Copied(h: Memory, m: Memory, pages0: map<nat, Frame>, pages: map<nat, Frame>, parent: nat, root: nat, p: nat) {
    && Flat(h, parent, p).Some? && Flat(m, root, p).Some?
    && var l, l' := Flat(h, parent, p).value, Flat(m, root, p).value;
    && l'.permissions == l.permissions && l'.user == l.user
    && l'.frame in h.use && h.use[l'.frame] == Free
    && l.frame in pages0 && l'.frame in pages && pages[l'.frame] == pages0[l.frame]
  }

  lemma ChildPage(h: Memory, m1: Memory, m2: Memory, freelist0: seq<nat>, freelist1: seq<nat>,
                  pages0: map<nat, Frame>, pages1: map<nat, Frame>, pages2: map<nat, Frame>, first: nat, stop: nat,
                  parent: nat, root: nat, trap: nat, n: nat, p: nat)
    requires Sound(h, {}, freelist0, pages0, first, stop) && Sound(m1, {}, freelist1, pages1, first, stop)
    requires Started(h, m1, root, trap) && PagesKept(h.use, pages0, pages1) && parent != root
    requires Grown(m1, m2, pages2, root, 0, n, Copies(m1, pages1, parent))
    requires p < n <= PAGES && Flat(h, parent, p).Some?
    ensures Copied(h, m2, pages0, pages2, parent, root, p)
  {
    hide Linked, Sited, Listed, Backed, Flat, PageOf, GrownUse, Copies;
    assert Flat(m1, parent, p) == Flat(h, parent, p);
    FrameInUse(h, freelist0, pages0, first, stop, parent, p);
    FrameInUse(m1, freelist1, pages1, first, stop, parent, p);
    CopiesIs(m1, pages1, parent, p);
    assert NewPage(m1, m2, pages2, root, p, Copies(m1, pages1, parent)(p));
  }

  /** The parent's pages for a new process, or none. */
  method CopyPages(memory: PhysicalMemory, parent: nat, root: nat, size: nat,
                   ghost trap: nat, ghost parentTrap: nat, ghost trampoline: nat) returns (ok: bool)
    requires memory.Valid({}) && root != parent && size <= TRAPFRAME
    requires Process(memory.View(), parent, PagesFor(size), parentTrap, trampoline)
    requires Process(memory.View(), root, 0, trap, trampoline) && Alone(memory.View(), root, 0)
    modifies memory
    ensures memory.Valid({}) && Process(memory.View(), parent, PagesFor(size), parentTrap, trampoline)
    ensures Process(memory.View(), root, if ok then PagesFor(size) else 0, trap, trampoline)
    ensures Alone(memory.View(), root, if ok then PagesFor(size) else 0)
    ensures Taken(old(memory.use), memory.use, root) && OthersSame(old(memory.View()), memory.View(), Some(root))
    ensures ok ==>
              Grown(old(memory.View()), memory.View(), memory.pages, root, 0, PagesFor(size),
                    Copies(old(memory.View()), old(memory.pages), parent))
    ensures !ok ==> |old(memory.freelist)| < 3 * PagesFor(size)
  {
    hide Sound, Linked, Sited, Flat, OthersSame, Process, PagesKept, PagesFor, Grown, Copies, SamePages, TablesAdded,
         Taken, Alone;
    ghost var m1, pages1, n := memory.View(), memory.pages, PagesFor(size);
    SoundLinked(m1, {}, memory.freelist, pages1, memory.first, memory.stop);
    ParentReady(m1, parent, size, parentTrap, trampoline);
    EmptyProcess(m1, root, trap, trampoline, n);
    ok := memory.CopyPageTable(parent, root, size);
    ghost var m2, pages2 := memory.View(), memory.pages;
    SoundLinked(m2, {}, memory.freelist, memory.pages, memory.first, memory.stop);
    ghost var want := Copies(m1, pages1, parent);
    ghost var k := if ok then n else 0;
    if !ok {
      SameIsGrown(m1, m2, pages2, root, 0, want);
    }
    ProcessGrown(m1, m2, pages2, root, 0, k, want, trap, trampoline);
    BesideGrown(m1, m2, pages2, root, 0, k, want, parent, n, parentTrap, trampoline);
  }

  /** A child that could not be given its pages is given back whole. */
  method GiveBack(memory: PhysicalMemory, root: nat, trap: nat, ghost h: Memory, ghost m1: Memory,
                  ghost parent: nat, ghost n: nat, ghost parentTrap: nat, ghost trampoline: nat)
    requires memory.Valid({}) && memory.first <= trap < memory.stop
    requires Process(memory.View(), root, 0, trap, trampoline) && Alone(memory.View(), root, 0)
    requires Sited(h) && Started(h, m1, root, trap) && (forall p: nat | p < PAGES :: Flat(h, root, p) == None)
    requires Taken(m1.use, memory.use, root) && OthersSame(m1, memory.View(), Some(root))
    requires Process(h, parent, n, parentTrap, trampoline)
    modifies memory
    ensures memory.Valid({}) && memory.use == h.use && OthersSame(h, memory.View(), None)
    ensures Process(memory.View(), parent, n, parentTrap, trampoline)
  {
    hide Sound, Linked, Sited, Flat, OthersSame, Process, Started, PagesFor, Gone, PagesKeptBut, OnlyOwn, Taken, Alone;
    ghost var m2 := memory.View();
    AlignedSize(0);
    TakenIsOwn(m1.use, m2.use, root);
    var freed := FreeProcess(memory, root, 0, trap, trampoline);
    LifeLeavesNothing(h, m1, m2, memory.View(), root, trap);
    SoundLinked(memory.View(), {}, memory.freelist, memory.pages, memory.first, memory.stop);
    ProcessSame(h, memory.View(), parent, n, parentTrap, trampoline);
  }

  /** The memory of fork: a child with the parent's pages, byte for byte, or nothing at all. */
  method Fork(memory: PhysicalMemory, parent: nat, size: nat, trampoline: nat, ghost parentTrap: nat) returns (r: Option<(nat, nat)>)
    requires memory.Valid({}) && IsShared(memory.use, trampoline) && size <= TRAPFRAME
    requires Process(memory.View(), parent, PagesFor(size), parentTrap, trampoline)
    modifies memory
    ensures memory.Valid({}) && Process(memory.View(), parent, PagesFor(size), parentTrap, trampoline)
    ensures r.None? ==> memory.use == old(memory.use) && OthersSame(old(memory.View()), memory.View(), None)
    ensures r.None? ==> |old(memory.freelist)| < 6 + 3 * PagesFor(size)
    ensures r.Some? ==>
              var (root, trap) := r.value;
              && root != parent && Process(memory.View(), root, PagesFor(size), trap, trampoline)
              && Alone(memory.View(), root, PagesFor(size))
              && Started(old(memory.View()), memory.View(), root, trap) && memory.first <= trap < memory.stop
              && forall p: nat | p < PagesFor(size) ::
                   Copied(old(memory.View()), memory.View(), old(memory.pages), memory.pages, parent, root, p)
  {
    hide Sound, Linked, Sited, Flat, SameFlat, OthersSame, Process, Started, PagesKept, PagesFor, Grown, Copies,
         Copied, Taken, Alone;
    ghost var h, pages0, free0, n := memory.View(), memory.pages, memory.freelist, PagesFor(size);
    SoundLinked(h, {}, free0, pages0, memory.first, memory.stop);
    var made := AllocProcess(memory, trampoline);
    ghost var m1, pages1, free1 := memory.View(), memory.pages, memory.freelist;
    SoundLinked(m1, {}, free1, pages1, memory.first, memory.stop);
    if made.None? {
      ProcessSame(h, m1, parent, n, parentTrap, trampoline);
      return None;
    }
    var (root, trap) := made.value;
    BesideMade(h, m1, free0, pages0, memory.first, memory.stop, root, trap, parent, n, parentTrap, trampoline);
    var ok := CopyPages(memory, parent, root, size, trap, parentTrap, trampoline);
    if !ok {
      GiveBack(memory, root, trap, h, m1, parent, n, parentTrap, trampoline);
      return None;
    }
    StartedMore(h, m1, memory.View(), root, trap);
    ParentReady(h, parent, size, parentTrap, trampoline);
    AllCopied(h, m1, memory.View(), free0, free1, pages0, pages1, memory.pages, memory.first, memory.stop, parent, root, trap, n);
    r := Some((root, trap));
  }

  lemma AllCopied(h: Memory, m1: Memory, m2: Memory, freelist0: seq<nat>, freelist1: seq<nat>,
                  pages0: map<nat, Frame>, pages1: map<nat, Frame>, pages2: map<nat, Frame>, first: nat, stop: nat,
                  parent: nat, root: nat, trap: nat, n: nat)
    requires Sound(h, {}, freelist0, pages0, first, stop) && Sound(m1, {}, freelist1, pages1, first, stop)
    requires Started(h, m1, root, trap) && PagesKept(h.use, pages0, pages1) && parent != root
    requires Grown(m1, m2, pages2, root, 0, n, Copies(m1, pages1, parent))
    requires n <= PAGES && forall p: nat | p < n :: Flat(h, parent, p).Some?
    ensures forall p: nat | p < n :: Copied(h, m2, pages0, pages2, parent, root, p)
  {
    hide Sound, Flat, Started, PagesKept, Grown, Copies, Copied;
    forall p: nat | p < n ensures Copied(h, m2, pages0, pages2, parent, root, p) {
      ChildPage(h, m1, m2, freelist0, freelist1, pages0, pages1, pages2, first, stop, parent, root, trap, n, p);
    }
  }

  lemma StartedMore(h: Memory, m1: Memory, m2: Memory, root: nat, trap: nat)
    requires Started(h, m1, root, trap) && Taken(m1.use, m2.use, root) && OthersSame(m1, m2, Some(root))
    ensures Started(h, m2, root, trap)
  {
    hide Flat;
    TakenTwice(h.use[trap := Shared], m1.use, m2.use, root);
  }

  lemma ParentReady(m: Memory, root: nat, size: nat, trap: nat, trampoline: nat)
    requires Process(m, root, PagesFor(size), trap, trampoline)
    ensures Top(root) in m.at && PagesFor(size) <= PAGES - 2
    ensures forall p: nat | p < PagesFor(size) :: Flat(m, root, p).Some?
  {
    hide Flat, PageOf, PagesFor, TrapFrame;
  }

  lemma EmptyProcess(m: Memory, root: nat, trap: nat, trampoline: nat, n: nat)
    requires Process(m, root, 0, trap, trampoline) && Alone(m, root, 0) && n <= PAGES - 2
    ensures Top(root) in m.at && forall p: nat | p < n :: Flat(m, root, p) == None
  {
    hide Flat, PageOf, TrapFrame;
  }

  // ---------- exec ----------

  /** While exec loads a program, the trap frame is mapped in both address spaces. */
  ghost predicate TrapFrames(m: Memory, root: nat, root': nat, f: nat) {
    && IsShared(m.use, f)
    && Flat(m, root', PAGES - 2).Some? && Flat(m, root', PAGES - 2).value.frame == f
    && (forall r: nat, p: nat | p < PAGES && Flat(m, r, p).Some? && Flat(m, r, p).value.frame == f ::
          (r == root || r == root') && p == PAGES - 2)
  }

  /** `n` pages of the new program have been loaded for the process whose address space is `root`. */
  ghost predicate Loading(h: Memory, m: Memory, root: nat, root': nat, n: nat, trap: nat, trampoline: nat) {
    && Top(root') in m.at && ProcessSpace(m, root', n) && Alone(m, root', n) && TrapFrames(m, root, root', trap)
    && Flat(m, root', PAGES - 1).Some? && Flat(m, root', PAGES - 1).value.frame == trampoline
    && Taken(h.use, m.use, root') && OthersSame(h, m, Some(root'))
  }

  lemma LoadingStarts(h: Memory, m: Memory, freelist: seq<nat>, pages: map<nat, Frame>, first: nat, stop: nat,
                      root: nat, root': nat, n: nat, trap: nat, trampoline: nat)
    requires Sound(h, {}, freelist, pages, first, stop) && Process(h, root, n, trap, trampoline)
    requires MadeFrom(h.use, m.use, root') && OthersSame(h, m, Some(root')) && Top(root') in m.at
    requires Bootable(m, root', trampoline, trap) && ProcessSpace(m, root', 0)
    ensures Loading(h, m, root, root', 0, trap, trampoline) && root != root' && NoneAt(h.use, root')
    ensures forall p: nat | p < PAGES :: Flat(h, root', p) == None
  {
    hide Sound, Flat, PageOf;
    MadeTakes(h.use, m.use, root');
    TrapIsNotTrampoline(h, root, n, trap, trampoline);
    RootWasFree(h.use, m.use, root', trap);
    FreeRoot(h, freelist, pages, first, stop, root');
    FreeRootFlat(h, freelist, pages, first, stop, root');
  }

  lemma TrapFramesKept(h: Memory, m: Memory, pages: map<nat, Frame>, root': nat, n: nat, k: nat, want: nat -> Wanted, root: nat, f: nat)
    requires TrapFrames(h, root, root', f) && Grown(h, m, pages, root', n, k, want)
    requires Flat(m, root', PAGES - 2).Some? && n + k <= PAGES - 2
    ensures TrapFrames(m, root, root', f)
  {
    hide Flat, PageOf, PageNumber;
    forall p: nat | n <= p < n + k ensures Flat(m, root', p).Some? && Flat(m, root', p).value.frame != f {
      assert NewPage(h, m, pages, root', p, want(p));
    }
  }

  lemma LoadingMore(h: Memory, m: Memory, m': Memory, pages: map<nat, Frame>, root: nat, root': nat, n: nat, k: nat,
                    want: nat -> Wanted, trap: nat, trampoline: nat)
    requires Loading(h, m, root, root', n, trap, trampoline) && Grown(m, m', pages, root', n, k, want)
    requires Sited(m) && Sited(m')
    ensures Loading(h, m', root, root', n + k, trap, trampoline)
  {
    hide Sited, Flat, PageOf, GrownUse, NewPage, ProcessSpace, TrapFrames, Taken, Alone;
    AloneGrown(m, m', pages, root', n, k, want);
    SpaceGrown(m, m', pages, root', n, k, want);
    KernelPage(m', root', n + k);
    TrapFramesKept(m, m', pages, root', n, k, want, root, trap);
    GrownTakes(m.use, m'.use, root', n, k);
    TakenTwice(h.use, m.use, m'.use, root');
    RootKept(m, m', root', root');
  }

  /** Page `p` is the user's, with these rights. */
  ghost predicate ForUser(m: Memory, root: nat, p: nat, permissions: Permissions) {
    && Flat(m, root, p).Some?
    && Flat(m, root, p).value.user && Flat(m, root, p).value.permissions == permissions
  }

  /** Pages that start from `size` on and below `size'` are the user's with these rights; the others are mapped
      as they were. */
  ghost predicate Extended(h: Memory, m: Memory, root: nat, size: nat, size': nat, permissions: Permissions) {
    forall p: nat | p < PAGES ::
      if size <= p * PAGE < size' then ForUser(m, root, p, permissions) else Flat(m, root, p) == Flat(h, root, p)
  }

  lemma GrownExtended(h: Memory, m: Memory, pages: map<nat, Frame>, root: nat, size: nat, size': nat, permissions: Permissions)
    requires PagesFor(size) <= PagesFor(size')
    requires Grown(h, m, pages, root, PagesFor(size), PagesFor(size') - PagesFor(size), Zeroed(permissions))
    ensures Extended(h, m, root, size, size', permissions)
  {
    hide Flat, PageOf, GrownUse, PagesFor, Zeroed, Filled;
    forall p: nat | p < PAGES
      ensures if size <= p * PAGE < size' then ForUser(m, root, p, permissions) else Flat(m, root, p) == Flat(h, root, p)
    {
      PageBefore(p, size);
      PageBefore(p, size');
      if size <= p * PAGE < size' {
        ZeroedIs(permissions, p);
        assert NewPage(h, m, pages, root, p, Zeroed(permissions)(p));
      }
    }
  }

  lemma SameExtended(h: Memory, m: Memory, root: nat, size: nat, permissions: Permissions)
    requires SamePages(h, m)
    ensures Extended(h, m, root, size, size, permissions)
  {
    hide Flat;
  }

  /** Pages up to `end` with the rights a program segment asks for, or none. */
  method LoadSegment(memory: PhysicalMemory, root': nat, programSize: nat, end: nat, permissions: Permissions,
                     ghost h: Memory, ghost root: nat, ghost trap: nat, ghost trampoline: nat) returns (r: Option<nat>)
    requires memory.Valid({}) && permissions != NO_PERMISSIONS
    requires Loading(h, memory.View(), root, root', PagesFor(programSize), trap, trampoline)
    modifies memory
    ensures memory.Valid({}) && (r.Some? ==> r.value == if end < programSize then programSize else end)
    ensures Loading(h, memory.View(), root, root', PagesFor(if r.Some? then r.value else programSize), trap, trampoline)
    ensures Extended(old(memory.View()), memory.View(), root', programSize, if r.Some? then r.value else programSize, permissions)
    ensures r.Some? ==> |memory.freelist| + 3 * PagesFor(r.value) >= |old(memory.freelist)| + 3 * PagesFor(programSize)
    ensures r.None? ==>
              PagesFor(end) > PAGES - 2 || |old(memory.freelist)| + 3 * PagesFor(programSize) < 3 * PagesFor(end)
  {
    hide Sound, Linked, Sited, Flat, PageRoundUp, PagesFor, Grown, Loading, SamePages, TablesAdded, Zeroed,
         PagesKept, MappedFrom, Extended;
    ghost var m, n := memory.View(), PagesFor(programSize);
    LoadingReady(h, m, root, root', n, trap, trampoline);
    SoundLinked(m, {}, memory.freelist, memory.pages, memory.first, memory.stop);
    r := memory.Alloc(root', programSize, end, permissions);
    SoundLinked(memory.View(), {}, memory.freelist, memory.pages, memory.first, memory.stop);
    ghost var k := if r.None? || end < programSize then 0 else PagesFor(end) - n;
    if r.None? {
      SameIsGrown(m, memory.View(), memory.pages, root', n, Zeroed(permissions));
      SameExtended(m, memory.View(), root', programSize, permissions);
    } else {
      GrownExtended(m, memory.View(), memory.pages, root', programSize, r.value, permissions);
    }
    LoadingMore(h, m, memory.View(), memory.pages, root, root', n, k, Zeroed(permissions), trap, trampoline);
  }

  lemma LoadingReady(h: Memory, m: Memory, root: nat, root': nat, n: nat, trap: nat, trampoline: nat)
    requires Loading(h, m, root, root', n, trap, trampoline)
    ensures Top(root') in m.at && ProcessSpace(m, root', n) && n <= PAGES - 2 && MappedFrom(m, root', n)
    ensures Alone(m, root', n)
  {
    hide Flat, PageOf, TrapFrames, Taken, OthersSame;
    KernelPage(m, root', n);
  }

  lemma SizeFits(size: nat)
    requires PagesFor(size) <= PAGES - 2
    ensures size <= TRAPFRAME
  {
  }

  /** exec failed: the new address space goes, and nothing is left of it. */
  method GiveUp(memory: PhysicalMemory, root': nat, programSize: nat,
                ghost h: Memory, ghost root: nat, ghost n: nat, ghost trap: nat, ghost trampoline: nat)
    requires memory.Valid({}) && Sited(h) && NoneAt(h.use, root')
    requires Loading(h, memory.View(), root, root', PagesFor(programSize), trap, trampoline)
    requires (forall p: nat | p < PAGES :: Flat(h, root', p) == None) && Process(h, root, n, trap, trampoline)
    modifies memory
    ensures memory.Valid({}) && memory.use == h.use && OthersSame(h, memory.View(), None)
    ensures Process(memory.View(), root, n, trap, trampoline)
  {
    hide Sound, Linked, Sited, Flat, PagesFor, Loading, Process, Dropped, NoneAt, OthersSame, ProcessSpace,
         PagesKeptBut, MappedFrom, Alone;
    ghost var m := memory.View();
    LoadingReady(h, m, root, root', PagesFor(programSize), trap, trampoline);
    SizeFits(programSize);
    var freed := memory.FreePageTable(root', programSize);
    GivenUp(h, m, memory.View(), root, root', PagesFor(programSize), trap, trampoline);
    SoundLinked(memory.View(), {}, memory.freelist, memory.pages, memory.first, memory.stop);
    ProcessSame(h, memory.View(), root, n, trap, trampoline);
  }

  lemma GivenUp(h: Memory, m: Memory, m': Memory, root: nat, root': nat, n: nat, trap: nat, trampoline: nat)
    requires Loading(h, m, root, root', n, trap, trampoline) && Dropped(m, m', root') && NoneAt(h.use, root')
    requires forall p: nat | p < PAGES :: Flat(h, root', p) == None
    ensures m'.use == h.use && OthersSame(h, m', None)
  {
    hide Flat, ProcessSpace, TrapFrames;
    TakenAndDropped(h.use, m, m', root');
  }

  /** The old address space is on the list, the new one was made from it, and nothing else changed hands. */
  ghost predicate Exchanged(h: Memory, m: Memory, root: nat, root': nat) {
    && m.use.Keys == h.use.Keys
    && (forall f | f in h.use ::
          if h.use[f].At? && h.use[f].spot.root == root then m.use[f] == Free
          else m.use[f] == h.use[f] || (h.use[f] == Free && m.use[f].At? && m.use[f].spot.root == root'))
    && (forall r: nat, p: nat | p < PAGES && r != root && r != root' :: Flat(m, r, p) == Flat(h, r, p))
    && Top(root) !in m.at
  }

  lemma IsExchanged(h: Memory, m: Memory, m': Memory, root: nat, root': nat, n: nat, trap: nat, trampoline: nat)
    requires Loading(h, m, root, root', n, trap, trampoline) && Dropped(m, m', root) && root != root'
    ensures Exchanged(h, m', root, root')
  {
    hide Flat, ProcessSpace, TrapFrames;
  }

  lemma DroppedStays(h: Memory, m: Memory, root: nat, s: Spot)
    requires Sited(h) && Sited(m) && Dropped(h, m, root) && s.root != root
    ensures s in h.at <==> s in m.at
  {
    hide Sited, Flat;
    if s in h.at {
      Site(h, s);
      SiteThere(m, h.at[s]);
    }
    if s in m.at {
      Site(m, s);
      SiteThere(h, m.at[s]);
    }
  }

  /** The new program is all the process has. */
  lemma ProcessLoaded(h: Memory, m: Memory, m': Memory, root: nat, root': nat, n: nat, trap: nat, trampoline: nat)
    requires Loading(h, m, root, root', n, trap, trampoline) && Dropped(m, m', root) && root != root'
    requires Sited(m) && Sited(m')
    ensures Process(m', root', n, trap, trampoline) && Alone(m', root', n)
  {
    hide Sited, Flat, PageOf;
    DroppedStays(m, m', root, Top(root'));
    forall p: nat | p < PAGES ensures PageOf(root', p) in m.at <==> PageOf(root', p) in m'.at {
      DroppedStays(m, m', root, RootOfPage(root', p));
    }
  }

  function RootOfPage(r: nat, p: nat): (s: Spot)
    ensures s == PageOf(r, p) && s.root == r
  {
    PageOf(r, p)
  }

  datatype Segment = Segment(end: nat, permissions: Permissions)

  /** Where the last page of any segment ends: the sizes a program asks for only ever raise its own. */
  function Largest(segments: seq<Segment>): nat {
    if segments == [] then 0
    else
      var rest, end := Largest(segments[..|segments| - 1]), segments[|segments| - 1].end;
      if end < rest then rest else end
  }

  lemma {:induction false} LargestMore(segments: seq<Segment>, i: nat)
    requires i < |segments|
    ensures var sofar, end := Largest(segments[..i]), segments[i].end;
            Largest(segments[..i + 1]) == if end < sofar then sofar else end
    ensures Largest(segments[..i + 1]) <= Largest(segments)
    decreases |segments| - i
  {
    assert segments[..i + 1][..i] == segments[..i];
    if i + 1 < |segments| {
      LargestMore(segments, i + 1);
    } else {
      assert segments[..i + 1] == segments;
    }
  }

  lemma {:induction false} EndBelow(segments: seq<Segment>, j: nat)
    requires j < |segments|
    ensures segments[j].end <= Largest(segments)
    decreases |segments|
  {
    var front := segments[..|segments| - 1];
    if j < |front| {
      assert front[j] == segments[j];
      EndBelow(front, j);
    }
  }

  /** Each page of the program has the rights of the first segment that reaches it. */
  ghost predicate Granted(m: Memory, root: nat, segments: seq<Segment>) {
    forall i: nat, p: nat | i < |segments| && p < PAGES && Largest(segments[..i]) <= p * PAGE < segments[i].end ::
      ForUser(m, root, p, segments[i].permissions)
  }

  lemma GrantedMore(h: Memory, m: Memory, root: nat, segments: seq<Segment>, i: nat)
    requires i < |segments| && Granted(h, root, segments[..i])
    requires Extended(h, m, root, Largest(segments[..i]), Largest(segments[..i + 1]), segments[i].permissions)
    ensures Granted(m, root, segments[..i + 1])
  {
    hide Flat, Largest;
    var before, after := segments[..i], segments[..i + 1];
    LargestMore(segments, i);
    forall j: nat, p: nat | j < |after| && p < PAGES && Largest(after[..j]) <= p * PAGE < after[j].end
      ensures ForUser(m, root, p, after[j].permissions)
    {
      assert after[..j] == segments[..j];
      if j < i {
        assert before[..j] == segments[..j] && before[j] == after[j];
        EndBelow(before, j);
        assert ForUser(h, root, p, before[j].permissions);
      }
    }
  }

  lemma GrantedStays(h: Memory, m: Memory, root: nat, segments: seq<Segment>)
    requires Granted(h, root, segments)
    requires forall p: nat | p < PAGES && p * PAGE < Largest(segments) :: Flat(m, root, p) == Flat(h, root, p)
    ensures Granted(m, root, segments)
  {
    hide Flat, Largest;
    forall i: nat, p: nat | i < |segments| && p < PAGES && Largest(segments[..i]) <= p * PAGE < segments[i].end
      ensures ForUser(m, root, p, segments[i].permissions)
    {
      EndBelow(segments, i);
      assert ForUser(h, root, p, segments[i].permissions);
    }
  }

  /** The stack is the last page, which the user may read and write; below it is one the user may not touch. */
  ghost predicate Stacked(m: Memory, root: nat, size: nat) {
    && 2 * PAGE <= size
    && (forall p: nat | p < PAGES && size - PAGE <= p * PAGE < size :: ForUser(m, root, p, Permissions(true, true, false)))
    && (forall p: nat | p < PAGES && size - 2 * PAGE <= p * PAGE < size - PAGE ::
          Flat(m, root, p).Some? && !Flat(m, root, p).value.user)
  }

  lemma StackedIs(h: Memory, m: Memory, m': Memory, root: nat, n: nat)
    requires Extended(h, m, root, n * PAGE, n * PAGE + 2 * PAGE, Permissions(true, true, false)) && Barred(m, m', root, n)
    requires n + 2 <= PAGES
    ensures Stacked(m', root, n * PAGE + 2 * PAGE)
    ensures forall p: nat | p < n :: Flat(m', root, p) == Flat(h, root, p)
  {
    hide Flat;
    assert ForUser(m, root, n + 1, Permissions(true, true, false));
  }

  /** Barring the user from a page is no matter of who has which frame. */
  lemma LoadingBarred(h: Memory, m: Memory, m': Memory, root: nat, root': nat, n: nat, trap: nat, trampoline: nat, v: nat)
    requires Loading(h, m, root, root', n, trap, trampoline) && Barred(m, m', root', v)
    requires m'.use == m.use && m'.at == m.at && v < n
    ensures Loading(h, m', root, root', n, trap, trampoline)
  {
    hide Flat, PageOf;
    forall p: nat | p < PAGES ensures Flat(m', root', p).Some? == Flat(m, root', p).Some? {
    }
  }

  datatype ExecResult = Replaced(root: nat, size: nat) | Refused | LeafFound

  /** The memory of exec: the program's segments and a stack of two pages in a new address space, and then
      the old one is freed. `loaded` says whether the file could be read, up to the segments given.
      When it fails, wherever that is, the process has the memory it had, and every frame is where it was.
      When the old address space still maps something above the process's size, the kernel stops. */
  method Exec(memory: PhysicalMemory, root: nat, size: nat, trap: nat, trampoline: nat, segments: seq<Segment>,
              loaded: bool, argumentsFit: bool)
    returns (r: ExecResult)
    requires memory.Valid({}) && IsShared(memory.use, trampoline) && size <= TRAPFRAME
    requires Process(memory.View(), root, PagesFor(size), trap, trampoline)
    requires forall s | s in segments :: s.permissions != NO_PERMISSIONS
    modifies memory
    ensures !r.LeafFound? ==> memory.Valid({})
    ensures r.Refused? ==>
              && memory.use == old(memory.use) && OthersSame(old(memory.View()), memory.View(), None)
              && Process(memory.View(), root, PagesFor(size), trap, trampoline)
    ensures r.Refused? ==>
              || !loaded || !argumentsFit || PagesFor(Largest(segments)) + 4 > PAGES
              || |old(memory.freelist)| < 5 + 3 * (PagesFor(Largest(segments)) + 2)
    ensures !r.Refused? ==> (r.LeafFound? <==> !old(Alone(memory.View(), root, PagesFor(size))))
    ensures !r.Refused? ==> loaded && argumentsFit
    ensures r.Replaced? ==>
              && r.size == PageRoundUp(Largest(segments)) + 2 * PAGE <= TRAPFRAME
              && Process(memory.View(), r.root, PagesFor(r.size), trap, trampoline)
              && Alone(memory.View(), r.root, PagesFor(r.size))
              && Exchanged(old(memory.View()), memory.View(), root, r.root)
              && Granted(memory.View(), r.root, segments) && Stacked(memory.View(), r.root, r.size)
  {
    hide Sound, Linked, Sited, Flat, PagesFor, PageRoundUp, Loading, Process, Dropped, NoneAt, OthersSame,
         ProcessSpace, PagesKeptBut, PagesKept, MadeFrom, Bootable, MappedFrom, Exchanged, Alone, Granted, Stacked,
         Largest;
    ghost var h, n := memory.View(), PagesFor(size);
    SoundLinked(h, {}, memory.freelist, memory.pages, memory.first, memory.stop);
    TrapIsNotTrampoline(h, root, n, trap, trampoline);
    var created := memory.CreatePagetable(trampoline, trap);
    if created.None? {
      SoundLinked(memory.View(), {}, memory.freelist, memory.pages, memory.first, memory.stop);
      ProcessSame(h, memory.View(), root, n, trap, trampoline);
      return Refused;
    }
    var root' := created.value;
    LoadingStarts(h, memory.View(), old(memory.freelist), old(memory.pages), memory.first, memory.stop, root, root', n, trap, trampoline);
    var programSize := LoadProgram(memory, root', segments, h, root, trap, trampoline, n);
    if programSize.None? {
      return Refused;
    }
    if !loaded {
      GiveUp(memory, root', programSize.value, h, root, n, trap, trampoline);
      return Refused;
    }
    ghost var m := memory.View();
    var grown := LoadStack(memory, root', programSize.value, h, root, trap, trampoline);
    if grown.None? {
      GiveUp(memory, root', programSize.value, h, root, n, trap, trampoline);
      return Refused;
    }
    if !argumentsFit {
      GiveUp(memory, root', grown.value, h, root, n, trap, trampoline);
      return Refused;
    }
    GrantedStays(m, memory.View(), root', segments);
    ghost var m2 := memory.View();
    var ok := FinishExec(memory, root, size, root', h, PagesFor(grown.value), trap, trampoline);
    if !ok {
      return LeafFound;
    }
    GrantedStays(m2, memory.View(), root', segments);
    StackedStays(m2, memory.View(), root', grown.value);
    SizeOfProcess(memory.View(), root', grown.value, trap, trampoline);
    r := Replaced(root', grown.value);
  }

  /** The stack of exec: two pages above the program, of which the user may use the upper. */
  method LoadStack(memory: PhysicalMemory, root': nat, programSize: nat,
                   ghost h: Memory, ghost root: nat, ghost trap: nat, ghost trampoline: nat) returns (r: Option<nat>)
    requires memory.Valid({}) && Loading(h, memory.View(), root, root', PagesFor(programSize), trap, trampoline)
    modifies memory
    ensures memory.Valid({}) && (r.Some? ==> r.value == PageRoundUp(programSize) + 2 * PAGE)
    ensures Loading(h, memory.View(), root, root', PagesFor(if r.Some? then r.value else programSize), trap, trampoline)
    ensures r.Some? ==> Stacked(memory.View(), root', r.value)
    ensures r.Some? ==>
              forall p: nat | p < PAGES && p * PAGE < programSize :: Flat(memory.View(), root', p) == Flat(old(memory.View()), root', p)
    ensures r.None? ==> PagesFor(programSize) + 4 > PAGES || |old(memory.freelist)| < 6
  {
    hide Sound, Linked, Sited, Flat, PagesFor, PageRoundUp, Loading, Extended, Barred, Stacked;
    ghost var m, n := memory.View(), PagesFor(programSize);
    var aligned := PageRoundUp(programSize);
    RoundedUp(programSize);
    AlignedSize(n);
    AlignedSize(n + 2);
    r := LoadSegment(memory, root', aligned, aligned + 2 * PAGE, DATA, h, root, trap, trampoline);
    if r.Some? {
      ghost var m1 := memory.View();
      LoadingReady(h, m1, root, root', n + 2, trap, trampoline);
      OwnPageThere(m1, root', n + 2, n);
      memory.ClearUser(root', r.value - 2 * PAGE);
      LoadingBarred(h, m1, memory.View(), root, root', n + 2, trap, trampoline, n);
      StackedIs(m, m1, memory.View(), root', n);
    }
  }

  lemma OwnPageThere(m: Memory, root: nat, n: nat, p: nat)
    requires ProcessSpace(m, root, n) && p < n
    ensures n <= PAGES - 2 && Flat(m, root, p).Some?
  {
    hide Flat, PageOf;
  }

  lemma StackedStays(h: Memory, m: Memory, root: nat, size: nat)
    requires Stacked(h, root, size) && forall p: nat | p < PAGES :: Flat(m, root, p) == Flat(h, root, p)
    ensures Stacked(m, root, size)
  {
    hide Flat;
    forall p: nat | p < PAGES && size - PAGE <= p * PAGE < size ensures ForUser(m, root, p, Permissions(true, true, false)) {
      assert ForUser(h, root, p, Permissions(true, true, false));
    }
  }

  /** The loop over the segments; on failure the new address space is gone. */
  method LoadProgram(memory: PhysicalMemory, root': nat, segments: seq<Segment>,
                     ghost h: Memory, ghost root: nat, ghost trap: nat, ghost trampoline: nat, ghost n: nat)
    returns (r: Option<nat>)
    requires memory.Valid({}) && Loading(h, memory.View(), root, root', 0, trap, trampoline)
    requires Sited(h) && NoneAt(h.use, root') && Process(h, root, n, trap, trampoline)
    requires forall p: nat | p < PAGES :: Flat(h, root', p) == None
    requires forall s | s in segments :: s.permissions != NO_PERMISSIONS
    modifies memory
    ensures memory.Valid({})
    ensures r.Some? ==> r.value == Largest(segments) && Loading(h, memory.View(), root, root', PagesFor(r.value), trap, trampoline)
    ensures r.Some? ==> |memory.freelist| + 3 * PagesFor(r.value) >= |old(memory.freelist)|
    ensures r.Some? ==> Granted(memory.View(), root', segments)
    ensures r.None? ==> memory.use == h.use && OthersSame(h, memory.View(), None) && Process(memory.View(), root, n, trap, trampoline)
    ensures r.None? ==>
              PagesFor(Largest(segments)) > PAGES - 2 || |old(memory.freelist)| < 3 * PagesFor(Largest(segments))
  {
    hide Sound, Linked, Sited, Flat, PagesFor, PageRoundUp, Loading, Process, NoneAt, OthersSame, Largest, Granted,
         Extended;
    GrantedNone(memory.View(), root', segments[..0]);
    var i: nat, programSize: nat := 0, 0;
    AlignedSize(0);
    LargestOfNone(segments[..0]);
    while i < |segments|
      invariant i <= |segments| && memory.Valid({}) && programSize == Largest(segments[..i])
      invariant Loading(h, memory.View(), root, root', PagesFor(programSize), trap, trampoline)
      invariant |memory.freelist| + 3 * PagesFor(programSize) >= |old(memory.freelist)|
      invariant Granted(memory.View(), root', segments[..i])
    {
      ghost var m := memory.View();
      LargestMore(segments, i);
      var grown := LoadSegment(memory, root', programSize, segments[i].end, segments[i].permissions, h, root, trap, trampoline);
      if grown.None? {
        RoundedOrder(segments[i].end, Largest(segments));
        GiveUp(memory, root', programSize, h, root, n, trap, trampoline);
        return None;
      }
      programSize := grown.value;
      GrantedMore(m, memory.View(), root', segments, i);
      i := i + 1;
    }
    assert segments[..i] == segments;
    r := Some(programSize);
  }

  lemma GrantedNone(m: Memory, root: nat, segments: seq<Segment>)
    requires segments == []
    ensures Granted(m, root, segments)
  {
  }

  lemma LargestOfNone(segments: seq<Segment>)
    requires segments == []
    ensures Largest(segments) == 0
  {
  }

  /** The old address space is freed, and the process has the new one; or the kernel stops at a leaf. */
  method FinishExec(memory: PhysicalMemory, root: nat, size: nat, ghost root': nat, ghost h: Memory, ghost n': nat,
                    ghost trap: nat, ghost trampoline: nat) returns (ok: bool)
    requires memory.Valid({}) && Sited(h) && size <= TRAPFRAME && root != root'
    requires Process(h, root, PagesFor(size), trap, trampoline)
    requires Loading(h, memory.View(), root, root', n', trap, trampoline)
    modifies memory
    ensures ok <==> Alone(h, root, PagesFor(size))
    ensures ok ==> memory.Valid({}) && Process(memory.View(), root', n', trap, trampoline) && Alone(memory.View(), root', n')
    ensures ok ==> Exchanged(h, memory.View(), root, root')
    ensures ok ==> forall p: nat | p < PAGES :: Flat(memory.View(), root', p) == Flat(old(memory.View()), root', p)
  {
    hide Sound, Linked, Sited, Flat, PagesFor, Loading, Process, Dropped, ProcessSpace, PagesKeptBut, Exchanged, Alone;
    ghost var m := memory.View();
    SoundLinked(m, {}, memory.freelist, memory.pages, memory.first, memory.stop);
    OldSpace(h, m, root, root', PagesFor(size), n', trap, trampoline);
    ok := memory.FreePageTable(root, size);
    if ok {
      SoundLinked(memory.View(), {}, memory.freelist, memory.pages, memory.first, memory.stop);
      ProcessLoaded(h, m, memory.View(), root, root', n', trap, trampoline);
      IsExchanged(h, m, memory.View(), root, root', n', trap, trampoline);
      DroppedFlat(m, memory.View(), root, root');
    }
  }

  lemma DroppedFlat(m: Memory, m': Memory, root: nat, r: nat)
    requires Dropped(m, m', root) && r != root
    ensures forall p: nat | p < PAGES :: Flat(m', r, p) == Flat(m, r, p)
  {
    hide Flat;
  }

  lemma OldSpace(h: Memory, m: Memory, root: nat, root': nat, n: nat, n': nat, trap: nat, trampoline: nat)
    requires Sited(h) && Sited(m) && root != root' && Process(h, root, n, trap, trampoline)
    requires Loading(h, m, root, root', n', trap, trampoline)
    ensures Top(root) in m.at && ProcessSpace(m, root, n) && (Alone(m, root, n) <==> Alone(h, root, n))
  {
    hide Sited, Flat, ProcessSpace, TrapFrames, TrapFrame, Taken, Alone;
    AloneSame(h, m, root, n);
    OthersSpace(h, m, root', root, n);
    RootKept(h, m, root', root);
  }

  lemma SizeOfProcess(m: Memory, root: nat, size: nat, trap: nat, trampoline: nat)
    requires Process(m, root, PagesFor(size), trap, trampoline)
    ensures size <= TRAPFRAME
  {
    hide Flat, PagesFor, PageOf, TrapFrame;
    SizeFits(size);
  }
}
