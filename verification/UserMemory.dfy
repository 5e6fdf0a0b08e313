/** The page allocator, and the address spaces built from its pages. */
module AddressSpaces {
  import opened Wrappers
  import opened Blocks
  import opened PageTables

  const PAGES := MAX_ADDRESS / PAGE

  type Frame = seq<Byte>

  function Filled(b: Byte): (p: Frame)
    ensures |p| == PAGE && forall i | 0 <= i < PAGE :: p[i] == b
  {
    seq(PAGE, i => b)
  }

  ghost predicate IsTable(u: Use) {
    u.At? && !u.spot.Page?
  }

  /** The allocator's list holds the free frames, each once, all from its range. */
  ghost predicate Listed(freelist: seq<nat>, use: map<nat, Use>, first: nat, stop: nat) {
    && (forall f | f in freelist :: f in use && use[f] == Free)
    && (forall f | f in use && use[f] == Free :: f in freelist)
    && (forall i, j | 0 <= i < j < |freelist| :: freelist[i] != freelist[j])
    && (forall f | f in use && use[f] != Shared :: first <= f < stop)
  }

  /** Every frame holds bytes; those of a page table are not looked at. */
  ghost predicate Backed(pages: map<nat, Frame>, use: map<nat, Use>) {
    forall f | f in use :: f in pages && |pages[f]| == PAGE
  }

  ghost predicate SameFlat(m: Memory, m': Memory) {
    forall r, v :: Flat(m', r, v) == Flat(m, r, v)
  }

  /** `u'` is `u`, or a table of `root` made from a free frame. */
  ghost predicate NewTable(u: Use, u': Use, root: nat) {
    u' == u || (u == Free && IsTable(u') && u'.spot.root == root)
  }

  /** Nothing changed hands but free frames that became tables of `root`. */
  ghost predicate TablesAdded(use: map<nat, Use>, use': map<nat, Use>, root: nat) {
    use'.Keys == use.Keys && forall f | f in use :: NewTable(use[f], use'[f], root)
  }

  /** The contents of frames in use are as they were. */
  ghost predicate PagesKept(use: map<nat, Use>, pages: map<nat, Frame>, pages': map<nat, Frame>) {
    forall f | f in use && use[f] != Free && f in pages :: f in pages' && pages'[f] == pages[f]
  }

  lemma TablesAddedTwice(use: map<nat, Use>, use1: map<nat, Use>, use2: map<nat, Use>, root: nat)
    requires TablesAdded(use, use1, root) && TablesAdded(use1, use2, root)
    ensures TablesAdded(use, use2, root)
  {
  }

  ghost predicate NoneFreed(use: map<nat, Use>, use': map<nat, Use>) {
    forall f | f in use && use[f] != Free :: f in use' && use'[f] != Free
  }

  lemma PagesKeptTwice(use: map<nat, Use>, use1: map<nat, Use>,
                       pages: map<nat, Frame>, pages1: map<nat, Frame>, pages2: map<nat, Frame>)
    requires NoneFreed(use, use1) && PagesKept(use, pages, pages1) && PagesKept(use1, pages1, pages2)
    ensures PagesKept(use, pages, pages2)
  {
  }

  lemma SameFlatTwice(m: Memory, m1: Memory, m2: Memory)
    requires SameFlat(m, m1) && SameFlat(m1, m2)
    ensures SameFlat(m, m2)
  {
    hide Flat;
  }

  /** Everything that holds of physical memory between operations; address spaces in `torn` are being
      taken apart. */
  ghost predicate Sound(m: Memory, torn: set<nat>, freelist: seq<nat>, pages: map<nat, Frame>, first: nat, stop: nat) {
    Linked(m, torn) && Sited(m) && Listed(freelist, m.use, first, stop) && Backed(pages, m.use)
  }

  lemma Allocated(m: Memory, torn: set<nat>, freelist: seq<nat>, pages: map<nat, Frame>, first: nat, stop: nat, p: Frame)
    requires Sound(m, torn, freelist, pages, first, stop) && freelist != [] && |p| == PAGE
    ensures var f := freelist[0];
            && f in m.use && m.use[f] == Free
            && Sound(WithUse(m, f, Held), torn, freelist[1..], pages[f := p], first, stop)
            && SameFlat(m, WithUse(m, f, Held))
  {
    hide Linked, Sited, Flat;
    assert freelist[0] in freelist;
    UseLinked(m, torn, freelist[0], Held);
  }

  lemma Freed(m: Memory, torn: set<nat>, freelist: seq<nat>, pages: map<nat, Frame>, first: nat, stop: nat, f: nat, p: Frame)
    requires Sound(m, torn, freelist, pages, first, stop) && IsHeld(m.use, f) && |p| == PAGE
    ensures Sound(WithUse(m, f, Free), torn, [f] + freelist, pages[f := p], first, stop)
    ensures SameFlat(m, WithUse(m, f, Free)) && first <= f < stop
  {
    hide Linked, Sited, Flat;
    UseLinked(m, torn, f, Free);
  }

  /** A walk's table step, from a frame just allocated. */
  lemma Extended(m: Memory, freelist: seq<nat>, pages: map<nat, Frame>, first: nat, stop: nat, s: Spot, i: nat, f: nat)
    requires Sound(m, {}, freelist, pages, first, stop)
    requires Vacant(m, s, i) && !s.Bottom? && IsHeld(m.use, f)
    ensures Sound(WithTable(m, s, i, f), {}, freelist, pages, first, stop)
    ensures SameFlat(m, WithTable(m, s, i, f))
  {
    hide Linked, Sited, Flat;
    TableLinked(m, s, i, f);
    TableSited(m, s, i, f);
    forall r, v ensures Flat(WithTable(m, s, i, f), r, v) == Flat(m, r, v) {
      TableFlat(m, s, i, f, r, v);
    }
  }

  lemma NewTableAdded(use: map<nat, Use>, f: nat, s: Spot)
    requires f in use && use[f] == Free && !s.Page?
    ensures TablesAdded(use, use[f := Held][f := At(s)], s.root)
  {
  }

  /** The next step of a walk. */
  lemma WalkStep(m: Memory, s: Spot, i: nat)
    requires Linked(m, {}) && s in m.at && !s.Page? && i < ENTRIES && (s.Top? ==> i < ENTRIES / 2)
    ensures m.at[s] in m.tables && |m.tables[m.at[s]]| == ENTRIES
    ensures var e := m.tables[m.at[s]][i];
            && (e.valid && !s.Bottom? ==> Child(s, i) in m.at && m.at[Child(s, i)] == e.frame)
            && (!e.valid ==> Vacant(m, s, i) && Child(s, i) !in m.at)
            && (s.Middle? || s.Top? ==> Child(s, i).root == s.root && !Child(s, i).Page?)
  {
    hide Linked;
    TableEntry(m, {}, s, i);
  }

  lemma SoundLinked(m: Memory, torn: set<nat>, freelist: seq<nat>, pages: map<nat, Frame>, first: nat, stop: nat)
    requires Sound(m, torn, freelist, pages, first, stop)
    ensures Linked(m, torn) && Sited(m)
  {
  }

  /** The table of page `v` at each level of the walk from `root`. */
  function OnTheWay(root: nat, v: nat, level: nat): Spot {
    if level == 2 then Top(root) else if level == 1 then Middle(root, Index(v, 2)) else BottomOf(root, v)
  }

  lemma TopHalf(v: nat)
    requires v < PAGES
    ensures Index(v, 2) < ENTRIES / 2
  {
  }

  /** Tables that a walk to page `v` would have to make. */
  ghost function Missing(at: map<Spot, nat>, root: nat, v: nat): (n: nat)
    ensures n <= 2
  {
    if BottomOf(root, v) in at then 0 else if Middle(root, Index(v, 2)) in at then 1 else 2
  }

  /** The next table on the way is one fewer to make. */
  lemma MissingLess(m: Memory, at': map<Spot, nat>, root: nat, v: nat, level: nat, f: nat)
    requires Linked(m, {}) && 1 <= level <= 2 && OnTheWay(root, v, level) in m.at && OnTheWay(root, v, level - 1) !in m.at
    requires at' == m.at[OnTheWay(root, v, level - 1) := f]
    ensures Missing(m.at, root, v) == level && Missing(at', root, v) == level - 1
  {
    NotOnTheWay(m, root, v, level);
  }

  lemma NoneMissing(at: map<Spot, nat>, root: nat, v: nat)
    requires BottomOf(root, v) in at
    ensures Missing(at, root, v) == 0
  {
  }

  lemma NotOnTheWay(m: Memory, root: nat, v: nat, level: nat)
    requires Linked(m, {}) && 1 <= level <= 2 && OnTheWay(root, v, level - 1) !in m.at
    ensures BottomOf(root, v) !in m.at
  {
    MiddleAbove(m, root, v);
  }

  lemma Start(m: Memory, freelist: seq<nat>, pages: map<nat, Frame>, first: nat, stop: nat, root: nat)
    requires Sound(m, {}, freelist, pages, first, stop) && Top(root) in m.at
    ensures m.at[Top(root)] == root && SameFlat(m, m) && TablesAdded(m.use, m.use, root)
    ensures PagesKept(m.use, pages, pages)
  {
    hide Flat;
    RootAt(m, root);
  }

  lemma TableKept(use0: map<nat, Use>, use: map<nat, Use>, f: nat, s: Spot,
                  pages0: map<nat, Frame>, pages: map<nat, Frame>)
    requires f in use && use[f] == Free && !s.Page?
    requires TablesAdded(use0, use, s.root) && PagesKept(use0, pages0, pages)
    ensures TablesAdded(use0, use[f := Held][f := At(s)], s.root)
    ensures PagesKept(use0, pages0, pages[f := Filled(0)])
  {
    NewTableAdded(use, f, s);
    TablesAddedTwice(use0, use, use[f := Held][f := At(s)], s.root);
  }

  /** One table more: `m` before its frame was allocated, `m1` after. */
  lemma WalkGrows(h: Memory, m: Memory, m1: Memory, freelist: seq<nat>,
                  pages0: map<nat, Frame>, pages: map<nat, Frame>, pages1: map<nat, Frame>,
                  first: nat, stop: nat, s: Spot, i: nat, f: nat)
    requires Sound(m1, {}, freelist, pages1, first, stop) && SameFlat(m, m1)
    requires f in m.use && m.use[f] == Free && m1 == m.(use := m.use[f := Held])
    requires Vacant(m, s, i) && !s.Bottom? && Child(s, i) !in m.at
    requires SameFlat(h, m) && TablesAdded(h.use, m.use, s.root) && PagesKept(h.use, pages0, pages)
    requires pages1 == pages[f := Filled(0)]
    ensures var m2 := WithTable(m1, s, i, f);
            && Sound(m2, {}, freelist, pages1, first, stop)
            && SameFlat(h, m2) && TablesAdded(h.use, m2.use, s.root) && PagesKept(h.use, pages0, pages1)
            && m.at[s] != f
  {
    hide Sound, Linked, Sited, Flat, SameFlat, TablesAdded, PagesKept, Filled;
    Extended(m1, freelist, pages1, first, stop, s, i, f);
    assert Child(s, i).root == s.root && !Child(s, i).Page?;
    TableKept(h.use, m.use, f, Child(s, i), pages0, pages);
    SameFlatTwice(h, m, m1);
    SameFlatTwice(h, m1, WithTable(m1, s, i, f));
    SoundLinked(m1, {}, freelist, pages1, first, stop);
    Site(m1, s);
  }

  // ---------- mapping a range ----------

  /** `m'` maps `n` pages from page `v` on to the frames from `f` on, and is otherwise as `m`. */
  ghost predicate MapsRange(m: Memory, m': Memory, root: nat, v: nat, n: nat, f: nat, permissions: Permissions, user: bool) {
    forall r: nat, v': nat | v' < PAGES ::
      Flat(m', r, v') == if r == root && v <= v' < v + n then Some(Leaf(f + (v' - v), permissions, user))
                         else Flat(m, r, v')
  }

  /** Of the frames mapped, those nobody had now belong to their page. */
  ghost predicate MapUse(use: map<nat, Use>, use': map<nat, Use>, root: nat, v: nat, n: nat, f: nat) {
    && use'.Keys == use.Keys
    && forall g | g in use ::
         if use[g] == Held && f <= g < f + n then use'[g] == At(PageOf(root, v + (g - f)))
         else NewTable(use[g], use'[g], root)
  }

  lemma MapsNothing(m: Memory, m': Memory, root: nat, v: nat, f: nat, permissions: Permissions, user: bool)
    requires SameFlat(m, m') && TablesAdded(m.use, m'.use, root)
    ensures MapsRange(m, m', root, v, 0, f, permissions, user) && MapUse(m.use, m'.use, root, v, 0, f)
  {
    hide Flat;
  }

  lemma MapsMore(m: Memory, m1: Memory, m2: Memory, root: nat, v: nat, n: nat, k: nat, f: nat, permissions: Permissions, user: bool)
    requires MapsRange(m, m1, root, v, n, f, permissions, user) && MapsRange(m1, m2, root, v + n, k, f + n, permissions, user)
    ensures MapsRange(m, m2, root, v, n + k, f, permissions, user)
  {
    hide Flat;
  }

  lemma MapUseMore(use: map<nat, Use>, use1: map<nat, Use>, use2: map<nat, Use>, root: nat, v: nat, n: nat, k: nat, f: nat)
    requires MapUse(use, use1, root, v, n, f) && MapUse(use1, use2, root, v + n, k, f + n)
    ensures MapUse(use, use2, root, v, n + k, f)
  {
    hide Index;
    forall g | g in use
      ensures if use[g] == Held && f <= g < f + (n + k) then use2[g] == At(PageOf(root, v + (g - f)))
              else NewTable(use[g], use2[g], root)
    {
      assert g in use1;
    }
  }

  ghost predicate HeldOrShared(use: map<nat, Use>, f: nat) {
    IsHeld(use, f) || IsShared(use, f)
  }

  lemma MapOneSound(m: Memory, freelist: seq<nat>, pages: map<nat, Frame>, first: nat, stop: nat,
                    s: Spot, i: nat, e: Entry)
    requires Sound(m, {}, freelist, pages, first, stop) && Mappable(m, s, i, e)
    ensures Sound(WithLeaf(m, s, i, e), {}, freelist, pages, first, stop)
  {
    hide Linked, Sited;
    LeafLinked(m, s, i, e);
    LeafSited(m, s, i, e);
  }

  lemma MapOneUse(m: Memory, root: nat, v: nat, e: Entry)
    requires Mappable(m, BottomOf(root, v), Index(v, 0), e)
    ensures MapUse(m.use, WithLeaf(m, BottomOf(root, v), Index(v, 0), e).use, root, v, 1, e.frame)
  {
    hide Index;
  }

  lemma MapOne(m: Memory, freelist: seq<nat>, pages: map<nat, Frame>, first: nat, stop: nat,
               root: nat, v: nat, e: Entry)
    requires Sound(m, {}, freelist, pages, first, stop) && v < PAGES
    requires Mappable(m, BottomOf(root, v), Index(v, 0), e)
    ensures var m' := WithLeaf(m, BottomOf(root, v), Index(v, 0), e);
            && Sound(m', {}, freelist, pages, first, stop)
            && MapsRange(m, m', root, v, 1, e.frame, e.permissions, e.user)
            && MapUse(m.use, m'.use, root, v, 1, e.frame)
            && Flat(m, root, v) == None
  {
    hide Sound, Linked, Sited, Index, Flat, MapsRange, MapUse, WithLeaf;
    SoundLinked(m, {}, freelist, pages, first, stop);
    MapOneSound(m, freelist, pages, first, stop, BottomOf(root, v), Index(v, 0), e);
    MapOneUse(m, root, v, e);
    VacantFlat(m, root, v);
    MapOneFlat(m, root, v, e);
  }

  lemma VacantFlat(m: Memory, root: nat, v: nat)
    requires Vacant(m, BottomOf(root, v), Index(v, 0))
    ensures Flat(m, root, v) == None
  {
  }

  lemma MapOneFlat(m: Memory, root: nat, v: nat, e: Entry)
    requires Linked(m, {}) && Sited(m) && v < PAGES && Mappable(m, BottomOf(root, v), Index(v, 0), e)
    ensures MapsRange(m, WithLeaf(m, BottomOf(root, v), Index(v, 0), e), root, v, 1, e.frame, e.permissions, e.user)
  {
    hide Linked, Sited, Index, Flat, WithLeaf;
    var s, i := BottomOf(root, v), Index(v, 0);
    forall r: nat, v': nat | v' < PAGES
      ensures Flat(WithLeaf(m, s, i, e), r, v')
           == if r == root && v <= v' < v + 1 then Some(Leaf(e.frame + (v' - v), e.permissions, e.user))
              else Flat(m, r, v')
    {
      LeafFlat(m, s, i, e, r, v');
      if BottomOf(r, v') == s && Index(v', 0) == i {
        PagesDistinct(root, v, v');
      }
    }
  }

  /** A walk that creates tables maps nothing, and finds the entry the flat view has. */
  lemma WalkMapsNothing(h: Memory, m: Memory, freelist: seq<nat>, pages: map<nat, Frame>, first: nat, stop: nat,
                        root: nat, v: nat, f: nat, permissions: Permissions, user: bool)
    requires Sound(m, {}, freelist, pages, first, stop) && SameFlat(h, m) && TablesAdded(h.use, m.use, root)
    ensures MapsRange(h, m, root, v, 0, f, permissions, user) && MapUse(h.use, m.use, root, v, 0, f)
    ensures HeldOrShared(h.use, f) ==> HeldOrShared(m.use, f)
    ensures Flat(h, root, v) == Flat(m, root, v)
    ensures BottomOf(root, v) in m.at ==>
              && m.at[BottomOf(root, v)] in m.tables && |m.tables[m.at[BottomOf(root, v)]]| == ENTRIES
              && (Flat(m, root, v).Some? <==> m.tables[m.at[BottomOf(root, v)]][Index(v, 0)].valid)
  {
    hide Flat, Linked, Sited, Index;
    MapsNothing(h, m, root, v, f, permissions, user);
    if BottomOf(root, v) in m.at {
      Table(m, {}, BottomOf(root, v));
      FlatEntry(m, root, v);
    }
  }

  lemma FlatEntry(m: Memory, root: nat, v: nat)
    requires BottomOf(root, v) in m.at
    requires m.at[BottomOf(root, v)] in m.tables && |m.tables[m.at[BottomOf(root, v)]]| == ENTRIES
    ensures var e := m.tables[m.at[BottomOf(root, v)]][Index(v, 0)];
            Flat(m, root, v) == if e.valid then Some(Leaf(e.frame, e.permissions, e.user)) else None
  {
  }

  datatype MapResult = Mapping | ZeroSize | AlreadyMapped | NoMemory

  /** Pages that `size` bytes from `address` lie on. */
  function CoveringPages(address: nat, size: nat): nat
    requires size > 0
  {
    (address + (size - 1)) / PAGE - address / PAGE + 1
  }

  lemma NotMapped(h: Memory, m: Memory, root: nat, v: nat)
    requires SameFlat(h, m) && BottomOf(root, v) !in m.at
    ensures Flat(h, root, v) == None
  {
    assert Flat(m, root, v) == None;
  }

  lemma PageSteps(address: nat, i: nat)
    ensures (address + i * PAGE) / PAGE == address / PAGE + i
  {
  }

  lemma LastPage(address: nat, size: nat, i: nat)
    requires size > 0 && address + size <= MAX_ADDRESS && i < CoveringPages(address, size)
    ensures address + i * PAGE < MAX_ADDRESS
  {
    assert address / PAGE + i <= (address + (size - 1)) / PAGE;
  }

  lemma MapUseKeeps(use: map<nat, Use>, use': map<nat, Use>, root: nat, v: nat, n: nat, f: nat)
    requires MapUse(use, use', root, v, n, f)
    ensures NoneFreed(use, use') && use'.Keys == use.Keys
    ensures HeldOrShared(use, f + n) ==> HeldOrShared(use', f + n)
    ensures IsHeld(use, f + n) ==> IsHeld(use', f + n)
  {
    hide Index;
  }

  lemma MapsNone(m: Memory, m': Memory, root: nat, v: nat, n: nat, f: nat, permissions: Permissions, user: bool)
    requires MapsRange(m, m', root, v, n, f, permissions, user) && v + n < PAGES
    ensures Flat(m', root, v + n) == Flat(m, root, v + n)
  {
    hide Flat;
  }

  // ---------- unmapping a range ----------

  ghost predicate UnmapsRange(m: Memory, m': Memory, root: nat, v: nat, n: nat) {
    forall r: nat, v': nat | v' < PAGES ::
      Flat(m', r, v') == if r == root && v <= v' < v + n then None else Flat(m, r, v')
  }

  function PageNumber(s: Spot): nat
    requires s.Page?
  {
    s.a * 0x40000 + s.b * 0x200 + s.c
  }

  /** The frame is the own frame of one of `n` pages from `v` on. */
  predicate OwnPage(u: Use, root: nat, v: nat, n: nat) {
    u.At? && u.spot.Page? && u.spot.root == root && v <= PageNumber(u.spot) < v + n
  }

  /** The pages' own frames are now `u`; no other frame changed hands. */
  ghost predicate UnmapUse(use: map<nat, Use>, use': map<nat, Use>, root: nat, v: nat, n: nat, u: Use) {
    && use'.Keys == use.Keys
    && forall f | f in use :: use'[f] == if OwnPage(use[f], root, v, n) then u else use[f]
  }

  /** Frames that did not change hands have the contents they had. */
  ghost predicate PagesKeptBut(use: map<nat, Use>, use': map<nat, Use>, pages: map<nat, Frame>, pages': map<nat, Frame>) {
    forall f | f in use && use[f] != Free && f in use' && use'[f] == use[f] && f in pages ::
      f in pages' && pages'[f] == pages[f]
  }

  lemma UnmapsNothing(m: Memory, pages: map<nat, Frame>, root: nat, v: nat, u: Use)
    ensures UnmapsRange(m, m, root, v, 0) && UnmapUse(m.use, m.use, root, v, 0, u)
    ensures PagesKeptBut(m.use, m.use, pages, pages)
  {
    hide Flat;
  }

  lemma UnmapsMore(m: Memory, m1: Memory, m2: Memory, root: nat, v: nat, n: nat, k: nat)
    requires UnmapsRange(m, m1, root, v, n) && UnmapsRange(m1, m2, root, v + n, k)
    ensures UnmapsRange(m, m2, root, v, n + k)
  {
    hide Flat;
  }

  lemma UnmapUseMore(use: map<nat, Use>, use1: map<nat, Use>, use2: map<nat, Use>, root: nat, v: nat, n: nat, k: nat, u: Use)
    requires UnmapUse(use, use1, root, v, n, u) && UnmapUse(use1, use2, root, v + n, k, u) && u in {Free, Held}
    ensures UnmapUse(use, use2, root, v, n + k, u)
  {
    hide PageNumber;
  }

  lemma PagesKeptButTwice(use: map<nat, Use>, use1: map<nat, Use>, use2: map<nat, Use>, root: nat, v: nat, n: nat, k: nat, u: Use,
                          pages: map<nat, Frame>, pages1: map<nat, Frame>, pages2: map<nat, Frame>)
    requires UnmapUse(use, use1, root, v, n, u) && PagesKeptBut(use, use1, pages, pages1) && u in {Free, Held}
    requires PagesKeptBut(use1, use2, pages1, pages2)
    requires UnmapUse(use1, use2, root, v + n, k, u)
    ensures PagesKeptBut(use, use2, pages, pages2)
  {
    hide PageNumber;
  }

  lemma PageNumberOf(r: nat, v: nat)
    requires v < PAGES
    ensures PageNumber(PageOf(r, v)) == v
  {
    IndexParts(v);
  }

  lemma OnlyPage(s: Spot, v: nat)
    requires s.Page? && InTables(s) && PageNumber(s) == v && v < PAGES
    ensures s == PageOf(s.root, v)
  {
    IndexParts(v);
  }

  lemma UnmapOneFlat(m: Memory, root: nat, v: nat)
    requires Linked(m, {}) && Sited(m) && v < PAGES && Mapped(m, BottomOf(root, v), Index(v, 0))
    ensures UnmapsRange(m, WithoutLeaf(m, BottomOf(root, v), Index(v, 0)), root, v, 1)
  {
    hide Linked, Sited, Index, Flat, WithoutLeaf;
    var s, i := BottomOf(root, v), Index(v, 0);
    forall r: nat, v': nat | v' < PAGES
      ensures Flat(WithoutLeaf(m, s, i), r, v') == if r == root && v <= v' < v + 1 then None else Flat(m, r, v')
    {
      UnleafFlat(m, s, i, r, v');
      if BottomOf(r, v') == s && Index(v', 0) == i {
        PagesDistinct(root, v, v');
      }
    }
  }

  lemma UnmapOneUse(m: Memory, root: nat, v: nat)
    requires Linked(m, {}) && Sited(m) && v < PAGES && Mapped(m, BottomOf(root, v), Index(v, 0))
    ensures UnmapUse(m.use, WithoutLeaf(m, BottomOf(root, v), Index(v, 0)).use, root, v, 1, Held)
  {
    hide Index, Linked, PageNumber, Sited;
    PageNumberOf(root, v);
    var m' := WithoutLeaf(m, BottomOf(root, v), Index(v, 0));
    if PageOf(root, v) in m.at {
      Site(m, PageOf(root, v));
    }
    forall f | f in m.use
      ensures f in m'.use && m'.use[f] == if OwnPage(m.use[f], root, v, 1) then Held else m.use[f]
    {
      if m.use[f].At? && m.use[f].spot.Page? {
        SiteOf(m, f);
        ParentAbove(m, {}, m.use[f].spot);
        if OwnPage(m.use[f], root, v, 1) {
          OnlyPage(m.use[f].spot, v);
        }
      }
    }
  }

  lemma SiteOf(m: Memory, f: nat)
    requires Sited(m) && f in m.use && m.use[f].At?
    ensures m.use[f].spot in m.at && m.at[m.use[f].spot] == f
  {
  }

  lemma UnmapOneSound(m: Memory, freelist: seq<nat>, pages: map<nat, Frame>, first: nat, stop: nat, s: Spot, i: nat)
    requires Sound(m, {}, freelist, pages, first, stop) && Mapped(m, s, i)
    ensures Sound(WithoutLeaf(m, s, i), {}, freelist, pages, first, stop)
  {
    hide Linked, Sited;
    UnleafLinked(m, s, i);
    UnleafSited(m, s, i);
    if Child(s, i) in m.at {
      Site(m, Child(s, i));
    }
  }

  lemma MappedEntry(m: Memory, freelist: seq<nat>, pages: map<nat, Frame>, first: nat, stop: nat, root: nat, v: nat)
    requires Sound(m, {}, freelist, pages, first, stop) && Flat(m, root, v).Some?
    ensures Mapped(m, BottomOf(root, v), Index(v, 0))
    ensures var e := m.tables[m.at[BottomOf(root, v)]][Index(v, 0)];
            && !IsBranch(e)
            && (PageOf(root, v) in m.at ==>
                  m.at[PageOf(root, v)] == e.frame && e.frame in m.use && m.use[e.frame] == At(PageOf(root, v)))
  {
    hide Index, Linked, Sited;
    TableEntry(m, {}, BottomOf(root, v), Index(v, 0));
    if PageOf(root, v) in m.at {
      Site(m, PageOf(root, v));
    }
  }

  lemma UnmapOne(m: Memory, freelist: seq<nat>, pages: map<nat, Frame>, first: nat, stop: nat, root: nat, v: nat)
    requires Sound(m, {}, freelist, pages, first, stop) && v < PAGES && Mapped(m, BottomOf(root, v), Index(v, 0))
    ensures var m' := WithoutLeaf(m, BottomOf(root, v), Index(v, 0));
            && Sound(m', {}, freelist, pages, first, stop)
            && UnmapsRange(m, m', root, v, 1) && UnmapUse(m.use, m'.use, root, v, 1, Held)
            && PagesKeptBut(m.use, m'.use, pages, pages)
  {
    hide Sound, Linked, Sited, Index, Flat, UnmapsRange, UnmapUse, WithoutLeaf;
    SoundLinked(m, {}, freelist, pages, first, stop);
    UnmapOneSound(m, freelist, pages, first, stop, BottomOf(root, v), Index(v, 0));
    UnmapOneFlat(m, root, v);
    UnmapOneUse(m, root, v);
  }

  lemma OwnedIsPage(m: Memory, root: nat, v: nat, f: nat)
    requires Linked(m, {}) && Sited(m) && v < PAGES && f in m.use && OwnPage(m.use[f], root, v, 1)
    ensures m.use[f] == At(PageOf(root, v)) && PageOf(root, v) in m.at && m.at[PageOf(root, v)] == f
  {
    hide Linked, Sited, Index, PageNumber;
    SiteOf(m, f);
    ParentAbove(m, {}, m.use[f].spot);
    OnlyPage(m.use[f].spot, v);
  }

  /** The frame of an unmapped page can be freed, and is the only one to change hands. */
  lemma Unmapped(h: Memory, m: Memory, freelist: seq<nat>, pages: map<nat, Frame>, first: nat, stop: nat,
                 root: nat, v: nat, frame: nat)
    requires Sound(h, {}, freelist, pages, first, stop) && v < PAGES
    requires PageOf(root, v) in h.at && h.at[PageOf(root, v)] == frame
    requires UnmapUse(h.use, m.use, root, v, 1, Held)
    ensures first <= frame < stop && IsHeld(m.use, frame)
    ensures UnmapUse(h.use, m.use[frame := Free], root, v, 1, Free)
    ensures PagesKeptBut(h.use, m.use[frame := Free], pages, pages[frame := Filled(1)])
  {
    hide Linked, Sited, Index, PageNumber, Filled;
    SoundLinked(h, {}, freelist, pages, first, stop);
    Site(h, PageOf(root, v));
    PageNumberOf(root, v);
    forall f | f in h.use && OwnPage(h.use[f], root, v, 1) ensures f == frame {
      OwnedIsPage(h, root, v, f);
    }
  }

  lemma UnmapsThenSame(h: Memory, m: Memory, m': Memory, root: nat, v: nat)
    requires UnmapsRange(h, m, root, v, 1) && SameFlat(m, m')
    ensures UnmapsRange(h, m', root, v, 1)
  {
    hide Flat;
  }

  lemma WithoutLeafIs(m: Memory, s: Spot, i: nat)
    requires s in m.at && m.at[s] in m.tables && i < |m.tables[m.at[s]]|
    ensures WithoutLeaf(m, s, i).tables == m.tables[m.at[s] := m.tables[m.at[s]][i := NO_ENTRY]]
    ensures var c := Child(s, i);
            if c in m.at then
              WithoutLeaf(m, s, i).use == m.use[m.at[c] := Held] && WithoutLeaf(m, s, i).at == m.at - {c}
            else
              WithoutLeaf(m, s, i).use == m.use && WithoutLeaf(m, s, i).at == m.at
  {
  }

  lemma StillThere(h: Memory, m: Memory, root: nat, v: nat, n: nat, u: Use, p: nat)
    requires Sited(h) && Sited(m) && UnmapUse(h.use, m.use, root, v, n, u) && UnmapsRange(h, m, root, v, n)
    requires v + n <= p < PAGES
    ensures Flat(m, root, p) == Flat(h, root, p)
    ensures PageOf(root, p) in h.at ==> PageOf(root, p) in m.at
  {
    hide Flat, PageNumber, Index;
    PageNumberOf(root, p);
    if PageOf(root, p) in h.at {
      Site(h, PageOf(root, p));
    }
  }

  function PageRoundUp(x: nat): nat {
    if x % PAGE == 0 then x else (x + PAGE - 1) / PAGE * PAGE
  }

  // ---------- adding pages ----------

  /** What a new page is to hold and who may use it. */
  datatype Wanted = Wanted(contents: Frame, permissions: Permissions, user: bool)

  /** Page `p` was not mapped, and now has a frame of its own that was free. */
  ghost predicate NewPage(h: Memory, m: Memory, pages: map<nat, Frame>, root: nat, p: nat, w: Wanted) {
    && PageOf(root, p) in m.at
    && var f := m.at[PageOf(root, p)];
    && Flat(m, root, p) == Some(Leaf(f, w.permissions, w.user)) && Flat(h, root, p) == None
    && f in h.use && h.use[f] == Free && f in pages && pages[f] == w.contents
  }

  /** Only free frames changed hands: to tables of `root` and to its own pages. */
  ghost predicate GrownUse(use: map<nat, Use>, use': map<nat, Use>, root: nat, v: nat, n: nat) {
    && use'.Keys == use.Keys
    && forall f | f in use ::
         NewTable(use[f], use'[f], root) || (use[f] == Free && OwnPage(use'[f], root, v, n))
  }

  /** `n` new pages from page `v` on, and nothing else mapped differently. */
  ghost predicate Grown(h: Memory, m: Memory, pages: map<nat, Frame>, root: nat, v: nat, n: nat, want: nat -> Wanted) {
    && GrownUse(h.use, m.use, root, v, n)
    && (forall r: nat, p: nat | p < PAGES && !(r == root && v <= p < v + n) :: Flat(m, r, p) == Flat(h, r, p))
    && (forall p: nat | v <= p < v + n :: NewPage(h, m, pages, root, p, want(p)))
  }

  lemma GrownNothing(h: Memory, pages: map<nat, Frame>, root: nat, v: nat, want: nat -> Wanted)
    ensures Grown(h, h, pages, root, v, 0, want)
  {
    hide Flat;
  }

  /** A page more: `m1` has its frame in hand, `m2` has it mapped. */
  ghost predicate PageMapped(m: Memory, m1: Memory, m2: Memory, pages: map<nat, Frame>, pages1: map<nat, Frame>,
                             pages2: map<nat, Frame>, root: nat, p: nat, f: nat, w: Wanted) {
    && Sited(m) && Sited(m2) && p < PAGES
    && f in m.use && m.use[f] == Free && m1.use == m.use[f := Held] && SameFlat(m, m1)
    && pages1 == pages[f := w.contents]
    && MapsRange(m1, m2, root, p, 1, f, w.permissions, w.user) && MapUse(m1.use, m2.use, root, p, 1, f)
    && PagesKept(m1.use, pages1, pages2) && Flat(m1, root, p) == None
  }

  lemma GrownUseMore(h: Memory, m: Memory, m1: Memory, m2: Memory, root: nat, v: nat, n: nat, f: nat)
    requires GrownUse(h.use, m.use, root, v, n) && f in m.use && m.use[f] == Free && m1.use == m.use[f := Held]
    requires MapUse(m1.use, m2.use, root, v + n, 1, f) && v + n < PAGES
    ensures GrownUse(h.use, m2.use, root, v, n + 1)
  {
    hide PageNumber, Index;
    PageNumberOf(root, v + n);
  }

  lemma NewPageStays(h: Memory, m: Memory, m1: Memory, m2: Memory, pages: map<nat, Frame>, pages1: map<nat, Frame>,
                     pages2: map<nat, Frame>, root: nat, p: nat, f: nat, w: Wanted, p': nat, w': Wanted)
    requires PageMapped(m, m1, m2, pages, pages1, pages2, root, p, f, w)
    requires p' < PAGES && p' != p && NewPage(h, m, pages, root, p', w')
    ensures NewPage(h, m2, pages2, root, p', w')
  {
    hide Flat, Index;
    Site(m, PageOf(root, p'));
    var g := m.at[PageOf(root, p')];
    assert m2.use[g] == At(PageOf(root, p'));
  }

  lemma NewPageThere(h: Memory, m: Memory, m1: Memory, m2: Memory, pages: map<nat, Frame>, pages1: map<nat, Frame>,
                     pages2: map<nat, Frame>, root: nat, v: nat, n: nat, f: nat, w: Wanted)
    requires PageMapped(m, m1, m2, pages, pages1, pages2, root, v + n, f, w)
    requires GrownUse(h.use, m.use, root, v, n) && Flat(h, root, v + n) == Flat(m, root, v + n)
    ensures NewPage(h, m2, pages2, root, v + n, w)
  {
    hide Flat, Index, PageNumber;
    assert m2.use[f] == At(PageOf(root, v + n));
  }

  lemma GrownMore(h: Memory, m: Memory, m1: Memory, m2: Memory, pages: map<nat, Frame>, pages1: map<nat, Frame>,
                  pages2: map<nat, Frame>, root: nat, v: nat, n: nat, f: nat, want: nat -> Wanted)
    requires Grown(h, m, pages, root, v, n, want)
    requires PageMapped(m, m1, m2, pages, pages1, pages2, root, v + n, f, want(v + n))
    ensures Grown(h, m2, pages2, root, v, n + 1, want)
  {
    hide Flat, Index, PageNumber, NewPage, GrownUse, MapUse, PagesKept, Sited;
    GrownUseMore(h, m, m1, m2, root, v, n, f);
    NewPageThere(h, m, m1, m2, pages, pages1, pages2, root, v, n, f, want(v + n));
    forall p: nat | v <= p < v + (n + 1) ensures NewPage(h, m2, pages2, root, p, want(p)) {
      if p < v + n {
        NewPageStays(h, m, m1, m2, pages, pages1, pages2, root, v + n, f, want(v + n), p, want(p));
      }
    }
  }

  ghost predicate SamePages(m: Memory, m': Memory) {
    forall r: nat, p: nat | p < PAGES :: Flat(m', r, p) == Flat(m, r, p)
  }

  /** The frame `f` that was in hand is free again; otherwise tables may have been added. */
  ghost predicate GaveBack(use: map<nat, Use>, use': map<nat, Use>, pages: map<nat, Frame>, pages': map<nat, Frame>,
                           root: nat, f: nat) {
    && use'.Keys == use.Keys && f in use && use'[f] == Free
    && (forall g | g in use && g != f :: NewTable(use[g], use'[g], root))
    && (forall g | g in use && g != f && use[g] != Free && g in pages :: g in pages' && pages'[g] == pages[g])
  }

  lemma MapGaveBack(m: Memory, m1: Memory, m2: Memory, pages: map<nat, Frame>, pages1: map<nat, Frame>,
                    root: nat, p: nat, f: nat, permissions: Permissions, user: bool)
    requires IsHeld(m.use, f) && MapsRange(m, m1, root, p, 0, f, permissions, user)
    requires MapUse(m.use, m1.use, root, p, 0, f) && PagesKept(m.use, pages, pages1)
    requires SameFlat(m1, m2) && m2.use == m1.use[f := Free]
    ensures SamePages(m, m2) && GaveBack(m.use, m2.use, pages, pages1[f := Filled(1)], root, f)
  {
    hide Flat, Index, Filled;
  }

  lemma MapFailed(m: Memory, m1: Memory, m2: Memory, pages: map<nat, Frame>, pages1: map<nat, Frame>,
                  pages2: map<nat, Frame>, root: nat, f: nat, contents: Frame)
    requires f in m.use && m.use[f] == Free && m1.use == m.use[f := Held] && SameFlat(m, m1)
    requires pages1 == pages[f := contents]
    requires SamePages(m1, m2) && GaveBack(m1.use, m2.use, pages1, pages2, root, f)
    ensures SamePages(m, m2) && TablesAdded(m.use, m2.use, root) && PagesKept(m.use, pages, pages2)
  {
    hide Flat, Index;
  }

  lemma GrownStays(h: Memory, m: Memory, m': Memory, pages: map<nat, Frame>, pages': map<nat, Frame>,
                   root: nat, v: nat, n: nat, want: nat -> Wanted)
    requires Grown(h, m, pages, root, v, n, want) && Sited(m) && Sited(m') && v + n <= PAGES
    requires SamePages(m, m') && TablesAdded(m.use, m'.use, root) && PagesKept(m.use, pages, pages')
    ensures Grown(h, m', pages', root, v, n, want)
  {
    hide Flat, Index, PageNumber, Sited, NewPage, PageOf;
    forall p: nat | v <= p < v + n ensures NewPage(h, m', pages', root, p, want(p)) {
      NewPageKept(h, m, m', pages, pages', root, p, want(p));
    }
  }

  lemma NewPageKept(h: Memory, m: Memory, m': Memory, pages: map<nat, Frame>, pages': map<nat, Frame>,
                    root: nat, p: nat, w: Wanted)
    requires NewPage(h, m, pages, root, p, w) && Sited(m) && Sited(m') && p < PAGES
    requires SamePages(m, m') && TablesAdded(m.use, m'.use, root) && PagesKept(m.use, pages, pages')
    ensures NewPage(h, m', pages', root, p, w)
  {
    hide Flat, Index;
    Site(m, PageOf(root, p));
    assert m'.use[m.at[PageOf(root, p)]] == At(PageOf(root, p));
  }

  /** The user may no longer use page `v`, which is otherwise mapped as it was, and so is every other page. */
  ghost predicate Barred(m: Memory, m': Memory, root: nat, v: nat) {
    && (forall r: nat, p: nat | p < PAGES && !(r == root && p == v) :: Flat(m', r, p) == Flat(m, r, p))
    && Flat(m, root, v).Some? && Flat(m', root, v) == Some(Flat(m, root, v).value.(user := false))
  }

  lemma WithoutUserIs(m: Memory, s: Spot, i: nat)
    requires s in m.at && m.at[s] in m.tables && i < |m.tables[m.at[s]]|
    ensures var t, e := m.at[s], m.tables[m.at[s]][i];
            WithoutUser(m, s, i) == Memory(m.tables[t := m.tables[t][i := e.(user := false)]], m.use, m.at)
  {
  }

  lemma BarOne(m: Memory, freelist: seq<nat>, pages: map<nat, Frame>, first: nat, stop: nat, root: nat, v: nat)
    requires Sound(m, {}, freelist, pages, first, stop) && v < PAGES && Mapped(m, BottomOf(root, v), Index(v, 0))
    ensures var m' := WithoutUser(m, BottomOf(root, v), Index(v, 0));
            Sound(m', {}, freelist, pages, first, stop) && Barred(m, m', root, v)
  {
    hide Linked, Sited, Index, WithoutUser, Listed, Backed;
    var s, i := BottomOf(root, v), Index(v, 0);
    WithoutUserIs(m, s, i);
    UserlessLinked(m, s, i);
    forall r: nat, p: nat | p < PAGES && !(r == root && p == v)
      ensures Flat(WithoutUser(m, s, i), r, p) == Flat(m, r, p)
    {
      UserlessFlat(m, s, i, r, p);
      if BottomOf(r, p) == s && Index(p, 0) == i {
        PagesDistinct(root, p, v);
      }
    }
    UserlessFlat(m, s, i, root, v);
  }

  /** A page of its own is mapped. */
  lemma NoOwnPages(h: Memory, root: nat, v: nat, n: nat, f: nat)
    requires Linked(h, {}) && Sited(h) && v + n <= PAGES && f in h.use
    requires forall p: nat | v <= p < v + n :: Flat(h, root, p) == None
    ensures !OwnPage(h.use[f], root, v, n)
  {
    hide Linked, Sited, Index, PageNumber;
    if OwnPage(h.use[f], root, v, n) {
      var p := PageNumber(h.use[f].spot);
      assert OwnPage(h.use[f], root, p, 1);
      OwnedIsPage(h, root, p, f);
      ParentAbove(h, {}, PageOf(root, p));
      TableEntry(h, {}, BottomOf(root, p), Index(p, 0));
      FlatEntry(h, root, p);
    }
  }

  lemma NothingWasThere(h: Memory, m: Memory, pages: map<nat, Frame>, root: nat, v: nat, n: nat, want: nat -> Wanted)
    requires Grown(h, m, pages, root, v, n, want)
    ensures forall p: nat | v <= p < v + n :: Flat(h, root, p) == None
  {
    hide Flat, PageOf, GrownUse;
    forall p: nat | v <= p < v + n ensures Flat(h, root, p) == None {
      assert NewPage(h, m, pages, root, p, want(p));
    }
  }

  lemma GrownWhereNothingWas(h: Memory, m: Memory, pages: map<nat, Frame>, root: nat, v: nat, n: nat, want: nat -> Wanted)
    requires Grown(h, m, pages, root, v, n, want) && Linked(h, {}) && Sited(h) && v + n <= PAGES
    ensures forall p: nat | v <= p < v + n :: Flat(h, root, p) == None
    ensures forall f | f in h.use :: !OwnPage(h.use[f], root, v, n)
  {
    hide Flat, Index, PageOf, Linked, Sited, OwnPage, Grown;
    NothingWasThere(h, m, pages, root, v, n, want);
    forall f | f in h.use ensures !OwnPage(h.use[f], root, v, n) {
      NoOwnPages(h, root, v, n, f);
    }
  }

  /** Unmapping and freeing all that was added leaves nothing but tables behind. */
  lemma RolledBack(h: Memory, m: Memory, m': Memory, pages: map<nat, Frame>, root: nat, v: nat, n: nat, want: nat -> Wanted)
    requires Grown(h, m, pages, root, v, n, want) && v + n <= PAGES && Linked(h, {}) && Sited(h)
    requires UnmapsRange(m, m', root, v, n) && UnmapUse(m.use, m'.use, root, v, n, Free)
    ensures SamePages(h, m') && TablesAdded(h.use, m'.use, root)
  {
    hide Flat, Index, PageNumber, PageOf, Linked, Sited, NewPage;
    GrownWhereNothingWas(h, m, pages, root, v, n, want);
  }

  lemma RollbackKept(h: Memory, m: Memory, m': Memory, pages0: map<nat, Frame>, pages: map<nat, Frame>,
                     pages': map<nat, Frame>, root: nat, v: nat, n: nat)
    requires GrownUse(h.use, m.use, root, v, n) && PagesKept(h.use, pages0, pages)
    requires UnmapUse(m.use, m'.use, root, v, n, Free) && PagesKeptBut(m.use, m'.use, pages, pages')
    requires forall f | f in h.use && h.use[f] != Free :: !OwnPage(h.use[f], root, v, n)
    ensures PagesKept(h.use, pages0, pages')
  {
    hide PageNumber;
  }

  lemma GrownCanBeFreed(h: Memory, m: Memory, pages: map<nat, Frame>, root: nat, v: nat, n: nat, want: nat -> Wanted)
    requires Grown(h, m, pages, root, v, n, want)
    ensures forall p: nat | v <= p < v + n :: Flat(m, root, p).Some?
    ensures forall p: nat | v <= p < v + n :: PageOf(root, p) in m.at
  {
    hide Flat, Index, PageOf;
    forall p: nat | v <= p < v + n ensures Flat(m, root, p).Some? && PageOf(root, p) in m.at {
      assert NewPage(h, m, pages, root, p, want(p));
    }
  }

  lemma HeldInRange(m: Memory, torn: set<nat>, freelist: seq<nat>, pages: map<nat, Frame>, first: nat, stop: nat, f: nat)
    requires Sound(m, torn, freelist, pages, first, stop) && IsHeld(m.use, f)
    ensures first <= f < stop && f in pages && |pages[f]| == PAGE
  {
    hide Linked, Sited;
  }

  lemma OnePage(address: nat, f: nat)
    requires address % PAGE == 0
    ensures CoveringPages(address, PAGE) == 1 && f * PAGE / PAGE == f
  {
  }

  /** Pages of a size that need not be aligned. */
  function PagesFor(size: nat): nat {
    PageRoundUp(size) / PAGE
  }

  lemma RoundedUp(size: nat)
    ensures PageRoundUp(size) == PagesFor(size) * PAGE && size <= PageRoundUp(size) < size + PAGE
  {
  }

  lemma RoundedOrder(small: nat, large: nat)
    requires small <= large
    ensures PagesFor(small) <= PagesFor(large)
    ensures large <= MAX_ADDRESS ==> PagesFor(large) <= PAGES
  {
  }

  /** The loop over pages reaches a size after exactly its pages. */
  lemma PageBefore(n: nat, size: nat)
    ensures n * PAGE < size <==> n < PagesFor(size)
  {
  }

  /** What sbrk and exec ask for: pages of zeros the user may use. */
  function Zeroed(permissions: Permissions): nat -> Wanted {
    p => Wanted(Filled(0), permissions, true)
  }

  lemma ZeroedIs(permissions: Permissions, p: nat)
    ensures Zeroed(permissions)(p) == Wanted(Filled(0), permissions, true)
  {
  }

  /** Where the loop of alloc or copyPageTable stands after `n` pages. */
  ghost predicate Growing(h: Memory, m: Memory, pages0: map<nat, Frame>, pages: map<nat, Frame>,
                          root: nat, v: nat, n: nat, want: nat -> Wanted) {
    Grown(h, m, pages, root, v, n, want) && PagesKept(h.use, pages0, pages)
  }

  lemma GrowingStart(h: Memory, pages: map<nat, Frame>, root: nat, v: nat, want: nat -> Wanted)
    ensures Growing(h, h, pages, pages, root, v, 0, want)
  {
    hide Grown;
    GrownNothing(h, pages, root, v, want);
  }

  lemma GrownUseKept(h: Memory, m: Memory, m2: Memory, pages0: map<nat, Frame>, pages: map<nat, Frame>,
                     pages2: map<nat, Frame>, root: nat, v: nat, n: nat, f: nat, contents: Frame)
    requires GrownUse(h.use, m.use, root, v, n) && PagesKept(h.use, pages0, pages)
    requires f in m.use && m.use[f] == Free && PagesKept(m.use[f := Held], pages[f := contents], pages2)
    ensures PagesKept(h.use, pages0, pages2)
  {
    hide PageNumber;
  }

  lemma GrowingMore(h: Memory, m: Memory, m1: Memory, m2: Memory, pages0: map<nat, Frame>, pages: map<nat, Frame>,
                    pages1: map<nat, Frame>, pages2: map<nat, Frame>,
                    root: nat, v: nat, n: nat, f: nat, want: nat -> Wanted)
    requires Growing(h, m, pages0, pages, root, v, n, want)
    requires PageMapped(m, m1, m2, pages, pages1, pages2, root, v + n, f, want(v + n))
    ensures Growing(h, m2, pages0, pages2, root, v, n + 1, want)
  {
    hide Flat, Index, PageNumber, NewPage, GrownUse, MapUse, PagesKept, Sited, MapsRange, SameFlat;
    GrownMore(h, m, m1, m2, pages, pages1, pages2, root, v, n, f, want);
    assert GrownUse(h.use, m.use, root, v, n);
    GrownUseKept(h, m, m2, pages0, pages, pages2, root, v, n, f, want(v + n).contents);
  }

  lemma GrowingStays(h: Memory, m: Memory, m': Memory, pages0: map<nat, Frame>, pages: map<nat, Frame>, pages': map<nat, Frame>,
                     root: nat, v: nat, n: nat, want: nat -> Wanted)
    requires Growing(h, m, pages0, pages, root, v, n, want) && Sited(m) && Sited(m') && v + n <= PAGES
    requires SamePages(m, m') && TablesAdded(m.use, m'.use, root) && PagesKept(m.use, pages, pages')
    ensures Growing(h, m', pages0, pages', root, v, n, want)
  {
    hide Flat, Index, PageNumber, Sited, NewPage, PageOf, SamePages;
    GrownStays(h, m, m', pages, pages', root, v, n, want);
    GrowingKept(h, m, pages0, pages, pages', root, v, n);
  }

  lemma GrowingKept(h: Memory, m: Memory, pages0: map<nat, Frame>, pages: map<nat, Frame>, pages': map<nat, Frame>,
                    root: nat, v: nat, n: nat)
    requires GrownUse(h.use, m.use, root, v, n) && PagesKept(h.use, pages0, pages) && PagesKept(m.use, pages, pages')
    ensures PagesKept(h.use, pages0, pages')
  {
    hide PageNumber;
  }

  /** What is left after everything added was unmapped and freed. */
  lemma GrowingUndone(h: Memory, m: Memory, m': Memory, pages0: map<nat, Frame>, pages: map<nat, Frame>, pages': map<nat, Frame>,
                      root: nat, v: nat, n: nat, want: nat -> Wanted)
    requires Growing(h, m, pages0, pages, root, v, n, want) && v + n <= PAGES && Linked(h, {}) && Sited(h)
    requires UnmapsRange(m, m', root, v, n) && UnmapUse(m.use, m'.use, root, v, n, Free)
    requires PagesKeptBut(m.use, m'.use, pages, pages')
    ensures SamePages(h, m') && TablesAdded(h.use, m'.use, root) && PagesKept(h.use, pages0, pages')
  {
    hide Flat, Index, PageNumber, PageOf, Linked, Sited, NewPage, OwnPage, GrownUse, PagesKept, UnmapUse,
         UnmapsRange, PagesKeptBut, TablesAdded, SamePages;
    RolledBack(h, m, m', pages, root, v, n, want);
    GrownWhereNothingWas(h, m, pages, root, v, n, want);
    assert GrownUse(h.use, m.use, root, v, n);
    RollbackKept(h, m, m', pages0, pages, pages', root, v, n);
  }

  lemma GrowingIs(h: Memory, m: Memory, pages0: map<nat, Frame>, pages: map<nat, Frame>,
                  root: nat, v: nat, n: nat, want: nat -> Wanted)
    requires Growing(h, m, pages0, pages, root, v, n, want)
    ensures Grown(h, m, pages, root, v, n, want) && PagesKept(h.use, pages0, pages)
  {
  }

  lemma GrowingFlat(h: Memory, m: Memory, pages0: map<nat, Frame>, pages: map<nat, Frame>,
                    root: nat, v: nat, n: nat, want: nat -> Wanted)
    requires Growing(h, m, pages0, pages, root, v, n, want) && v + n < PAGES
    ensures Flat(m, root, v + n) == Flat(h, root, v + n)
  {
    hide Flat;
  }

  lemma CanBeUndone(h: Memory, m: Memory, pages0: map<nat, Frame>, pages: map<nat, Frame>,
                    root: nat, v: nat, n: nat, want: nat -> Wanted)
    requires Growing(h, m, pages0, pages, root, v, n, want)
    ensures forall p: nat | v <= p < v + n :: Flat(m, root, p).Some?
    ensures forall p: nat | v <= p < v + n :: PageOf(root, p) in m.at
  {
    hide Grown;
    GrownCanBeFreed(h, m, pages, root, v, n, want);
  }

  /** A page from `v` on is mapped, below the top of the address space. */
  ghost predicate MappedFrom(m: Memory, root: nat, v: nat) {
    exists p: nat :: v <= p < PAGES && Flat(m, root, p).Some?
  }

  lemma InTheTables(m: Memory, root: nat, oldSize: nat, newSize: nat)
    requires oldSize <= newSize && (newSize <= MAX_ADDRESS || MappedFrom(m, root, PagesFor(oldSize)))
    ensures PagesFor(oldSize) <= PAGES
  {
    hide Flat;
  }

  /** Growing stops at a page that is mapped, before it runs out of the tables. */
  lemma RoomLeft(h: Memory, m: Memory, pages0: map<nat, Frame>, pages: map<nat, Frame>,
                 root: nat, v: nat, n: nat, want: nat -> Wanted, newSize: nat)
    requires Growing(h, m, pages0, pages, root, v, n, want) && v + n <= PAGES && v + n < PagesFor(newSize)
    requires newSize <= MAX_ADDRESS || MappedFrom(h, root, v)
    ensures v + n < PAGES
  {
    hide Flat, PagesFor, Grown;
    NothingWasThere(h, m, pages, root, v, n, want);
    if newSize <= MAX_ADDRESS {
      RoundedOrder(newSize, newSize);
    }
  }

  lemma AlignedSize(n: nat)
    ensures PagesFor(n * PAGE) == n
  {
  }

  lemma SameFlatAt(m: Memory, m1: Memory, root: nat, p: nat)
    requires SameFlat(m, m1)
    ensures Flat(m1, root, p) == Flat(m, root, p)
  {
  }

  /** The two outcomes of one round: `m1` has the frame in hand, `m2` is after mapping it or not. */
  lemma Round(h: Memory, m: Memory, m1: Memory, m2: Memory, pages0: map<nat, Frame>, pages: map<nat, Frame>,
              pages1: map<nat, Frame>, pages2: map<nat, Frame>,
              root: nat, v: nat, n: nat, f: nat, want: nat -> Wanted, ok: bool)
    requires Growing(h, m, pages0, pages, root, v, n, want) && Sited(m) && Sited(m2) && v + n < PAGES
    requires f in m.use && m.use[f] == Free && m1.use == m.use[f := Held] && SameFlat(m, m1)
    requires pages1 == pages[f := want(v + n).contents]
    requires ok ==>
               && MapsRange(m1, m2, root, v + n, 1, f, want(v + n).permissions, want(v + n).user)
               && MapUse(m1.use, m2.use, root, v + n, 1, f)
               && PagesKept(m1.use, pages1, pages2) && Flat(m1, root, v + n) == None
    requires !ok ==> SamePages(m1, m2) && GaveBack(m1.use, m2.use, pages1, pages2, root, f)
    ensures Growing(h, m2, pages0, pages2, root, v, if ok then n + 1 else n, want)
  {
    hide Sited, Flat, Index, PageOf, Growing, MapsRange, MapUse, PagesKept, SameFlat, SamePages, GaveBack, TablesAdded;
    if ok {
      GrowingMore(h, m, m1, m2, pages0, pages, pages1, pages2, root, v, n, f, want);
    } else {
      MapFailed(m, m1, m2, pages, pages1, pages2, root, f, want(v + n).contents);
      GrowingStays(h, m, m2, pages0, pages, pages2, root, v, n, want);
    }
  }

  // ---------- copying an address space ----------

  /** What fork wants of page `p`: the bytes and rights the page has in the address space of `root`. */
  ghost function CopyOf(h: Memory, pages: map<nat, Frame>, root: nat, p: nat): Wanted {
    var leaf := Flat(h, root, p);
    if leaf.Some? && leaf.value.frame in pages then
      Wanted(pages[leaf.value.frame], leaf.value.permissions, leaf.value.user)
    else
      Wanted(Filled(0), NO_PERMISSIONS, false)
  }

  ghost function Copies(h: Memory, pages: map<nat, Frame>, root: nat): nat -> Wanted {
    (p: nat) => CopyOf(h, pages, root, p)
  }

  lemma CopiesIs(h: Memory, pages: map<nat, Frame>, root: nat, p: nat)
    ensures Copies(h, pages, root)(p) == CopyOf(h, pages, root, p)
  {
  }

  /** The parent's page is still where it was, with what it held. */
  lemma ParentsPage(h: Memory, m: Memory, freelist0: seq<nat>, freelist: seq<nat>, pages0: map<nat, Frame>, pages: map<nat, Frame>,
                    first: nat, stop: nat, root: nat, v: nat, n: nat, want: nat -> Wanted, parent: nat, p: nat)
    requires Sound(h, {}, freelist0, pages0, first, stop) && Growing(h, m, pages0, pages, root, v, n, want)
    requires Sound(m, {}, freelist, pages, first, stop)
    requires parent != root && p < PAGES && Flat(h, parent, p).Some?
    ensures var leaf := Flat(h, parent, p).value;
            && Flat(m, parent, p) == Some(leaf) && leaf.permissions != NO_PERMISSIONS
            && leaf.frame in pages0 && leaf.frame in pages && pages[leaf.frame] == pages0[leaf.frame]
            && |pages[leaf.frame]| == PAGE && leaf.frame in m.use && m.use[leaf.frame] != Free
            && CopyOf(h, pages0, parent, p) == Wanted(pages[leaf.frame], leaf.permissions, leaf.user)
  {
    hide Linked, Sited, Index, Listed, GrownUse, NewPage;
    FrameInUse(h, freelist0, pages0, first, stop, parent, p);
    FrameInUse(m, freelist, pages, first, stop, parent, p);
  }

  lemma FrameInUse(m: Memory, freelist: seq<nat>, pages: map<nat, Frame>, first: nat, stop: nat, root: nat, p: nat)
    requires Sound(m, {}, freelist, pages, first, stop) && p < PAGES && Flat(m, root, p).Some?
    ensures var leaf := Flat(m, root, p).value;
            && leaf.permissions != NO_PERMISSIONS && leaf.frame in m.use && m.use[leaf.frame] != Free
            && leaf.frame in pages && |pages[leaf.frame]| == PAGE
            && (PageOf(root, p) in m.at ==> m.at[PageOf(root, p)] == leaf.frame)
  {
    hide Linked, Sited, Index, Listed;
    MappedEntry(m, freelist, pages, first, stop, root, p);
    FlatEntry(m, root, p);
    SoundLinked(m, {}, freelist, pages, first, stop);
    TableEntry(m, {}, BottomOf(root, p), Index(p, 0));
  }

  lemma RootStays(h: Memory, m: Memory, pages0: map<nat, Frame>, pages: map<nat, Frame>,
                  root: nat, v: nat, n: nat, want: nat -> Wanted, r: nat)
    requires Growing(h, m, pages0, pages, root, v, n, want) && Sited(h) && Sited(m) && Top(r) in h.at
    ensures Top(r) in m.at
  {
    hide Flat, NewPage, PageNumber;
  }

  lemma RootLeft(h: Memory, m: Memory, root: nat, r: nat)
    requires TablesAdded(h.use, m.use, root) && Sited(h) && Sited(m) && Top(r) in h.at
    ensures Top(r) in m.at
  {
  }

  lemma Refilled(m: Memory, torn: set<nat>, freelist: seq<nat>, pages: map<nat, Frame>, first: nat, stop: nat, f: nat, contents: Frame)
    requires Sound(m, torn, freelist, pages, first, stop) && |contents| == PAGE
    ensures Sound(m, torn, freelist, pages[f := contents], first, stop)
  {
    hide Linked, Sited, Listed;
  }

  // ---------- giving tables back ----------

  lemma DetachSound(m: Memory, torn: set<nat>, freelist: seq<nat>, pages: map<nat, Frame>, first: nat, stop: nat, s: Spot)
    requires Sound(m, torn, freelist, pages, first, stop) && s in m.at && !s.Page? && (s.Top? || Parent(s) !in m.at)
    requires s.root in torn
    ensures Sound(Detached(m, s), torn, freelist, pages, first, stop) && PrunedTo(m, Detached(m, s), s, 0)
  {
    hide Linked, Sited, PrunedTo;
    Site(m, s);
    DetachLinked(m, torn, s);
    PruneStart(m, torn, s);
  }

  /** The entry of a child whose table is free is cleared. */
  lemma ClearedSound(m: Memory, torn: set<nat>, freelist: seq<nat>, pages: map<nat, Frame>, first: nat, stop: nat, t: nat, table: seq<Entry>)
    requires Sound(m, torn, freelist, pages, first, stop) && IsHeld(m.use, t)
    ensures Sound(m.(tables := m.tables[t := table]), torn, freelist, pages, first, stop)
    ensures Sound(m.(tables := m.tables - {t}), torn, freelist, pages, first, stop)
  {
    hide Linked, Listed, Backed, Sited;
    forall s | s in m.at ensures m.at[s] != t {
      SoundLinked(m, torn, freelist, pages, first, stop);
      Site(m, s);
    }
    HeldTable(m, torn, m.tables[t := table]);
    HeldTable(m, torn, m.tables - {t});
  }

  function Level(s: Spot): nat {
    if s.Top? then 2 else if s.Middle? then 1 else 0
  }

  lemma DetachKept(use: map<nat, Use>, use': map<nat, Use>, t: nat, pages: map<nat, Frame>)
    requires use' == use[t := Held]
    ensures PagesKeptBut(use, use', pages, pages)
  {
  }

  lemma NotBareBelow(m: Memory, s: Spot, i: nat)
    requires !Bare(m, Child(s, i)) && !s.Page?
    ensures !Bare(m, s)
  {
    hide Bare;
    if Bare(m, s) {
      BareBelow(m, s, i);
    }
  }

  lemma PrunedTable(m: Memory, m': Memory, s: Spot, i: nat)
    requires s in m.at && PrunedTo(m, m', s, i)
    ensures var t := m.at[s];
            && t in m.tables && t in m'.tables && |m'.tables[t]| == ENTRIES && |m.tables[t]| == ENTRIES && IsHeld(m'.use, t)
            && (i < ENTRIES ==> m'.tables[t][i] == m.tables[t][i])
  {
    hide Under, Step;
  }

  lemma PrunedKept(m: Memory, m1: Memory, m2: Memory, s: Spot, i: nat,
                   pages0: map<nat, Frame>, pages1: map<nat, Frame>, pages2: map<nat, Frame>)
    requires s in m.at && PrunedTo(m, m1, s, i) && Pruned(m1, m2, Child(s, i))
    requires PagesKeptBut(m.use, m1.use, pages0, pages1) && PagesKeptBut(m1.use, m2.use, pages1, pages2)
    ensures PagesKeptBut(m.use, m2.use, pages0, pages2)
  {
    hide Under, Step;
  }

  lemma FreedKept(m: Memory, use1: map<nat, Use>, s: Spot, t: nat, pages0: map<nat, Frame>, pages1: map<nat, Frame>)
    requires Sited(m) && s in m.at && m.at[s] == t
    requires PagesKeptBut(m.use, use1, pages0, pages1)
    ensures PagesKeptBut(m.use, use1[t := Free], pages0, pages1[t := Filled(1)])
  {
    hide Sited, Filled;
    Site(m, s);
  }

  /** The address space of `root` is gone and every frame it had is free; all else is as it was. */
  ghost predicate Dropped(m: Memory, m': Memory, root: nat) {
    && m'.use.Keys == m.use.Keys
    && (forall f | f in m.use :: m'.use[f] == if m.use[f].At? && m.use[f].spot.root == root then Free else m.use[f])
    && (forall r: nat, p: nat | p < PAGES :: Flat(m', r, p) == if r == root then None else Flat(m, r, p))
    && Top(root) !in m'.at
  }

  lemma PrunedDropped(m: Memory, m': Memory, root: nat)
    requires Linked(m, {}) && Sited(m) && Pruned(m, m', Top(root))
    ensures Dropped(m, m', root)
  {
    hide Linked, Sited, Flat;
    assert forall x :: Under(x, Top(root)) <==> x.root == root;
    forall r: nat, p: nat | p < PAGES ensures Flat(m', r, p) == if r == root then None else Flat(m, r, p) {
      if r == root {
        PrunedNone(m, m', root, p);
      } else {
        PrunedFlat(m, m', root, r, p);
      }
    }
  }

  lemma UnmappedDropped(m: Memory, m1: Memory, m2: Memory, root: nat, v: nat, n: nat)
    requires UnmapsRange(m, m1, root, v, n) && UnmapUse(m.use, m1.use, root, v, n, Free) && Dropped(m1, m2, root)
    ensures Dropped(m, m2, root)
  {
    hide Flat, PageNumber;
  }

  /** Before the tables of an address space are freed: there is no leaf just when nothing is mapped. */
  lemma TearDown(m: Memory, freelist: seq<nat>, pages: map<nat, Frame>, first: nat, stop: nat, root: nat)
    requires Sound(m, {}, freelist, pages, first, stop) && Top(root) in m.at
    ensures Sound(m, {root}, freelist, pages, first, stop) && m.at[Top(root)] == root
    ensures Whole(m, Top(root)) && (Bare(m, Top(root)) <==> UnmappedFrom(m, root, 0))
  {
    hide Linked, Sited, Listed, Backed, Flat, Whole, Bare;
    RootAt(m, root);
    RootWhole(m, root);
    BareWhenUnmapped(m, root);
  }

  lemma TornDown(h: Memory, m: Memory, freelist: seq<nat>, pages: map<nat, Frame>, first: nat, stop: nat, root: nat)
    requires Sound(m, {root}, freelist, pages, first, stop) && Linked(h, {}) && Sited(h) && Pruned(h, m, Top(root))
    ensures Sound(m, {}, freelist, pages, first, stop) && Dropped(h, m, root)
  {
    hide Linked, Sited, Listed, Backed, Flat;
    PrunedDropped(h, m, root);
    PrunedNone(h, m, root, 0);
    NothingTorn(m, root);
  }

  /** Nothing is mapped from page `n` on. */
  ghost predicate UnmappedFrom(m: Memory, root: nat, n: nat) {
    forall p: nat | n <= p < PAGES :: Flat(m, root, p) == None
  }

  /** Every page from 0 to the process size is mapped, to a frame of its own. */
  ghost predicate OwnPages(m: Memory, root: nat, n: nat) {
    && (forall p: nat | p < n :: Flat(m, root, p).Some?)
    && (forall p: nat | p < n :: PageOf(root, p) in m.at)
  }

  const TRAMPOLINE := MAX_ADDRESS - PAGE
  const TRAPFRAME := TRAMPOLINE - PAGE

  /** A process's address space: its own pages are those below its size, and the trampoline and the trap
      frame are mapped. Between the two there may be pages of the kernel's, such as a ring's. */
  ghost predicate ProcessSpace(m: Memory, root: nat, n: nat) {
    && n <= PAGES - 2 && OwnPages(m, root, n)
    && (forall p: nat | n <= p < PAGES :: PageOf(root, p) !in m.at)
    && (forall p: nat | PAGES - 2 <= p < PAGES :: Flat(m, root, p).Some?)
  }

  /** Nothing is mapped between the process's own pages and the kernel's two. */
  ghost predicate Alone(m: Memory, root: nat, n: nat) {
    forall p: nat | n <= p < PAGES - 2 :: Flat(m, root, p) == None
  }

  /** The kernel's two pages are unmapped, and no frame changed hands over it. */
  lemma KernelPagesGone(h: Memory, m1: Memory, m2: Memory, freelist: seq<nat>, pages: map<nat, Frame>, first: nat, stop: nat,
                        root: nat, n: nat)
    requires Sound(h, {}, freelist, pages, first, stop) && Sited(m2) && ProcessSpace(h, root, n)
    requires UnmapsRange(h, m1, root, PAGES - 1, 1) && UnmapUse(h.use, m1.use, root, PAGES - 1, 1, Held)
    requires UnmapsRange(m1, m2, root, PAGES - 2, 1) && UnmapUse(m1.use, m2.use, root, PAGES - 2, 1, Held)
    ensures m1.use == h.use && m2.use == h.use && OwnPages(m2, root, n)
    ensures UnmappedFrom(m2, root, n) <==> Alone(h, root, n)
    ensures forall r: nat, p: nat | p < PAGES && r != root :: Flat(m2, r, p) == Flat(h, r, p)
  {
    hide Flat, Linked, Sited, PageNumber, Index, OwnPage, PageOf;
    SoundLinked(h, {}, freelist, pages, first, stop);
    forall f | f in h.use ensures !OwnPage(h.use[f], root, PAGES - 1, 1) && !OwnPage(h.use[f], root, PAGES - 2, 1) {
      if OwnPage(h.use[f], root, PAGES - 1, 1) {
        OwnedIsPage(h, root, PAGES - 1, f);
      }
      if OwnPage(h.use[f], root, PAGES - 2, 1) {
        OwnedIsPage(h, root, PAGES - 2, f);
      }
    }
    assert m1.use == h.use && m2.use == h.use;
    forall p: nat | p < n ensures PageOf(root, p) in m2.at {
      Site(h, PageOf(root, p));
      SiteThere(m2, h.at[PageOf(root, p)]);
    }
  }

  lemma KernelThenDropped(h: Memory, m: Memory, m': Memory, root: nat)
    requires m.use == h.use && Dropped(m, m', root)
    requires forall r: nat, p: nat | p < PAGES && r != root :: Flat(m, r, p) == Flat(h, r, p)
    ensures Dropped(h, m', root)
  {
    hide Flat;
  }

  lemma NothingLeft(h: Memory, m: Memory, root: nat, n: nat)
    requires UnmapsRange(h, m, root, 0, n)
    ensures UnmappedFrom(m, root, 0) <==> UnmappedFrom(h, root, n)
  {
    hide Flat;
    if UnmappedFrom(m, root, 0) {
      forall p: nat | n <= p < PAGES ensures Flat(h, root, p) == None {
        assert Flat(m, root, p) == None;
      }
    }
  }

  lemma UnmapsAt(h: Memory, m: Memory, root: nat, v: nat, p: nat)
    requires UnmapsRange(h, m, root, v, 1) && p < PAGES && p != v
    ensures Flat(m, root, p) == Flat(h, root, p)
  {
    hide Flat;
  }

  lemma KeptThrough(use: map<nat, Use>, use': map<nat, Use>, pages0: map<nat, Frame>, pages1: map<nat, Frame>,
                    pages2: map<nat, Frame>, pages3: map<nat, Frame>)
    requires PagesKeptBut(use, use, pages0, pages1) && PagesKeptBut(use, use, pages1, pages2)
    requires PagesKeptBut(use, use', pages2, pages3)
    ensures PagesKeptBut(use, use', pages0, pages3)
  {
  }

  lemma DroppedKept(h: Memory, m1: Memory, m2: Memory, root: nat, n: nat,
                    pages0: map<nat, Frame>, pages1: map<nat, Frame>, pages2: map<nat, Frame>)
    requires UnmapUse(h.use, m1.use, root, 0, n, Free) && Dropped(m1, m2, root)
    requires PagesKeptBut(h.use, m1.use, pages0, pages1) && PagesKeptBut(m1.use, m2.use, pages1, pages2)
    ensures PagesKeptBut(h.use, m2.use, pages0, pages2)
  {
    hide Flat, PageNumber;
  }

  // ---------- a process's first two mappings ----------

  const CODE := Permissions(true, false, true)
  const DATA := Permissions(true, true, false)

  lemma NewRoot(m: Memory, freelist: seq<nat>, pages: map<nat, Frame>, first: nat, stop: nat, f: nat)
    requires Sound(m, {}, freelist, pages, first, stop) && IsHeld(m.use, f)
    ensures Sound(WithRoot(m, f), {}, freelist, pages, first, stop) && SameFlat(m, WithRoot(m, f))
    ensures forall p: nat :: Flat(m, f, p) == None
    ensures forall g | g in m.use && m.use[g].At? :: m.use[g].spot.root != f
  {
    hide Linked, Sited, Flat;
    RootLinked(m, f);
    RootSited(m, f);
    forall r: nat, p: nat ensures Flat(WithRoot(m, f), r, p) == Flat(m, r, p) && Flat(m, f, p) == None {
      RootFlat(m, f, r, p);
    }
    forall g | g in m.use && m.use[g].At? ensures m.use[g].spot.root != f {
      SiteThere(m, g);
      NoSpots(m, f, m.use[g].spot);
    }
  }

  /** Exactly the trampoline and the trap frame are mapped, neither for the user. */
  ghost predicate Bootable(m: Memory, root: nat, trampoline: nat, trapframe: nat) {
    forall p: nat | p < PAGES ::
      Flat(m, root, p) == if p == PAGES - 1 then Some(Leaf(trampoline, Permissions(true, false, true), false))
                          else if p == PAGES - 2 then Some(Leaf(trapframe, Permissions(true, true, false), false))
                          else None
  }

  lemma SharedStays(use: map<nat, Use>, use': map<nat, Use>, root: nat, v: nat, n: nat, f: nat, g: nat)
    requires MapUse(use, use', root, v, n, f) && IsShared(use, g)
    ensures IsShared(use', g)
  {
    hide Index;
  }

  /** `root` was made from free frames alone: the rest is as it was. */
  ghost predicate MadeFrom(use: map<nat, Use>, use': map<nat, Use>, root: nat) {
    && use'.Keys == use.Keys && root in use && use[root] == Free
    && forall f | f in use :: if f == root then use'[f] == At(Top(root)) else NewTable(use[f], use'[f], root)
  }

  ghost predicate OthersSame(h: Memory, m: Memory, root: Option<nat>) {
    forall r: nat, p: nat | p < PAGES && root != Some(r) :: Flat(m, r, p) == Flat(h, r, p)
  }

  lemma NothingDone(h: Memory)
    ensures OthersSame(h, h, None)
  {
    hide Flat;
  }

  /** The frame `root` was free and now is an empty root table. */
  ghost predicate NewSpace(h: Memory, m: Memory, root: nat) {
    && Top(root) in m.at && SameFlat(h, m) && MadeFrom(h.use, m.use, root)
    && (forall p: nat :: Flat(h, root, p) == None)
    && (forall g | g in h.use && h.use[g].At? :: h.use[g].spot.root != root)
  }

  lemma IsNewSpace(h: Memory, m: Memory, root: nat)
    requires root in h.use && h.use[root] == Free && m.use == h.use[root := Held] && SameFlat(h, m)
    requires SameFlat(m, WithRoot(m, root)) && forall p: nat :: Flat(m, root, p) == None
    requires forall g | g in m.use && m.use[g].At? :: m.use[g].spot.root != root
    ensures NewSpace(h, WithRoot(m, root), root)
  {
    hide Flat, SameFlat;
    SameFlatTwice(h, m, WithRoot(m, root));
    forall p: nat ensures Flat(h, root, p) == None {
      SameFlatAt(h, m, root, p);
    }
    forall g | g in h.use && h.use[g].At? ensures h.use[g].spot.root != root {
      assert m.use[g] == h.use[g];
    }
  }

  lemma NewSpaceShares(h: Memory, m: Memory, root: nat, f: nat)
    requires NewSpace(h, m, root) && IsShared(h.use, f)
    ensures IsShared(m.use, f)
  {
    hide Flat;
  }

  lemma MadeMore(use: map<nat, Use>, use1: map<nat, Use>, use2: map<nat, Use>, root: nat, v: nat, n: nat, f: nat)
    requires MadeFrom(use, use1, root) && MapUse(use1, use2, root, v, n, f) && IsShared(use1, f) && n <= 1
    ensures MadeFrom(use, use2, root)
  {
    hide Index;
  }

  lemma NewSpaceFailed(h: Memory, m0: Memory, m1: Memory, root: nat, f: nat, permissions: Permissions)
    requires NewSpace(h, m0, root) && IsShared(m0.use, f)
    requires MapsRange(m0, m1, root, PAGES - 1, 0, f, permissions, false) && MapUse(m0.use, m1.use, root, PAGES - 1, 0, f)
    ensures MadeFrom(h.use, m1.use, root) && OwnPages(m1, root, 0) && UnmappedFrom(m1, root, 0) && OthersSame(h, m1, None)
  {
    hide Flat, MapUse;
    MadeMore(h.use, m0.use, m1.use, root, PAGES - 1, 0, f);
  }

  /** After the trampoline was mapped, and the trap frame too unless `n` is 0. */
  lemma NewSpaceMapped(h: Memory, m0: Memory, m1: Memory, m2: Memory, root: nat, trampoline: nat, trapframe: nat, n: nat)
    requires NewSpace(h, m0, root) && IsShared(m0.use, trampoline) && IsShared(m0.use, trapframe) && n <= 1
    requires MapsRange(m0, m1, root, PAGES - 1, 1, trampoline, CODE, false)
    requires MapUse(m0.use, m1.use, root, PAGES - 1, 1, trampoline)
    requires MapsRange(m1, m2, root, PAGES - 2, n, trapframe, DATA, false)
    requires MapUse(m1.use, m2.use, root, PAGES - 2, n, trapframe)
    ensures MadeFrom(h.use, m1.use, root) && MadeFrom(h.use, m2.use, root) && Flat(m2, root, PAGES - 1).Some?
    ensures Flat(m1, root, PAGES - 2) == None
  {
    hide Flat, MapUse;
    MadeMore(h.use, m0.use, m1.use, root, PAGES - 1, 1, trampoline);
    SharedStays(m0.use, m1.use, root, PAGES - 1, 1, trampoline, trapframe);
    MadeMore(h.use, m1.use, m2.use, root, PAGES - 2, n, trapframe);
  }

  lemma NewSpaceUnmapped(h: Memory, m0: Memory, m1: Memory, m2: Memory, m3: Memory, root: nat, trampoline: nat, trapframe: nat)
    requires NewSpace(h, m0, root) && MadeFrom(h.use, m2.use, root)
    requires MapsRange(m0, m1, root, PAGES - 1, 1, trampoline, CODE, false)
    requires MapsRange(m1, m2, root, PAGES - 2, 0, trapframe, DATA, false)
    requires UnmapsRange(m2, m3, root, PAGES - 1, 1) && UnmapUse(m2.use, m3.use, root, PAGES - 1, 1, Held)
    ensures MadeFrom(h.use, m3.use, root) && OwnPages(m3, root, 0) && UnmappedFrom(m3, root, 0) && OthersSame(h, m3, None)
  {
    hide Flat, PageNumber;
    forall f | f in h.use ensures m3.use[f] == m2.use[f] {
    }
  }

  lemma NewSpaceDropped(h: Memory, m0: Memory, m: Memory, m': Memory, root: nat)
    requires NewSpace(h, m0, root) && MadeFrom(h.use, m.use, root) && Dropped(m, m', root) && OthersSame(h, m, None)
    ensures m'.use == h.use && OthersSame(h, m', None)
  {
    hide Flat;
    forall r: nat, p: nat | p < PAGES ensures Flat(m', r, p) == Flat(h, r, p) {
      assert Flat(m, r, p) == Flat(h, r, p);
    }
  }

  lemma NewSpaceKept(h: Memory, m0: Memory, m1: Memory, root: nat, pages0: map<nat, Frame>, pages1: map<nat, Frame>, pages2: map<nat, Frame>)
    requires NewSpace(h, m0, root) && MadeFrom(h.use, m1.use, root)
    requires PagesKept(h.use, pages0, pages1) && PagesKept(m0.use, pages1, pages2)
    ensures PagesKept(h.use, pages0, pages2) && NoneFreed(h.use, m1.use)
  {
    hide Flat;
  }

  lemma KeptStill(use: map<nat, Use>, use2: map<nat, Use>, use3: map<nat, Use>, root: nat,
                  pages0: map<nat, Frame>, pages2: map<nat, Frame>, pages3: map<nat, Frame>)
    requires MadeFrom(use, use2, root) && MadeFrom(use, use3, root)
    requires PagesKept(use, pages0, pages2) && PagesKeptBut(use2, use3, pages2, pages3)
    ensures PagesKept(use, pages0, pages3)
  {
  }

  /** What was in use before the new address space was made is untouched by giving it up. */
  lemma KeptAgain(use: map<nat, Use>, use1: map<nat, Use>, root: nat, pages0: map<nat, Frame>, pages1: map<nat, Frame>, pages2: map<nat, Frame>)
    requires MadeFrom(use, use1, root) && PagesKept(use, pages0, pages1) && PagesKeptBut(use1, use, pages1, pages2)
    ensures PagesKept(use, pages0, pages2)
  {
  }

  lemma NewSpaceReady(h: Memory, m0: Memory, m1: Memory, m2: Memory, root: nat, trampoline: nat, trapframe: nat)
    requires NewSpace(h, m0, root) && MadeFrom(h.use, m2.use, root) && Sited(m2)
    requires MapsRange(m0, m1, root, PAGES - 1, 1, trampoline, CODE, false)
    requires MapsRange(m1, m2, root, PAGES - 2, 1, trapframe, DATA, false)
    ensures Bootable(m2, root, trampoline, trapframe) && ProcessSpace(m2, root, 0)
    ensures OthersSame(h, m2, Some(root))
  {
    hide Flat, Sited, Index;
    forall s | s in m2.at ensures !(s.Page? && s.root == root) {
      NoOwnPageMade(h, m2, root, s);
    }
  }

  lemma NoOwnPageMade(h: Memory, m: Memory, root: nat, s: Spot)
    requires MadeFrom(h.use, m.use, root) && Sited(m) && s in m.at
    requires forall g | g in h.use && h.use[g].At? :: h.use[g].spot.root != root
    ensures !(s.Page? && s.root == root)
  {
    hide Sited;
    Site(m, s);
  }

  lemma NewSpaceThere(h: Memory, m: Memory, root: nat)
    requires NewSpace(h, m, root)
    ensures Top(root) in m.at && Flat(m, root, PAGES - 1) == None
  {
    hide Flat;
  }

  // ---------- copying between kernel and user ----------

  datatype Translation = Physical(frame: nat) | OutOfRange | NoTable | NotValidPage | NotUserPage

  /** The user may use the page of `address`. */
  ghost predicate Accessible(m: Memory, root: nat, address: nat) {
    && address < MAX_ADDRESS && Flat(m, root, address / PAGE).Some?
    && Flat(m, root, address / PAGE).value.user
  }

  ghost function FrameAt(m: Memory, root: nat, address: nat): nat
    requires Accessible(m, root, address)
  {
    Flat(m, root, address / PAGE).value.frame
  }

  /** The byte the user sees at `address`. */
  ghost function ByteAt(m: Memory, pages: map<nat, Frame>, root: nat, address: nat): Option<Byte> {
    if Accessible(m, root, address) && FrameAt(m, root, address) in pages
       && |pages[FrameAt(m, root, address)]| == PAGE
    then Some(pages[FrameAt(m, root, address)][address % PAGE])
    else None
  }

  /** No two of the pages that `n` bytes from `start` lie on are mapped to the same frame. */
  ghost predicate DistinctFrames(m: Memory, root: nat, start: nat, n: nat) {
    forall i: nat, j: nat | start / PAGE <= i < j && j * PAGE < start + n
                            && Flat(m, root, i).Some? && Flat(m, root, j).Some? ::
      Flat(m, root, i).value.frame != Flat(m, root, j).value.frame
  }

  function Overwritten(page: Frame, offset: nat, bytes: seq<Byte>): (r: Frame)
    requires offset + |bytes| <= |page|
    ensures |r| == |page|
    ensures forall i | 0 <= i < |page| :: r[i] == if offset <= i < offset + |bytes| then bytes[i - offset] else page[i]
  {
    page[..offset] + bytes + page[offset + |bytes|..]
  }

  /** Byte `o` of frame `f` is the place of one of the `n` addresses from `start` on. */
  ghost predicate Touched(m: Memory, root: nat, start: nat, n: nat, f: nat, o: nat) {
    exists a: nat :: start <= a < start + n && Accessible(m, root, a) && FrameAt(m, root, a) == f && a % PAGE == o
  }

  /** Memory after the byte at user address `a` was set. */
  ghost function Poked(m: Memory, pages: map<nat, Frame>, root: nat, a: nat, b: Byte): map<nat, Frame> {
    if Accessible(m, root, a) && FrameAt(m, root, a) in pages && |pages[FrameAt(m, root, a)]| == PAGE then
      var f := FrameAt(m, root, a);
      var page: Frame := pages[f][a % PAGE := b];
      pages[f := page]
    else
      pages
  }

  /** Memory after the bytes of `src` were set in turn from user address `start` on. */
  ghost function Written(m: Memory, pages: map<nat, Frame>, root: nat, start: nat, src: seq<Byte>): (r: map<nat, Frame>)
    ensures r.Keys == pages.Keys && forall f | f in r :: |r[f]| == |pages[f]|
    decreases |src|
  {
    if src == [] then pages
    else
      var n := |src| - 1;
      Poked(m, Written(m, pages, root, start, src[..n]), root, start + n, src[n])
  }

  /** The addresses of one round lie on one page. */
  lemma SamePage(address: nat, k: nat)
    requires address % PAGE + k < PAGE
    ensures (address + k) / PAGE == address / PAGE && (address + k) % PAGE == address % PAGE + k
  {
  }

  lemma OneMore(page: Frame, offset: nat, src: seq<Byte>, n: nat, k: nat)
    requires n + k < |src| && offset + k < |page|
    ensures Overwritten(page, offset, src[n..n + k])[offset + k := src[n + k]]
         == Overwritten(page, offset, src[n..n + (k + 1)])
  {
  }

  lemma WrittenStep(m: Memory, pages: map<nat, Frame>, root: nat, start: nat, src: seq<Byte>, n: nat)
    requires n < |src|
    ensures Written(m, pages, root, start, src[..n + 1])
         == Poked(m, Written(m, pages, root, start, src[..n]), root, start + n, src[n])
  {
    hide Poked;
    assert src[..n + 1][..n] == src[..n];
  }

  /** A byte more in a page that is being overwritten. */
  lemma PokedChunk(m: Memory, w: map<nat, Frame>, root: nat, address: nat, src: seq<Byte>, n: nat, k: nat)
    requires Accessible(m, root, address) && address % PAGE + k < PAGE && n + k < |src|
    requires FrameAt(m, root, address) in w && |w[FrameAt(m, root, address)]| == PAGE
    ensures var f := FrameAt(m, root, address);
            w[f := Overwritten(w[f], address % PAGE, src[n..n + (k + 1)])]
            == Poked(m, w[f := Overwritten(w[f], address % PAGE, src[n..n + k])], root, address + k, src[n + k])
  {
    hide Flat, Overwritten;
    SamePage(address, k);
    OneMore(w[FrameAt(m, root, address)], address % PAGE, src, n, k);
  }

  lemma NothingOverwritten(w: map<nat, Frame>, f: nat, offset: nat, bytes: seq<Byte>)
    requires f in w && offset <= |w[f]| && bytes == []
    ensures w[f := Overwritten(w[f], offset, bytes)] == w
  {
    assert Overwritten(w[f], offset, bytes) == w[f];
  }

  /** Copying `k` bytes into one page at once sets them in turn. */
  lemma {:induction false} WrittenChunk(m: Memory, pages: map<nat, Frame>, root: nat, start: nat, src: seq<Byte>, n: nat, k: nat)
    requires n + k <= |src| && Accessible(m, root, start + n) && (start + n) % PAGE + k <= PAGE
    requires FrameAt(m, root, start + n) in pages && |pages[FrameAt(m, root, start + n)]| == PAGE
    ensures var w, f := Written(m, pages, root, start, src[..n]), FrameAt(m, root, start + n);
            w[f := Overwritten(w[f], (start + n) % PAGE, src[n..n + k])] == Written(m, pages, root, start, src[..n + k])
    decreases k
  {
    hide Flat, Accessible, Overwritten, Written, Poked;
    var w := Written(m, pages, root, start, src[..n]);
    if k == 0 {
      NothingOverwritten(w, FrameAt(m, root, start + n), (start + n) % PAGE, src[n..n]);
    } else {
      WrittenChunk(m, pages, root, start, src, n, k - 1);
      WrittenStep(m, pages, root, start, src, n + (k - 1));
      PokedChunk(m, w, root, start + n, src, n, k - 1);
    }
  }

  /** Only the places of the addresses written change. */
  lemma {:induction false} WrittenElsewhere(m: Memory, pages: map<nat, Frame>, root: nat, start: nat, src: seq<Byte>, f: nat, o: nat)
    requires f in pages && o < |pages[f]| && !Touched(m, root, start, |src|, f, o)
    ensures Written(m, pages, root, start, src)[f][o] == pages[f][o]
    decreases |src|
  {
    hide Flat, FrameAt, Accessible;
    if src != [] {
      WrittenElsewhere(m, pages, root, start, src[..|src| - 1], f, o);
    }
  }

  /** Both addresses are the same byte of the same frame. */
  ghost predicate SamePlace(m: Memory, root: nat, a: nat, a': nat)
    requires Accessible(m, root, a) && Accessible(m, root, a')
  {
    FrameAt(m, root, a) == FrameAt(m, root, a') && a % PAGE == a' % PAGE
  }

  /** The user has all of the range, in frames that hold bytes. */
  ghost predicate Reachable(m: Memory, pages: map<nat, Frame>, root: nat, start: nat, n: nat) {
    forall a: nat | start <= a < start + n ::
      Accessible(m, root, a) && FrameAt(m, root, a) in pages && |pages[FrameAt(m, root, a)]| == PAGE
  }

  /** Addresses that are the same place are given the same byte. */
  ghost predicate Agrees(m: Memory, root: nat, start: nat, src: seq<Byte>) {
    forall a: nat, a': nat |
      && start <= a < a' < start + |src| && Accessible(m, root, a) && Accessible(m, root, a')
      && SamePlace(m, root, a, a') :: src[a - start] == src[a' - start]
  }

  /** Every byte is then at its address. */
  lemma {:induction false} WrittenBytes(m: Memory, pages: map<nat, Frame>, root: nat, start: nat, src: seq<Byte>, a: nat)
    requires Reachable(m, pages, root, start, |src|) && Agrees(m, root, start, src) && start <= a < start + |src|
    ensures ByteAt(m, Written(m, pages, root, start, src), root, a) == Some(src[a - start])
    decreases |src|
  {
    hide Flat, FrameAt, Accessible;
    var n := |src| - 1;
    if a < start + n {
      assert Reachable(m, pages, root, start, n);
      assert Agrees(m, root, start, src[..n]);
      WrittenBytes(m, pages, root, start, src[..n], a);
    }
  }

  lemma PlacesDiffer(m: Memory, root: nat, start: nat, n: nat, a: nat, a': nat)
    requires DistinctFrames(m, root, start, n) && start <= a < a' < start + n
    requires Accessible(m, root, a) && Accessible(m, root, a')
    ensures !SamePlace(m, root, a, a')
  {
    hide Flat;
    assert a' / PAGE * PAGE <= a' && start / PAGE <= a / PAGE <= a' / PAGE;
  }

  lemma DistinctAgrees(m: Memory, root: nat, start: nat, src: seq<Byte>)
    requires DistinctFrames(m, root, start, |src|)
    ensures Agrees(m, root, start, src)
  {
    hide Flat, DistinctFrames, SamePlace, Accessible, FrameAt;
    forall a: nat, a': nat | start <= a < a' < start + |src| && Accessible(m, root, a) && Accessible(m, root, a')
      ensures !SamePlace(m, root, a, a')
    {
      PlacesDiffer(m, root, start, |src|, a, a');
    }
  }

  lemma AlignedAccess(m: Memory, root: nat, address: nat)
    ensures var aligned := address / PAGE * PAGE;
            && (Accessible(m, root, aligned) <==> Accessible(m, root, address))
            && (Accessible(m, root, address) ==> FrameAt(m, root, aligned) == FrameAt(m, root, address))
  {
    hide Flat;
    var aligned := address / PAGE * PAGE;
    assert aligned / PAGE == address / PAGE && (aligned < MAX_ADDRESS <==> address < MAX_ADDRESS);
  }

  lemma NextPage(address: nat, count: nat)
    requires address % PAGE + count == PAGE
    ensures (address + count) % PAGE == 0
  {
  }

  lemma WrittenNothing(m: Memory, pages: map<nat, Frame>, root: nat, start: nat, src: seq<Byte>)
    requires src == []
    ensures Written(m, pages, root, start, src) == pages
  {
  }

  lemma ReachableMore(m: Memory, pages: map<nat, Frame>, root: nat, start: nat, n: nat, count: nat)
    requires Reachable(m, pages, root, start, n) && Accessible(m, root, start + n) && (start + n) % PAGE + count <= PAGE
    requires FrameAt(m, root, start + n) in pages && |pages[FrameAt(m, root, start + n)]| == PAGE
    ensures Reachable(m, pages, root, start, n + count)
  {
    hide Flat;
    forall a: nat | start <= a < start + (n + count)
      ensures Accessible(m, root, a) && FrameAt(m, root, a) in pages && |pages[FrameAt(m, root, a)]| == PAGE
    {
      if a >= start + n {
        SamePage(start + n, a - (start + n));
      }
    }
  }

  /** Bytes read back after writing are those written just when the source agrees with itself. */
  lemma ReadBack(m: Memory, pages: map<nat, Frame>, w: map<nat, Frame>, root: nat, start: nat, src: seq<Byte>, back: seq<Byte>)
    requires Reachable(m, pages, root, start, |src|) && |back| == |src| && w == Written(m, pages, root, start, src)
    requires forall a: nat | start <= a < start + |back| :: ByteAt(m, w, root, a) == Some(back[a - start])
    ensures back == src <==> Agrees(m, root, start, src)
  {
    hide Flat, Accessible, Written;
    if Agrees(m, root, start, src) {
      forall i: nat | i < |src| ensures back[i] == src[i] {
        WrittenBytes(m, pages, root, start, src, start + i);
        assert ByteAt(m, w, root, start + i) == Some(back[start + i - start]);
      }
    }
    if back == src {
      forall a: nat, a': nat |
        && start <= a < a' < start + |src| && Accessible(m, root, a) && Accessible(m, root, a')
        && SamePlace(m, root, a, a') ensures src[a - start] == src[a' - start]
      {
        assert ByteAt(m, w, root, a) == Some(back[a - start]) && ByteAt(m, w, root, a') == Some(back[a' - start]);
      }
    }
  }

  lemma ChunkRead(m: Memory, pages: map<nat, Frame>, root: nat, start: nat, count: nat, f: nat)
    requires Accessible(m, root, start) && FrameAt(m, root, start) == f && f in pages && |pages[f]| == PAGE
    requires start % PAGE + count <= PAGE
    ensures forall a: nat | start <= a < start + count ::
              Accessible(m, root, a) && ByteAt(m, pages, root, a) == Some(pages[f][start % PAGE + (a - start)])
  {
    hide Flat;
    forall a: nat | start <= a < start + count
      ensures Accessible(m, root, a) && ByteAt(m, pages, root, a) == Some(pages[f][start % PAGE + (a - start)])
    {
      SamePage(start, a - start);
    }
  }

  /** The first `n` frames of memory, all zero. */
  function ZeroRam(n: nat): (ram: map<nat, Frame>)
    ensures forall f: nat :: f in ram <==> f < n
    ensures forall f | f in ram :: |ram[f]| == PAGE
  {
    if n == 0 then map[] else ZeroRam(n - 1)[n - 1 := Filled(0)]
  }

  /** The kernel has its frames, and the next `n` from `first` on are free. */
  ghost predicate BootUse(use: map<nat, Use>, kernel: set<nat>, first: nat, n: nat) {
    && (forall f :: f in use <==> f in kernel || first <= f < first + n)
    && (forall f | f in use :: use[f] == if f in kernel then Shared else Free)
  }

  predicate Descending(frames: seq<nat>, top: int) {
    forall i | 0 <= i < |frames| :: frames[i] == top - i
  }

  /** Before any page is on the list. */
  lemma KernelAlone(use: map<nat, Use>, pages: map<nat, Frame>, first: nat, stop: nat)
    requires forall f | f in use :: use[f] == Shared && f in pages && |pages[f]| == PAGE
    ensures Sound(Memory(map[], use, map[]), {}, [], pages, first, stop)
  {
  }

  lemma KernelUse(use: map<nat, Use>, kernel: set<nat>, first: nat)
    requires use == map f | f in kernel :: Shared
    ensures BootUse(use, kernel, first, 0) && forall top :: Descending([], top)
  {
  }

  lemma BootMore(use: map<nat, Use>, freelist: seq<nat>, kernel: set<nat>, first: nat, n: nat)
    requires BootUse(use, kernel, first, n) && first + n !in kernel && Descending(freelist, first + n - 1)
    ensures first + n !in use && BootUse(use[first + n := Held][first + n := Free], kernel, first, n + 1)
    ensures Descending([first + n] + freelist, first + n)
  {
  }

  lemma FrameAdded(use: map<nat, Use>, freelist: seq<nat>, pages: map<nat, Frame>, first: nat, stop: nat, f: nat)
    requires Sound(Memory(map[], use, map[]), {}, freelist, pages, first, stop)
    requires f !in use && first <= f < stop && f in pages && |pages[f]| == PAGE
    ensures Sound(Memory(map[], use[f := Held], map[]), {}, freelist, pages, first, stop)
  {
  }

  datatype WalkResult =
    | Found(table: nat, index: nat)
    | InvalidVirtualAddress
    | OutOfMemory

  class PhysicalMemory {
    const first: nat
    const stop: nat
    var tables: map<nat, seq<Entry>>
    var pages: map<nat, Frame>
    var freelist: seq<nat>
    ghost var use: map<nat, Use>
    ghost var at: map<Spot, nat>

    ghost function View(): Memory
      reads this
    {
      Memory(tables, use, at)
    }

    ghost predicate Valid(torn: set<nat>)
      reads this
    {
      Sound(View(), torn, freelist, pages, first, stop)
    }

    /** At boot all frames between the end of the kernel and the end of memory go on the list, the last
        one first. Those of `kernel` are the kernel's own. */
    constructor (kernelEnd: nat, physicalStop: nat, ram: map<nat, Frame>, ghost kernel: set<nat>)
      requires physicalStop % PAGE == 0
      requires forall f | f in kernel :: f < PagesFor(kernelEnd) || physicalStop / PAGE <= f
      requires forall f: nat | f in kernel || PagesFor(kernelEnd) <= f < physicalStop / PAGE :: f in ram && |ram[f]| == PAGE
      ensures first == PagesFor(kernelEnd) && stop == physicalStop / PAGE
      ensures Valid({}) && tables == map[] && at == map[]
      ensures |freelist| == if first < stop then stop - first else 0
      ensures BootUse(use, kernel, first, |freelist|) && Descending(freelist, stop - 1)
    {
      hide Sound, Linked, Sited, Listed, Backed, Flat, SameFlat, PageRoundUp, Filled, BootUse, Descending;
      first, stop := PagesFor(kernelEnd), physicalStop / PAGE;
      tables, pages, freelist := map[], ram, [];
      use, at := map f | f in kernel :: Shared, map[];
      new;
      KernelAlone(use, pages, first, stop);
      KernelUse(use, kernel, first);
      var offset := PageRoundUp(kernelEnd);
      RoundedUp(kernelEnd);
      ghost var n := 0;
      while offset + PAGE <= physicalStop
        invariant offset == (first + n) * PAGE && |freelist| == n && (n == 0 || first + n <= stop)
        invariant Valid({}) && tables == map[] && at == map[]
        invariant BootUse(use, kernel, first, n) && Descending(freelist, first + n - 1)
        invariant forall f: nat | first <= f < stop :: f in pages && |pages[f]| == PAGE
      {
        BootMore(use, freelist, kernel, first, n);
        FrameAdded(use, freelist, pages, first, stop, first + n);
        use := use[first + n := Held];
        var ok := FreePage(offset / PAGE, {});
        offset := offset + PAGE;
        n := n + 1;
      }
    }

    method AllocPage(zeroed: bool, ghost torn: set<nat>) returns (r: Option<nat>)
      requires Valid(torn)
      modifies this`freelist, this`pages, this`use
      ensures Valid(torn) && SameFlat(old(View()), View())
      ensures r.None? <==> old(freelist) == []
      ensures r.None? ==> freelist == old(freelist) && pages == old(pages) && use == old(use)
      ensures r.Some? ==>
                var f := r.value;
                && f in old(use) && old(use)[f] == Free && use == old(use)[f := Held]
                && freelist == old(freelist)[1..]
                && pages == old(pages)[f := Filled(if zeroed then 0 else 5)]
    {
      hide Sound;
      if freelist == [] {
        return None;
      }
      var f := freelist[0];
      var contents := Filled(if zeroed then 0 else 5);
      Allocated(View(), torn, freelist, pages, first, stop, contents);
      freelist := freelist[1..];
      pages := pages[f := contents];
      use := use[f := Held];
      r := Some(f);
    }

    /** Only a frame outside the allocator's range is turned away. */
    method FreePage(f: nat, ghost torn: set<nat>) returns (ok: bool)
      requires Valid(torn) && (first <= f < stop ==> IsHeld(use, f))
      modifies this`freelist, this`pages, this`use
      ensures Valid(torn) && SameFlat(old(View()), View())
      ensures ok <==> first <= f < stop
      ensures !ok ==> freelist == old(freelist) && pages == old(pages) && use == old(use)
      ensures ok ==> freelist == [f] + old(freelist) && pages == old(pages)[f := Filled(1)] && use == old(use)[f := Free]
    {
      hide Sound;
      if f < first || f >= stop {
        return false;
      }
      Freed(View(), torn, freelist, pages, first, stop, f, Filled(1));
      pages := pages[f := Filled(1)];
      freelist := [f] + freelist;
      use := use[f := Free];
      ok := true;
    }

    /** The kernel sets a page in hand aside to be mapped, in any number of places. */
    ghost method Share(f: nat)
      requires Valid({}) && IsHeld(use, f)
      modifies this`use
      ensures Valid({}) && use == old(use)[f := Shared] && SameFlat(old(View()), View())
    {
      hide Linked, Sited, Flat;
      UseLinked(View(), {}, f, Shared);
      use := use[f := Shared];
    }

    /** A page set aside that is mapped nowhere any more is in hand again. */
    ghost method Unshare(f: nat)
      requires Valid({}) && IsShared(use, f) && first <= f < stop && Nowhere(View(), f)
      modifies this`use
      ensures Valid({}) && use == old(use)[f := Held] && SameFlat(old(View()), View())
    {
      hide Linked, Sited, Flat, Nowhere;
      UnshareLinked(View(), f);
      use := use[f := Held];
    }

    /** A new table under entry `i` of the table `parent`. `h` and `pages0` are how memory was when
        the walk began. */
    method AddTable(parent: nat, i: nat, ghost s: Spot, ghost h: Memory, ghost pages0: map<nat, Frame>)
      returns (page: Option<nat>)
      requires Valid({}) && Vacant(View(), s, i) && !s.Bottom? && Child(s, i) !in at && at[s] == parent
      requires SameFlat(h, View()) && TablesAdded(h.use, use, s.root) && PagesKept(h.use, pages0, pages)
      modifies this
      ensures Valid({}) && SameFlat(h, View())
      ensures TablesAdded(h.use, use, s.root) && PagesKept(h.use, pages0, pages)
      ensures page.None? ==> freelist == [] && old(freelist) == [] && at == old(at)
      ensures page.Some? ==> |freelist| + 1 == |old(freelist)|
      ensures page.Some? ==> at == old(at)[Child(s, i) := page.value]
    {
      hide Sound, Linked, Sited, Flat, TablesAdded, PagesKept, SameFlat, Filled, EmptyTable;
      ghost var m, pages1 := View(), pages;
      page := AllocPage(true, {});
      if page.None? {
        return;
      }
      var f := page.value;
      WalkGrows(h, m, View(), freelist, pages0, pages1, pages, first, stop, s, i, f);
      tables := tables[f := EmptyTable()];
      tables := tables[parent := tables[parent][i := Branch(f)]];
      use, at := use[f := At(Child(s, i))], at[Child(s, i) := f];
      assert View() == WithTable(m.(use := m.use[f := Held]), s, i, f);
    }

    /** The entry of the page at `address`; with `create`, missing tables are made on the way. */
    method Walk(root: nat, address: nat, create: bool) returns (r: WalkResult)
      requires Valid({}) && Top(root) in at && address < MAX_ADDRESS
      modifies this
      ensures Valid({}) && SameFlat(old(View()), View()) && Top(root) in at
      ensures TablesAdded(old(use), use, root) && PagesKept(old(use), old(pages), pages)
      ensures r.Found? ==>
                var s := BottomOf(root, address / PAGE);
                && s in at && r.table == at[s] && r.index == Index(address / PAGE, 0)
                && r.table in tables && |tables[r.table]| == ENTRIES
      ensures !create ==> View() == old(View()) && pages == old(pages) && freelist == old(freelist)
      ensures !create ==> !r.OutOfMemory? && (r.Found? <==> BottomOf(root, address / PAGE) in at)
      ensures create ==> !r.InvalidVirtualAddress?
      ensures create ==>
                && (r.OutOfMemory? <==> |old(freelist)| < old(Missing(at, root, address / PAGE)))
                && (r.OutOfMemory? ==> freelist == [])
                && (r.Found? ==> |freelist| + old(Missing(at, root, address / PAGE)) == |old(freelist)|)
      ensures !r.Found? ==> Flat(old(View()), root, address / PAGE) == None
    {
      hide Sound, Linked, Sited, Flat, TablesAdded, PagesKept, Index, PageIndex, SameFlat, Filled, EmptyTable, Missing;
      ghost var v := address / PAGE;
      ghost var h, pages0 := View(), pages;
      var level, current := 2, root;
      Start(h, freelist, pages, first, stop, root);
      while level != 0
        invariant 0 <= level <= 2
        invariant Valid({}) && OnTheWay(root, v, level) in at && at[OnTheWay(root, v, level)] == current
        invariant SameFlat(h, View()) && TablesAdded(h.use, use, root) && PagesKept(h.use, pages0, pages)
        invariant Top(root) in at && |freelist| + old(Missing(at, root, v)) == |old(freelist)| + Missing(at, root, v)
        invariant !create ==> View() == h && pages == pages0 && freelist == old(freelist)
        decreases level
      {
        ghost var s := OnTheWay(root, v, level);
        var i := PageIndex(address, level);
        PageIndexOfPage(address, level);
        SoundLinked(View(), {}, freelist, pages, first, stop);
        TopHalf(v);
        WalkStep(View(), s, i);
        assert Child(s, i) == OnTheWay(root, v, level - 1);
        if tables[current][i].valid {
          current := tables[current][i].frame;
        } else {
          NotOnTheWay(View(), root, v, level);
          ghost var m := View();
          MissingLess(m, at[Child(s, i) := 0], root, v, level, 0);
          NotMapped(h, View(), root, v);
          if !create {
            return InvalidVirtualAddress;
          }
          var page := AddTable(current, i, s, h, pages0);
          if page.None? {
            return OutOfMemory;
          }
          current := page.value;
          MissingLess(m, at, root, v, level, current);
        }
        level := level - 1;
      }
      PageIndexOfPage(address, 0);
      SoundLinked(View(), {}, freelist, pages, first, stop);
      Table(View(), {}, BottomOf(root, v));
      NoneMissing(at, root, v);
      r := Found(current, PageIndex(address, 0));
    }

    /** Maps the page of `address` to the frame of `physical`, unless it is mapped already. */
    method MapPage(root: nat, address: nat, physical: nat, permissions: Permissions, user: bool) returns (r: MapResult)
      requires Valid({}) && Top(root) in at && address < MAX_ADDRESS
      requires permissions != NO_PERMISSIONS && HeldOrShared(use, physical / PAGE)
      modifies this
      ensures Valid({}) && Top(root) in at && !r.ZeroSize?
      ensures var n := if r.Mapping? then 1 else 0;
              && MapsRange(old(View()), View(), root, address / PAGE, n, physical / PAGE, permissions, user)
              && MapUse(old(use), use, root, address / PAGE, n, physical / PAGE)
      ensures PagesKept(old(use), old(pages), pages)
      ensures Flat(old(View()), root, address / PAGE).Some? <==> r.AlreadyMapped?
      ensures r.NoMemory? <==> |old(freelist)| < old(Missing(at, root, address / PAGE))
      ensures r.NoMemory? ==> freelist == []
      ensures !r.NoMemory? ==> |freelist| + old(Missing(at, root, address / PAGE)) == |old(freelist)|
    {
      hide Missing, Sound, Linked, Sited, Flat, TablesAdded, PagesKept, SameFlat, MapsRange, MapUse, NewTable, Index,
           MapUse;
      ghost var h, v, f := View(), address / PAGE, physical / PAGE;
      var entry := Walk(root, address, true);
      WalkMapsNothing(h, View(), freelist, pages, first, stop, root, v, f, permissions, user);
      if entry.OutOfMemory? {
        return NoMemory;
      }
      if tables[entry.table][entry.index].valid {
        return AlreadyMapped;
      }
      var e := Entry(true, permissions, user, physical / PAGE);
      ghost var m := View();
      MapOne(m, freelist, pages, first, stop, root, v, e);
      MapsMore(h, m, WithLeaf(m, BottomOf(root, v), Index(v, 0), e), root, v, 0, 1, f, permissions, user);
      MapUseMore(h.use, m.use, WithLeaf(m, BottomOf(root, v), Index(v, 0), e).use, root, v, 0, 1, f);
      tables := tables[entry.table := tables[entry.table][entry.index := e]];
      if IsHeld(use, f) {
        use, at := use[f := At(PageOf(root, v))], at[PageOf(root, v) := f];
      }
      assert View() == WithLeaf(m, BottomOf(root, v), Index(v, 0), e);
      r := Mapping;
    }

    /** Maps the pages `size` bytes from `address` lie on to the frames from `physical` on. Pages
        mapped before a failure stay mapped. */
    method Map(root: nat, address: nat, physical: nat, size: nat, permissions: Permissions, user: bool)
      returns (r: MapResult, done: nat)
      requires Valid({}) && Top(root) in at && address + size <= MAX_ADDRESS && permissions != NO_PERMISSIONS
      requires size > 0 ==>
                 forall g | physical / PAGE <= g < physical / PAGE + CoveringPages(address, size) :: HeldOrShared(use, g)
      modifies this
      ensures Valid({}) && Top(root) in at
      ensures r.ZeroSize? <==> size == 0
      ensures size == 0 ==> done == 0 && View() == old(View()) && pages == old(pages)
      ensures MapsRange(old(View()), View(), root, address / PAGE, done, physical / PAGE, permissions, user)
      ensures MapUse(old(use), use, root, address / PAGE, done, physical / PAGE)
      ensures PagesKept(old(use), old(pages), pages)
      ensures size > 0 ==> done <= CoveringPages(address, size) && (r.Mapping? <==> done == CoveringPages(address, size))
      ensures forall p | address / PAGE <= p < address / PAGE + done :: Flat(old(View()), root, p) == None
      ensures r.AlreadyMapped? ==> Flat(old(View()), root, address / PAGE + done).Some?
      ensures r.NoMemory? ==> freelist == [] && Flat(old(View()), root, address / PAGE + done) == None
      ensures |freelist| <= |old(freelist)|
      ensures |freelist| + 2 * (done + 1) >= |old(freelist)| && (r.Mapping? ==> |freelist| + 2 * done >= |old(freelist)|)
      ensures r.NoMemory? ==> |old(freelist)| < 2 * (done + 1)
      ensures size > 0 ==>
                (done == 0 <==> Flat(old(View()), root, address / PAGE).Some? || |old(freelist)| < old(Missing(at, root, address / PAGE)))
      ensures size > 0 && CoveringPages(address, size) == 1 && r.Mapping? ==>
                |freelist| + old(Missing(at, root, address / PAGE)) == |old(freelist)|
    {
      hide Missing, Sound, Linked, Sited, Flat, PagesKept, SameFlat, MapsRange, MapUse, NewTable, Index, TablesAdded,
           HeldOrShared;
      ghost var h, v, f, pages0 := View(), address / PAGE, physical / PAGE, pages;
      Start(h, freelist, pages, first, stop, root);
      MapsNothing(h, h, root, v, f, permissions, user);
      done := 0;
      if size == 0 {
        return ZeroSize, 0;
      }
      var count := CoveringPages(address, size);
      while done < count
        invariant 0 <= done <= count
        invariant Valid({}) && Top(root) in at
        invariant MapsRange(h, View(), root, v, done, f, permissions, user)
        invariant MapUse(h.use, use, root, v, done, f) && PagesKept(h.use, pages0, pages)
        invariant |freelist| <= |old(freelist)| <= |freelist| + 2 * done
        invariant forall p | v <= p < v + done :: Flat(h, root, p) == None
        invariant done == 0 ==> View() == h && freelist == old(freelist)
        invariant done > 0 ==> !(Flat(h, root, v).Some? || |old(freelist)| < Missing(h.at, root, v))
        invariant done == 1 ==> |freelist| + Missing(h.at, root, v) == |old(freelist)|
      {
        ghost var m, pages1 := View(), pages;
        PageSteps(address, done);
        PageSteps(physical, done);
        LastPage(address, size, done);
        MapUseKeeps(h.use, use, root, v, done, f);
        MapsNone(h, View(), root, v, done, f, permissions, user);
        var offset := done * PAGE;
        r := MapPage(root, address + offset, physical + offset, permissions, user);
        MapsMore(h, m, View(), root, v, done, if r.Mapping? then 1 else 0, f, permissions, user);
        MapUseMore(h.use, m.use, use, root, v, done, if r.Mapping? then 1 else 0, f);
        PagesKeptTwice(h.use, m.use, pages0, pages1, pages);
        if !r.Mapping? {
          return;
        }
        done := done + 1;
      }
      r := Mapping;
    }

    /** Clears the entry of the page at `address`, and frees its frame when asked to. */
    method UnmapPage(root: nat, address: nat, doFree: bool)
      requires Valid({}) && Top(root) in at && address < MAX_ADDRESS
      requires Flat(View(), root, address / PAGE).Some?
      requires doFree ==> PageOf(root, address / PAGE) in at
      modifies this
      ensures Valid({}) && Top(root) in at && UnmapsRange(old(View()), View(), root, address / PAGE, 1)
      ensures UnmapUse(old(use), use, root, address / PAGE, 1, if doFree then Free else Held)
      ensures PagesKeptBut(old(use), use, old(pages), pages)
      ensures !doFree ==> pages == old(pages) && freelist == old(freelist)
    {
      hide Sound, Linked, Sited, Flat, UnmapsRange, UnmapUse, Index, PagesKeptBut, IsBranch, SameFlat, WithoutLeaf,
           Filled;
      ghost var h, v := View(), address / PAGE;
      MappedEntry(h, freelist, pages, first, stop, root, v);
      var entry := Walk(root, address, false);
      assert View() == h;
      UnmapOne(h, freelist, pages, first, stop, root, v);
      var frame := tables[entry.table][entry.index].frame;
      ghost var m := WithoutLeaf(h, BottomOf(root, v), Index(v, 0));
      tables := tables[entry.table := tables[entry.table][entry.index := NO_ENTRY]];
      if PageOf(root, v) in at {
        use, at := use[frame := Held], at - {PageOf(root, v)};
      }
      assert View() == m by { WithoutLeafIs(h, BottomOf(root, v), Index(v, 0)); }
      if doFree {
        Unmapped(h, m, old(freelist), old(pages), first, stop, root, v, frame);
        var ok := FreePage(frame, {});
        UnmapsThenSame(h, m, View(), root, v);
      }
    }

    /** clearUser: the user loses one page, and it stays mapped. */
    method ClearUser(root: nat, address: nat)
      requires Valid({}) && Top(root) in at && address < MAX_ADDRESS
      requires Flat(View(), root, address / PAGE).Some?
      modifies this
      ensures Valid({}) && use == old(use) && at == old(at) && pages == old(pages) && freelist == old(freelist)
      ensures Barred(old(View()), View(), root, address / PAGE)
    {
      hide Sound, Linked, Sited, Listed, Backed, Flat, Index, IsBranch, SameFlat, Barred, WithoutUser;
      ghost var h, v := View(), address / PAGE;
      MappedEntry(h, freelist, pages, first, stop, root, v);
      var entry := Walk(root, address, false);
      assert View() == h;
      BarOne(h, freelist, pages, first, stop, root, v);
      tables := tables[entry.table := tables[entry.table][entry.index := tables[entry.table][entry.index].(user := false)]];
      assert View() == WithoutUser(h, BottomOf(root, v), Index(v, 0)) by { WithoutUserIs(h, BottomOf(root, v), Index(v, 0)); }
    }

    /** Clears `count` entries from `address` on; each must be there. */
    method Unmap(root: nat, address: nat, count: nat, doFree: bool)
      requires Valid({}) && Top(root) in at && address % PAGE == 0 && address + count * PAGE <= MAX_ADDRESS
      requires forall p | address / PAGE <= p < address / PAGE + count :: Flat(View(), root, p).Some?
      requires doFree ==> forall p | address / PAGE <= p < address / PAGE + count :: PageOf(root, p) in at
      modifies this
      ensures Valid({}) && Top(root) in at && UnmapsRange(old(View()), View(), root, address / PAGE, count)
      ensures UnmapUse(old(use), use, root, address / PAGE, count, if doFree then Free else Held)
      ensures PagesKeptBut(old(use), use, old(pages), pages)
    {
      hide Sound, Linked, Sited, Flat, UnmapsRange, UnmapUse, Index, PagesKeptBut, PageOf;
      ghost var h, v, pages0, u := View(), address / PAGE, pages, if doFree then Free else Held;
      UnmapsNothing(h, pages, root, v, u);
      SoundLinked(h, {}, freelist, pages, first, stop);
      var i := 0;
      while i < count
        invariant 0 <= i <= count
        invariant Valid({}) && Top(root) in at && UnmapsRange(h, View(), root, v, i)
        invariant UnmapUse(h.use, use, root, v, i, u) && PagesKeptBut(h.use, use, pages0, pages)
      {
        ghost var m, pages1 := View(), pages;
        SoundLinked(m, {}, freelist, pages, first, stop);
        PageSteps(address, i);
        StillThere(h, m, root, v, i, u, v + i);
        UnmapPage(root, address + i * PAGE, doFree);
        UnmapsMore(h, m, View(), root, v, i, 1);
        UnmapUseMore(h.use, m.use, use, root, v, i, 1, u);
        PagesKeptButTwice(h.use, m.use, use, root, v, i, 1, u, pages0, pages1, pages);
        i := i + 1;
      }
    }

    /** Maps page `f`, just allocated, at `address`, or gives it back. */
    method MapNewPage(root: nat, address: nat, f: nat, permissions: Permissions, user: bool) returns (ok: bool)
      requires Valid({}) && Top(root) in at && address % PAGE == 0 && address + PAGE <= MAX_ADDRESS
      requires permissions != NO_PERMISSIONS && IsHeld(use, f)
      modifies this
      ensures Valid({}) && Top(root) in at
      ensures ok ==>
                && MapsRange(old(View()), View(), root, address / PAGE, 1, f, permissions, user)
                && MapUse(old(use), use, root, address / PAGE, 1, f)
                && PagesKept(old(use), old(pages), pages)
                && Flat(old(View()), root, address / PAGE) == None
      ensures !ok ==>
                SamePages(old(View()), View()) && GaveBack(old(use), use, old(pages), pages, root, f)
      ensures !ok ==> Flat(old(View()), root, address / PAGE).Some? || |old(freelist)| < 2
      ensures ok ==> |freelist| + 2 >= |old(freelist)|
    {
      hide Sound, Linked, Sited, Flat, Index, PagesKept, PageOf, MapsRange, MapUse, SameFlat, Filled, SamePages,
           GaveBack, NewTable;
      ghost var h, pages0 := View(), pages;
      OnePage(address, f);
      var r, done := Map(root, address, f * PAGE, PAGE, permissions, user);
      if r.Mapping? {
        return true;
      }
      ghost var m, pages1 := View(), pages;
      MapUseKeeps(h.use, use, root, address / PAGE, done, f);
      HeldInRange(m, {}, freelist, pages, first, stop, f);
      var freed := FreePage(f, {});
      MapGaveBack(h, m, View(), pages0, pages1, root, address / PAGE, f, permissions, user);
      ok := false;
    }

    /** Brings a process from `oldSize` down to `newSize`, freeing the pages in between. */
    method Dealloc(root: nat, oldSize: nat, newSize: nat) returns (size: nat)
      requires Valid({}) && Top(root) in at && (newSize < oldSize ==> oldSize <= MAX_ADDRESS)
      requires forall p: nat | PagesFor(newSize) <= p < PagesFor(oldSize) :: Flat(View(), root, p).Some?
      requires forall p: nat | PagesFor(newSize) <= p < PagesFor(oldSize) :: PageOf(root, p) in at
      modifies this
      ensures Valid({}) && Top(root) in at
      ensures size == if newSize < oldSize then newSize else oldSize
      ensures var v := PagesFor(newSize);
              var n := if newSize < oldSize then PagesFor(oldSize) - v else 0;
              && n >= 0
              && UnmapsRange(old(View()), View(), root, v, n) && UnmapUse(old(use), use, root, v, n, Free)
      ensures PagesKeptBut(old(use), use, old(pages), pages)
    {
      hide Sound, Linked, Sited, Flat, Index, PageOf, UnmapsRange, UnmapUse, PagesKeptBut, PageRoundUp, PagesFor;
      UnmapsNothing(View(), pages, root, PagesFor(newSize), Free);
      if newSize >= oldSize {
        return oldSize;
      }
      RoundedUp(newSize);
      RoundedUp(oldSize);
      RoundedOrder(newSize, oldSize);
      var newAligned, oldAligned := PageRoundUp(newSize), PageRoundUp(oldSize);
      if newAligned < oldAligned {
        var count := (oldAligned - newAligned) / PAGE;
        Unmap(root, newAligned, count, true);
      }
      size := newSize;
    }

    /** Allocates page `p` of a growing address space and maps it; a page that cannot be mapped goes
        back. */
    method GrowPage(root: nat, p: nat, permissions: Permissions, ghost h: Memory, ghost pages0: map<nat, Frame>,
                    ghost v: nat, ghost n: nat)
      returns (ok: bool)
      requires Valid({}) && Top(root) in at && p == v + n && p < PAGES && permissions != NO_PERMISSIONS
      requires Growing(h, View(), pages0, pages, root, v, n, Zeroed(permissions))
      modifies this
      ensures Valid({}) && Top(root) in at
      ensures Growing(h, View(), pages0, pages, root, v, if ok then n + 1 else n, Zeroed(permissions))
      ensures !ok ==> Flat(old(View()), root, p).Some? || |old(freelist)| < 3
      ensures ok ==> |freelist| + 3 >= |old(freelist)|
    {
      hide Sound, Linked, Sited, Flat, Index, PageOf, Growing, Filled, MapsRange, MapUse, PagesKept, SameFlat,
           SamePages, GaveBack, TablesAdded, Zeroed, PageNumber, NewTable;
      ghost var m, pagesA := View(), pages;
      ZeroedIs(permissions, p);
      SoundLinked(m, {}, freelist, pages, first, stop);
      var page := AllocPage(true, {});
      if page.None? {
        return false;
      }
      ghost var m1, pages1 := View(), pages;
      OnePage(p * PAGE, p);
      ok := MapNewPage(root, p * PAGE, page.value, permissions, true);
      SoundLinked(View(), {}, freelist, pages, first, stop);
      SameFlatAt(m, m1, root, p);
      Round(h, m, m1, View(), pages0, pagesA, pages1, pages, root, v, n, page.value, Zeroed(permissions), ok);
    }

    /** Grows a process from `oldSize` to `newSize` with pages of zeros, or leaves every mapping as it
        was. */
    method Alloc(root: nat, oldSize: nat, newSize: nat, permissions: Permissions) returns (r: Option<nat>)
      requires Valid({}) && Top(root) in at && permissions != NO_PERMISSIONS
      requires oldSize <= newSize ==> newSize <= MAX_ADDRESS || MappedFrom(View(), root, PagesFor(oldSize))
      modifies this
      ensures Valid({}) && Top(root) in at && PagesKept(old(use), old(pages), pages)
      ensures r.Some? ==> r.value == if newSize < oldSize then oldSize else newSize
      ensures var v := PagesFor(oldSize);
              var n := if newSize < oldSize then 0 else PagesFor(newSize) - v;
              && n >= 0
              && (r.Some? ==> Grown(old(View()), View(), pages, root, v, n, Zeroed(permissions)))
              && (r.None? ==>
                    (exists p: nat :: v <= p < v + n && Flat(old(View()), root, p).Some?) || |old(freelist)| < 3 * n)
              && (r.Some? ==> |freelist| + 3 * n >= |old(freelist)|)
      ensures r.None? ==> SamePages(old(View()), View()) && TablesAdded(old(use), use, root)
    {
      hide Sound, Linked, Sited, Flat, Index, PageOf, Growing, Filled, PagesKept, SameFlat, SamePages, TablesAdded,
           PageRoundUp, PagesFor, Grown, Zeroed, UnmapUse, UnmapsRange, PagesKeptBut, MappedFrom;
      ghost var h, pages0, v, want := View(), pages, PagesFor(oldSize), Zeroed(permissions);
      GrowingStart(h, pages, root, v, want);
      GrowingIs(h, h, pages, pages, root, v, 0, want);
      if newSize < oldSize {
        return Some(oldSize);
      }
      SoundLinked(h, {}, freelist, pages, first, stop);
      RoundedOrder(oldSize, newSize);
      RoundedUp(oldSize);
      InTheTables(h, root, oldSize, newSize);
      var current := PageRoundUp(oldSize);
      ghost var n := 0;
      while current < newSize
        invariant current == (v + n) * PAGE && v + n <= PAGES && v + n <= PagesFor(newSize)
        invariant Valid({}) && Top(root) in at && Growing(h, View(), pages0, pages, root, v, n, want)
        invariant |freelist| + 3 * n >= |old(freelist)|
        decreases PAGES - (v + n)
      {
        PageBefore(v + n, newSize);
        RoomLeft(h, View(), pages0, pages, root, v, n, want, newSize);
        GrowingFlat(h, View(), pages0, pages, root, v, n, want);
        var ok := GrowPage(root, current / PAGE, permissions, h, pages0, v, n);
        if !ok {
          ghost var m, pages1 := View(), pages;
          CanBeUndone(h, m, pages0, pages, root, v, n, want);
          AlignedSize(v + n);
          RoundedUp(oldSize);
          var _ := Dealloc(root, current, oldSize);
          GrowingUndone(h, m, View(), pages0, pages1, pages, root, v, n, want);
          return None;
        }
        current := current + PAGE;
        n := n + 1;
      }
      PageBefore(v + n, newSize);
      GrowingIs(h, View(), pages0, pages, root, v, n, want);
      r := Some(newSize);
    }

    /** The entry of a page that is mapped. */
    method Present(root: nat, p: nat) returns (e: Entry)
      requires Valid({}) && Top(root) in at && p < PAGES && Flat(View(), root, p).Some?
      modifies this
      ensures View() == old(View()) && pages == old(pages) && freelist == old(freelist)
      ensures Flat(View(), root, p) == Some(Leaf(e.frame, e.permissions, e.user))
    {
      hide Sound, Linked, Sited, Flat, Index, PageOf, PagesKept, SameFlat, TablesAdded;
      OnePage(p * PAGE, p);
      MappedEntry(View(), freelist, pages, first, stop, root, p);
      FlatEntry(View(), root, p);
      var entry := Walk(root, p * PAGE, false);
      e := tables[entry.table][entry.index];
    }

    /** A page in hand with the contents of page `source`. */
    method AllocCopy(source: nat) returns (page: Option<nat>)
      requires Valid({}) && source in pages && |pages[source]| == PAGE && source in use && use[source] != Free
      modifies this`freelist, this`pages, this`use
      ensures Valid({}) && SameFlat(old(View()), View())
      ensures page.None? ==> old(freelist) == [] && freelist == [] && pages == old(pages) && use == old(use)
      ensures page.Some? ==>
                var f := page.value;
                && f in old(use) && old(use)[f] == Free && use == old(use)[f := Held]
                && |freelist| + 1 == |old(freelist)| && pages == old(pages)[f := old(pages)[source]]
    {
      hide Sound, Flat, SameFlat, Filled;
      page := AllocPage(false, {});
      if page.Some? {
        Refilled(View(), {}, freelist, pages, first, stop, page.value, pages[source]);
        pages := pages[page.value := pages[source]];
      }
    }

    /** A new page with the given contents; a page that cannot be mapped goes back. */
    method AddCopy(root: nat, p: nat, e: Entry, ghost h: Memory, ghost pages0: map<nat, Frame>, ghost want: nat -> Wanted)
      returns (ok: bool)
      requires Valid({}) && Top(root) in at && p < PAGES && e.permissions != NO_PERMISSIONS
      requires e.frame in pages && |pages[e.frame]| == PAGE && e.frame in use && use[e.frame] != Free
      requires Growing(h, View(), pages0, pages, root, 0, p, want)
      requires want(p) == Wanted(pages[e.frame], e.permissions, e.user)
      modifies this
      ensures Valid({}) && Top(root) in at
      ensures Growing(h, View(), pages0, pages, root, 0, if ok then p + 1 else p, want)
      ensures !ok ==> Flat(old(View()), root, p).Some? || |old(freelist)| < 3
      ensures ok ==> |freelist| + 3 >= |old(freelist)|
    {
      hide Sound, Linked, Sited, Flat, Index, PageOf, Growing, Filled, MapsRange, MapUse, PagesKept, SameFlat,
           SamePages, GaveBack, TablesAdded, PageNumber, NewTable;
      ghost var m, pagesA := View(), pages;
      SoundLinked(m, {}, freelist, pages, first, stop);
      var page := AllocCopy(e.frame);
      if page.None? {
        return false;
      }
      ghost var m1, pages1 := View(), pages;
      OnePage(p * PAGE, p);
      ok := MapNewPage(root, p * PAGE, page.value, e.permissions, e.user);
      SoundLinked(View(), {}, freelist, pages, first, stop);
      SameFlatAt(m, m1, root, p);
      Round(h, m, m1, View(), pages0, pagesA, pages1, pages, root, 0, p, page.value, want, ok);
    }

    /** Frees the first `n` pages of the child again. */
    method UndoCopy(root: nat, n: nat, ghost h: Memory, ghost pages0: map<nat, Frame>, ghost want: nat -> Wanted)
      requires Valid({}) && Top(root) in at && n <= PAGES && Linked(h, {}) && Sited(h)
      requires Growing(h, View(), pages0, pages, root, 0, n, want)
      modifies this
      ensures Valid({}) && Top(root) in at
      ensures SamePages(h, View()) && TablesAdded(h.use, use, root) && PagesKept(h.use, pages0, pages)
    {
      hide Sound, Linked, Sited, Flat, Index, PageOf, Growing, PagesKept, SamePages, TablesAdded, UnmapsRange,
           UnmapUse, PagesKeptBut;
      ghost var m, pages1 := View(), pages;
      CanBeUndone(h, m, pages0, pages, root, 0, n, want);
      Unmap(root, 0, n, true);
      GrowingUndone(h, m, View(), pages0, pages1, pages, root, 0, n, want);
    }

    /** Gives the child the parent's first pages, byte for byte and with the parent's rights, each in a
        frame of its own; or leaves every mapping as it was. */
    method CopyPageTable(parent: nat, root: nat, size: nat) returns (ok: bool)
      requires Valid({}) && Top(root) in at && Top(parent) in at && parent != root && size <= MAX_ADDRESS
      requires forall p: nat | p < PagesFor(size) :: Flat(View(), parent, p).Some?
      modifies this
      ensures Valid({}) && Top(root) in at && Top(parent) in at && PagesKept(old(use), old(pages), pages)
      ensures ok ==>
                Grown(old(View()), View(), pages, root, 0, PagesFor(size), Copies(old(View()), old(pages), parent))
      ensures !ok ==> SamePages(old(View()), View()) && TablesAdded(old(use), use, root)
      ensures !ok ==>
                (exists p: nat :: p < PagesFor(size) && Flat(old(View()), root, p).Some?)
                || |old(freelist)| < 3 * PagesFor(size)
    {
      hide Sound, Linked, Sited, Flat, Index, PageOf, Growing, Grown, PagesKept, SamePages, TablesAdded, Copies,
           CopyOf, PagesFor, PageRoundUp, UnmapsRange, UnmapUse, PagesKeptBut, SameFlat;
      ghost var h, pages0, free0, want := View(), pages, freelist, Copies(View(), pages, parent);
      GrowingStart(h, pages, root, 0, want);
      SoundLinked(h, {}, freelist, pages, first, stop);
      RoundedOrder(0, size);
      var p := 0;
      while p * PAGE < size
        invariant p <= PagesFor(size)
        invariant Valid({}) && Top(root) in at && Top(parent) in at
        invariant Growing(h, View(), pages0, pages, root, 0, p, want)
        invariant |freelist| + 3 * p >= |free0|
        decreases PagesFor(size) - p
      {
        PageBefore(p, size);
        ghost var m := View();
        CopiesIs(h, pages0, parent, p);
        ParentsPage(h, m, free0, freelist, pages0, pages, first, stop, root, 0, p, want, parent, p);
        GrowingFlat(h, m, pages0, pages, root, 0, p, want);
        var e := Present(parent, p);
        var copied := AddCopy(root, p, e, h, pages0, want);
        SoundLinked(View(), {}, freelist, pages, first, stop);
        if !copied {
          UndoCopy(root, p, h, pages0, want);
          SoundLinked(View(), {}, freelist, pages, first, stop);
          RootLeft(h, View(), root, parent);
          return false;
        }
        RootStays(h, View(), pages0, pages, root, 0, p + 1, want, parent);
        p := p + 1;
      }
      PageBefore(p, size);
      GrowingIs(h, View(), pages0, pages, root, 0, p, want);
      ok := true;
    }

    /** Frees the table `t` at `s` and all tables below it. On a leaf, which is found just when something is
        mapped there, the kernel stops, and so does what is said of it. */
    method FreeWalk(t: nat, ghost s: Spot) returns (ok: bool)
      requires Valid({s.root}) && s in at && at[s] == t && !s.Page? && (s.Top? || Parent(s) !in at)
      requires Whole(View(), s)
      modifies this
      ensures ok <==> old(Bare(View(), s))
      ensures ok ==> Valid({s.root}) && Pruned(old(View()), View(), s)
      ensures ok ==> PagesKeptBut(old(use), use, old(pages), pages)
      decreases Level(s), 1
    {
      hide Sound, Linked, Sited, Flat, Whole, Bare, PrunedTo, Pruned, PagesKeptBut, Filled, Under, IsBranch, TableOk,
           EntryOk;
      ghost var m, pages0, torn := View(), pages, {s.root};
      SoundLinked(m, torn, freelist, pages, first, stop);
      DetachSound(m, torn, freelist, pages, first, stop, s);
      use, at := use[t := Held], at - {s};
      assert View() == Detached(m, s);
      DetachKept(m.use, use, t, pages);
      PrunedTable(m, View(), s, 0);
      var i := 0;
      while i < ENTRIES
        invariant 0 <= i <= ENTRIES
        invariant Valid(torn) && PrunedTo(m, View(), s, i) && PagesKeptBut(m.use, use, pages0, pages)
        invariant t in m.tables && |m.tables[t]| == ENTRIES
        invariant forall j: nat | j < i && m.tables[t][j].valid :: !s.Bottom? && Bare(m, Child(s, j))
      {
        PrunedTable(m, View(), s, i);
        if tables[t][i].valid {
          PruneReady(m, View(), torn, s, i);
          PruneReadyBelow(m, View(), torn, s, i);
          if IsBranch(tables[t][i]) {
            ok := FreeChild(t, i, s, m, pages0);
            if !ok {
              NotBareBelow(m, s, i);
              return;
            }
          } else {
            return false;
          }
        } else {
          PruneSkip(m, View(), torn, s, i);
        }
        i := i + 1;
      }
      BareAbove(m, torn, s);
      PrunedTable(m, View(), s, i);
      PruneEnd(m, View(), torn, s);
      ghost var use1, pages1 := use, pages;
      HeldInRange(View(), torn, freelist, pages, first, stop, t);
      ClearedSound(View(), torn, freelist, pages, first, stop, t, []);
      tables := tables - {t};
      ok := FreePage(t, torn);
      FreedKept(m, use1, s, t, pages0, pages1);
    }

    /** The recursive step: frees what entry `i` leads to and clears the entry. */
    method FreeChild(t: nat, i: nat, ghost s: Spot, ghost m: Memory, ghost pages0: map<nat, Frame>) returns (ok: bool)
      requires Sited(m) && s in m.at && m.at[s] == t && !s.Page? && !s.Bottom? && i < ENTRIES
      requires Valid({s.root}) && PrunedTo(m, View(), s, i) && PagesKeptBut(m.use, use, pages0, pages)
      requires t in tables && |tables[t]| == ENTRIES
      requires var c := Child(s, i);
               && c in at && at[c] == tables[t][i].frame && !c.Page? && !c.Top? && Parent(c) !in at && c.root == s.root
               && Whole(View(), c)
      modifies this
      ensures ok <==> old(Bare(View(), Child(s, i)))
      ensures ok ==> Valid({s.root}) && PrunedTo(m, View(), s, i + 1) && PagesKeptBut(m.use, use, pages0, pages)
      decreases Level(s), 0
    {
      hide Sound, Linked, Sited, Flat, Whole, Bare, PrunedTo, Pruned, PagesKeptBut, Filled, Under, TableOk, EntryOk;
      ghost var m1, pages1 := View(), pages;
      ok := FreeWalk(tables[t][i].frame, Child(s, i));
      if !ok {
        return;
      }
      ghost var m2 := View();
      PruneChild(m, m1, m2, s, i);
      ClearedSound(m2, {s.root}, freelist, pages, first, stop, t, tables[t][i := NO_ENTRY]);
      PrunedKept(m, m1, m2, s, i, pages0, pages1, pages);
      tables := tables[t := tables[t][i := NO_ENTRY]];
    }

    /** Frees a process's pages and then all its tables, or stops at a page that is mapped above its size. */
    method FreeTable(root: nat, size: nat) returns (ok: bool)
      requires Valid({}) && Top(root) in at && size <= MAX_ADDRESS && OwnPages(View(), root, PagesFor(size))
      modifies this
      ensures ok <==> old(UnmappedFrom(View(), root, PagesFor(size)))
      ensures ok ==> Valid({}) && Dropped(old(View()), View(), root)
      ensures ok ==> PagesKeptBut(old(use), use, old(pages), pages)
    {
      hide Sound, Linked, Sited, Flat, Whole, Bare, Pruned, PagesKeptBut, PageRoundUp, PageOf, Dropped, UnmapsRange,
           UnmapUse, Index, UnmappedFrom;
      ghost var h, pages0, n := View(), pages, PagesFor(size);
      UnmapsNothing(h, pages, root, 0, Free);
      RoundedUp(size);
      RoundedOrder(size, size);
      if size > 0 {
        var sizeAligned := PageRoundUp(size);
        Unmap(root, 0, sizeAligned / PAGE, true);
      }
      ghost var m, pages1 := View(), pages;
      NothingLeft(h, m, root, n);
      TearDown(m, freelist, pages, first, stop, root);
      SoundLinked(m, {}, freelist, pages, first, stop);
      ok := FreeWalk(root, Top(root));
      if !ok {
        return;
      }
      TornDown(m, View(), freelist, pages, first, stop, root);
      UnmappedDropped(h, m, View(), root, 0, n);
      DroppedKept(h, m, View(), root, n, pages0, pages1, pages);
    }

    /** Returns every page and every table of a process's address space, or stops with "freewalk: leaf": just
        when a page is mapped between the process's own and the kernel's two. */
    method FreePageTable(root: nat, size: nat) returns (ok: bool)
      requires Valid({}) && Top(root) in at && size <= TRAPFRAME && ProcessSpace(View(), root, PagesFor(size))
      modifies this
      ensures ok <==> old(Alone(View(), root, PagesFor(size)))
      ensures ok ==> Valid({}) && Dropped(old(View()), View(), root)
      ensures ok ==> PagesKeptBut(old(use), use, old(pages), pages)
    {
      hide Sound, Linked, Sited, Flat, PagesKeptBut, PagesFor, PageOf, Dropped, UnmapsRange, UnmapUse, Index,
           OwnPages, UnmappedFrom, Alone;
      ghost var h, n, free0, pages0 := View(), PagesFor(size), freelist, pages;
      Unmap(root, TRAMPOLINE, 1, false);
      ghost var m1, pages1 := View(), pages;
      UnmapsAt(h, m1, root, PAGES - 1, PAGES - 2);
      Unmap(root, TRAPFRAME, 1, false);
      ghost var m2, pages2 := View(), pages;
      SoundLinked(m2, {}, freelist, pages, first, stop);
      KernelPagesGone(h, m1, m2, free0, pages0, first, stop, root, n);
      ok := FreeTable(root, size);
      if ok {
        KernelThenDropped(h, m2, View(), root);
        KeptThrough(h.use, use, pages0, pages1, pages2, pages);
      }
    }

    /** An empty root table. */
    method CreateRoot() returns (r: Option<nat>)
      requires Valid({})
      modifies this
      ensures Valid({})
      ensures r.None? ==> old(freelist) == [] && View() == old(View())
      ensures r.Some? ==> NewSpace(old(View()), View(), r.value) && |freelist| + 1 == |old(freelist)|
      ensures r.Some? ==> at == old(at)[Top(r.value) := r.value]
      ensures PagesKept(old(use), old(pages), pages)
    {
      hide Sound, Linked, Sited, Flat, SameFlat, Filled, EmptyTable, NewSpace;
      ghost var h := View();
      var page := AllocPage(true, {});
      if page.None? {
        return None;
      }
      var root := page.value;
      ghost var m := View();
      NewRoot(m, freelist, pages, first, stop, root);
      tables := tables[root := EmptyTable()];
      use, at := use[root := At(Top(root))], at[Top(root) := root];
      IsNewSpace(h, m, root);
      assert View() == WithRoot(m, root);
      r := page;
    }

    /** A new address space with the trampoline and the trap frame mapped. When memory runs out, every
        frame is back on the list. */
    method CreatePagetable(trampoline: nat, trapframe: nat) returns (r: Option<nat>)
      requires Valid({}) && IsShared(use, trampoline) && IsShared(use, trapframe)
      modifies this
      ensures Valid({})
      ensures r.Some? ==>
                var root := r.value;
                && Top(root) in at && MadeFrom(old(use), use, root)
                && Bootable(View(), root, trampoline, trapframe) && ProcessSpace(View(), root, 0)
      ensures OthersSame(old(View()), View(), r) && PagesKept(old(use), old(pages), pages)
      ensures r.None? ==> use == old(use) && |old(freelist)| < 5
      ensures r.Some? ==> |freelist| + 5 >= |old(freelist)|
    {
      hide Sound, Linked, Sited, Flat, Index, PageOf, MapsRange, MapUse, Dropped, MadeFrom, SameFlat, Bootable,
           ProcessSpace, OwnPages, UnmappedFrom, OthersSame, NewSpace, UnmapsRange, UnmapUse, PagesKept,
           PagesKeptBut;
      ghost var h, pages0 := View(), pages;
      NothingDone(h);
      var created := CreateRoot();
      if created.None? {
        return None;
      }
      var root := created.value;
      ghost var m0, pagesA := View(), pages;
      OnePage(TRAMPOLINE, trampoline);
      OnePage(TRAPFRAME, trapframe);
      NewSpaceThere(h, m0, root);
      NewSpaceShares(h, m0, root, trampoline);
      NewSpaceShares(h, m0, root, trapframe);
      var r1, done1 := Map(root, TRAMPOLINE, trampoline * PAGE, PAGE, CODE, false);
      ghost var m1, pagesB := View(), pages;
      if !r1.Mapping? {
        NewSpaceFailed(h, m0, m1, root, trampoline, CODE);
        AlignedSize(0);
        var freed := FreeTable(root, 0);
        NewSpaceDropped(h, m0, m1, View(), root);
        NewSpaceKept(h, m0, m1, root, pages0, pagesA, pagesB);
        KeptAgain(h.use, m1.use, root, pages0, pagesB, pages);
        return None;
      }
      SharedStays(m0.use, use, root, PAGES - 1, 1, trampoline, trapframe);
      var r2, done2 := Map(root, TRAPFRAME, trapframe * PAGE, PAGE, DATA, false);
      ghost var m2, pagesC := View(), pages;
      NewSpaceMapped(h, m0, m1, m2, root, trampoline, trapframe, done2);
      NewSpaceKept(h, m0, m1, root, pages0, pagesA, pagesB);
      PagesKeptTwice(h.use, m1.use, pages0, pagesB, pagesC);
      if !r2.Mapping? {
        Unmap(root, TRAMPOLINE, 1, false);
        ghost var m3, pagesD := View(), pages;
        NewSpaceUnmapped(h, m0, m1, m2, m3, root, trampoline, trapframe);
        KeptStill(h.use, m2.use, m3.use, root, pages0, pagesC, pagesD);
        AlignedSize(0);
        var freed := FreeTable(root, 0);
        NewSpaceDropped(h, m0, m3, View(), root);
        KeptAgain(h.use, m3.use, root, pages0, pagesD, pages);
        return None;
      }
      SoundLinked(View(), {}, freelist, pages, first, stop);
      NewSpaceReady(h, m0, m1, m2, root, trampoline, trapframe);
      r := Some(root);
    }

    /** The frame a user address lies in. */
    method TranslateAddress(root: nat, address: nat) returns (r: Translation)
      requires Valid({}) && Top(root) in at
      modifies this
      ensures View() == old(View()) && pages == old(pages) && freelist == old(freelist)
      ensures r.Physical? <==> Accessible(View(), root, address)
      ensures r.Physical? ==>
                && r.frame == FrameAt(View(), root, address)
                && r.frame in pages && |pages[r.frame]| == PAGE && r.frame in use && use[r.frame] != Free
      ensures r.OutOfRange? <==> address >= MAX_ADDRESS
      ensures r.NotUserPage? <==>
                address < MAX_ADDRESS && Flat(View(), root, address / PAGE).Some? && !Accessible(View(), root, address)
    {
      hide Sound, Linked, Sited, Flat, Index, PagesKept, SameFlat, TablesAdded;
      if address >= MAX_ADDRESS {
        return OutOfRange;
      }
      ghost var v := address / PAGE;
      var entry := Walk(root, address, false);
      if !entry.Found? {
        return NoTable;
      }
      FlatEntry(View(), root, v);
      var e := tables[entry.table][entry.index];
      if !e.valid {
        return NotValidPage;
      }
      if !e.user {
        return NotUserPage;
      }
      FrameInUse(View(), freelist, pages, first, stop, root, v);
      r := Physical(e.frame);
    }

    /** Kernel bytes to user memory, page by page. Pages before one that fails keep what was written. */
    method CopyOut(root: nat, start: nat, src: seq<Byte>) returns (ok: bool, ghost copied: nat)
      requires Valid({}) && Top(root) in at
      modifies this
      ensures Valid({}) && View() == old(View()) && freelist == old(freelist)
      ensures copied <= |src| && Reachable(View(), old(pages), root, start, copied)
      ensures pages == Written(View(), old(pages), root, start, src[..copied])
      ensures ok <==> forall a: nat | start <= a < start + |src| :: Accessible(View(), root, a)
      ensures ok ==> copied == |src|
      ensures !ok ==> copied < |src| && !Accessible(View(), root, start + copied)
    {
      hide Sound, Flat, Written, Accessible, FrameAt;
      ghost var m, pages0 := View(), pages;
      var destination, remaining := start, src;
      copied := 0;
      WrittenNothing(m, pages, root, start, src[..0]);
      while |remaining| > 0
        invariant copied <= |src| && remaining == src[copied..] && destination == start + copied
        invariant Valid({}) && View() == m && freelist == old(freelist)
        invariant pages == Written(m, pages0, root, start, src[..copied]) && Reachable(m, pages0, root, start, copied)
        decreases |remaining|
      {
        var aligned := destination / PAGE * PAGE;
        AlignedAccess(m, root, destination);
        var r := TranslateAddress(root, aligned);
        if !r.Physical? {
          return false, copied;
        }
        var offset := destination % PAGE;
        var count := if PAGE - offset < |remaining| then PAGE - offset else |remaining|;
        WrittenChunk(m, pages0, root, start, src, copied, count);
        ReachableMore(m, pages0, root, start, copied, count);
        assert remaining[..count] == src[copied..copied + count];
        Refilled(m, {}, freelist, pages, first, stop, r.frame, Overwritten(pages[r.frame], offset, remaining[..count]));
        pages := pages[r.frame := Overwritten(pages[r.frame], offset, remaining[..count])];
        remaining := remaining[count..];
        destination := destination + count;
        copied := copied + count;
      }
      ok := true;
    }

    /** User memory to kernel bytes. What `dst` holds after a failure is the part before the page that
        failed. */
    method CopyIn(root: nat, dst: array<Byte>, start: nat) returns (ok: bool)
      requires Valid({}) && Top(root) in at
      modifies this, dst
      ensures View() == old(View()) && pages == old(pages) && freelist == old(freelist)
      ensures ok ==> forall a: nat | start <= a < start + dst.Length :: ByteAt(View(), pages, root, a) == Some(dst[a - start])
      ensures ok <==> forall a: nat | start <= a < start + dst.Length :: Accessible(View(), root, a)
    {
      hide Sound, Flat, Accessible, FrameAt, ByteAt;
      ghost var m := View();
      var source, done := start, 0;
      while done < dst.Length
        invariant done <= dst.Length && source == start + done
        invariant View() == m && pages == old(pages) && freelist == old(freelist)
        invariant done == dst.Length || done == 0 || source % PAGE == 0
        invariant forall a: nat | start <= a < start + done :: Accessible(m, root, a) && ByteAt(m, pages, root, a) == Some(dst[a - start])
      {
        var aligned := source / PAGE * PAGE;
        AlignedAccess(m, root, source);
        var r := TranslateAddress(root, aligned);
        if !r.Physical? {
          return false;
        }
        var offset := source % PAGE;
        var count := if PAGE - offset < dst.Length - done then PAGE - offset else dst.Length - done;
        var page := pages[r.frame];
        forall i | 0 <= i < count {
          dst[done + i] := page[offset + i];
        }
        ChunkRead(m, pages, root, source, count, r.frame);
        forall a: nat | source <= a < source + count
          ensures Accessible(m, root, a) && ByteAt(m, pages, root, a) == Some(dst[a - start])
        {
          assert dst[done + (a - source)] == page[offset + (a - source)];
        }
        if count < dst.Length - done {
          NextPage(source, count);
        }
        done := done + count;
        source := source + count;
      }
      ok := true;
    }

    /** What is copied out is what is copied in, across pages, exactly when addresses that are the same
        place are given the same byte. */
    method RoundTrip(root: nat, start: nat, src: seq<Byte>) returns (ok: bool, back: array<Byte>)
      requires Valid({}) && Top(root) in at
      modifies this
      ensures back.Length == |src| && View() == old(View())
      ensures ok <==> forall a: nat | start <= a < start + |src| :: Accessible(View(), root, a)
      ensures ok ==> (back[..] == src <==> Agrees(View(), root, start, src))
      ensures DistinctFrames(View(), root, start, |src|) ==> Agrees(View(), root, start, src)
    {
      hide Sound, Flat, Accessible, DistinctFrames, FrameAt, ByteAt, Written, Agrees;
      ghost var m, pages0 := View(), pages;
      ghost var copied;
      ok, copied := CopyOut(root, start, src);
      back := new Byte[|src|];
      if DistinctFrames(m, root, start, |src|) {
        DistinctAgrees(m, root, start, src);
      }
      if ok {
        assert src[..copied] == src;
        ok := CopyIn(root, back, start);
        ReadBack(m, pages0, pages, root, start, src, back[..]);
      }
    }
  }
}
