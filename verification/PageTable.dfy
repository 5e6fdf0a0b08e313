/** Sv39 page tables as the hardware reads them, and who owns every page frame they are made of. */
module PageTables {
  import opened Wrappers

  const PAGE := 4096
  const ENTRIES := 512
  const MAX_ADDRESS := 0x40_0000_0000

  datatype Permissions = Permissions(read: bool, write: bool, execute: bool)

  /** A page-table entry; without permissions it leads to a lower table. */
  datatype Entry = Entry(valid: bool, permissions: Permissions, user: bool, frame: nat)

  const NO_PERMISSIONS := Permissions(false, false, false)
  const NO_ENTRY := Entry(false, NO_PERMISSIONS, false, 0)

  predicate IsBranch(e: Entry) {
    e.permissions == NO_PERMISSIONS
  }

  function Branch(frame: nat): Entry {
    Entry(true, NO_PERMISSIONS, false, frame)
  }

  function EmptyTable(): seq<Entry> {
    seq(ENTRIES, i => NO_ENTRY)
  }

  /** A place in the address space of `root`: its tables, and the pages of its own. */
  datatype Spot =
    | Top(root: nat)
    | Middle(root: nat, a: nat)
    | Bottom(root: nat, a: nat, b: nat)
    | Page(root: nat, a: nat, b: nat, c: nat)

  /** What a frame of physical memory is used for. */
  datatype Use =
    | Free                // on the allocator's list
    | Held                // allocated, not in any address space
    | Shared              // the kernel's own: may be mapped anywhere, owned by no address space
    | At(spot: Spot)      // a table, or a page owned by the one entry that maps it

  function Child(s: Spot, i: nat): Spot {
    match s
    case Top(r) => Middle(r, i)
    case Middle(r, a) => Bottom(r, a, i)
    case Bottom(r, a, b) => Page(r, a, b, i)
    case Page(_, _, _, _) => s
  }

  function Parent(s: Spot): Spot {
    match s
    case Top(r) => s
    case Middle(r, _) => Top(r)
    case Bottom(r, a, _) => Middle(r, a)
    case Page(r, a, b, _) => Bottom(r, a, b)
  }

  /** Addresses stop at 2^38, so a root table uses half its entries. */
  predicate InTables(s: Spot) {
    && (s.Middle? || s.Bottom? || s.Page? ==> s.a < ENTRIES / 2)
    && (s.Bottom? || s.Page? ==> s.b < ENTRIES)
    && (s.Page? ==> s.c < ENTRIES)
  }

  /** Physical memory: the tables, the use of every frame, and the frame at every spot. */
  datatype Memory = Memory(tables: map<nat, seq<Entry>>, use: map<nat, Use>, at: map<Spot, nat>)

  predicate IsShared(use: map<nat, Use>, f: nat) {
    f in use && use[f] == Shared
  }

  ghost predicate EntryOk(m: Memory, s: Spot, i: nat, e: Entry) {
    var c := Child(s, i);
    && (e.valid ==>
          && (s.Bottom? <==> !IsBranch(e))
          && (c in m.at ==> m.at[c] == e.frame)
          && (c !in m.at ==> s.Bottom? && IsShared(m.use, e.frame)))
    && (!e.valid ==> c !in m.at)
  }

  ghost predicate TableOk(m: Memory, s: Spot)
    requires s in m.at
  {
    && m.at[s] in m.tables && |m.tables[m.at[s]]| == ENTRIES
    && forall i | 0 <= i < ENTRIES :: EntryOk(m, s, i, m.tables[m.at[s]][i])
  }

  /** Every entry of every table leads where it should; the address spaces `torn` are being taken apart. */
  ghost predicate Linked(m: Memory, torn: set<nat>) {
    && (forall s | s in m.at && !s.Page? :: TableOk(m, s))
    && (forall s | s in m.at && !s.Top? && s.root !in torn :: Parent(s) in m.at)
    && (forall s | s in m.at :: InTables(s) && (s.Top? ==> m.at[s] == s.root))
  }

  /** Each frame is in one place, each place holds one frame. */
  ghost predicate Sited(m: Memory) {
    && (forall s | s in m.at :: m.at[s] in m.use && m.use[m.at[s]] == At(s))
    && (forall f | f in m.use && m.use[f].At? :: m.use[f].spot in m.at && m.at[m.use[f].spot] == f)
  }

  lemma Site(m: Memory, s: Spot)
    requires Sited(m) && s in m.at
    ensures m.at[s] in m.use && m.use[m.at[s]] == At(s)
  {
  }

  lemma Table(m: Memory, torn: set<nat>, s: Spot)
    requires Linked(m, torn) && s in m.at && !s.Page?
    ensures m.at[s] in m.tables && |m.tables[m.at[s]]| == ENTRIES && TableOk(m, s)
  {
  }

  lemma TableEntry(m: Memory, torn: set<nat>, s: Spot, i: nat)
    requires Linked(m, torn) && s in m.at && !s.Page? && i < ENTRIES
    ensures m.at[s] in m.tables && |m.tables[m.at[s]]| == ENTRIES
    ensures EntryOk(m, s, i, m.tables[m.at[s]][i])
  {
  }

  lemma ParentAbove(m: Memory, torn: set<nat>, s: Spot)
    requires Linked(m, torn) && s in m.at
    ensures InTables(s) && (!s.Top? && s.root !in torn ==> Parent(s) in m.at)
    ensures s.Top? ==> m.at[s] == s.root
  {
  }

  // ---------- the flat view ----------

  /** What a user page is mapped to. */
  datatype Leaf = Leaf(frame: nat, permissions: Permissions, user: bool)

  /** Entry number of page `v` in its table at `level`. */
  function Index(v: nat, level: nat): (i: nat)
    ensures i < ENTRIES
  {
    if level == 0 then v % ENTRIES
    else if level == 1 then v / ENTRIES % ENTRIES
    else v / (ENTRIES * ENTRIES) % ENTRIES
  }

  function BottomOf(r: nat, v: nat): Spot {
    Bottom(r, Index(v, 2), Index(v, 1))
  }

  function PageOf(r: nat, v: nat): Spot {
    Page(r, Index(v, 2), Index(v, 1), Index(v, 0))
  }

  /** The mapping of page `v` in the address space of `r`. */
  ghost function Flat(m: Memory, r: nat, v: nat): Option<Leaf> {
    var s := BottomOf(r, v);
    if s in m.at && m.at[s] in m.tables && |m.tables[m.at[s]]| == ENTRIES then
      var e := m.tables[m.at[s]][Index(v, 0)];
      if e.valid then Some(Leaf(e.frame, e.permissions, e.user)) else None
    else
      None
  }

  /** A write permission without a read permission is a reserved encoding: using such a page faults. */
  predicate Reserved(p: Permissions) {
    p.write && !p.read
  }

  function PagesBelow(level: nat): (n: nat)
    ensures n > 0
  {
    if level == 0 then 1 else ENTRIES * PagesBelow(level - 1)
  }

  /** Address translation as section 4.3.2 of the RISC-V privileged architecture has it, reading
      nothing but the tables. A leaf above the last level maps a whole stretch of aligned pages. */
  function Lookup(tables: map<nat, seq<Entry>>, table: nat, v: nat, level: nat): Option<Leaf>
    decreases level
  {
    if table !in tables || |tables[table]| != ENTRIES then None
    else
      var e := tables[table][Index(v, level)];
      var below := PagesBelow(level);
      if !e.valid || Reserved(e.permissions) then None
      else if e.permissions.read || e.permissions.execute then
        if e.frame % below != 0 then None
        else Some(Leaf(e.frame + v % below, e.permissions, e.user))
      else if level == 0 then None
      else Lookup(tables, e.frame, v, level - 1)
  }

  /** What the hardware makes of a mapping. */
  function Usable(leaf: Option<Leaf>): Option<Leaf> {
    if leaf.Some? && Reserved(leaf.value.permissions) then None else leaf
  }

  /** The three-level walk computes the flat view, but for reserved permissions; it meets no leaf above
      the last level. */
  lemma LookupIsFlat(m: Memory, r: nat, v: nat)
    requires Linked(m, {}) && Top(r) in m.at
    ensures Lookup(m.tables, r, v, 2) == Usable(Flat(m, r, v))
  {
    hide Linked;
    RootAt(m, r);
    MiddleAbove(m, r, v);
    var mid, bottom := Middle(r, Index(v, 2)), BottomOf(r, v);
    TableEntry(m, {}, Top(r), Index(v, 2));
    if mid in m.at {
      TableEntry(m, {}, mid, Index(v, 1));
      assert Lookup(m.tables, r, v, 2) == Lookup(m.tables, m.at[mid], v, 1);
      if bottom in m.at {
        TableEntry(m, {}, bottom, Index(v, 0));
        assert Lookup(m.tables, m.at[mid], v, 1) == Lookup(m.tables, m.at[bottom], v, 0);
      }
    }
  }

  lemma RootAt(m: Memory, r: nat)
    requires Linked(m, {}) && Top(r) in m.at
    ensures m.at[Top(r)] == r
  {
  }

  lemma MiddleAbove(m: Memory, r: nat, v: nat)
    requires Linked(m, {})
    ensures BottomOf(r, v) in m.at ==> Middle(r, Index(v, 2)) in m.at
  {
    assert BottomOf(r, v) in m.at ==> Parent(BottomOf(r, v)) in m.at;
  }

  /** Distinct pages below the top of the address space never share an entry. */
  lemma PagesDistinct(r: nat, v: nat, v': nat)
    requires v < MAX_ADDRESS / PAGE && v' < MAX_ADDRESS / PAGE
    requires BottomOf(r, v) == BottomOf(r, v') && Index(v, 0) == Index(v', 0)
    ensures v == v'
  {
    IndexParts(v);
    IndexParts(v');
  }

  lemma IndexParts(v: nat)
    requires v < MAX_ADDRESS / PAGE
    ensures v == Index(v, 2) * 0x40000 + Index(v, 1) * 0x200 + Index(v, 0)
  {
    assert v / 0x40000 == v / 0x200 / 0x200;
  }

  /** The index of an address as the code shifts and masks it, in terms of its page. */
  function PageIndex(address: nat, level: nat): nat
    requires level <= 2
  {
    address / (if level == 0 then 0x1000 else if level == 1 then 0x20_0000 else 0x4000_0000) % 0x200
  }

  lemma PageIndexOfPage(address: nat, level: nat)
    requires level <= 2
    ensures PageIndex(address, level) == Index(address / PAGE, level)
  {
  }

  // ---------- changing one entry ----------

  /** The table at `s` and the places its entries lead to are as before. */
  ghost predicate SameTable(m: Memory, m': Memory, s: Spot) {
    && s in m.at && s in m'.at && m'.at[s] == m.at[s]
    && m.at[s] in m.tables && m.at[s] in m'.tables && m'.tables[m.at[s]] == m.tables[m.at[s]]
    && (forall i | 0 <= i < ENTRIES ::
          var c := Child(s, i);
          (c in m'.at <==> c in m.at) && (c in m.at ==> m'.at[c] == m.at[c]))
    && (forall f | IsShared(m.use, f) :: IsShared(m'.use, f))
  }

  lemma SameTableOk(m: Memory, m': Memory, s: Spot)
    requires SameTable(m, m', s) && TableOk(m, s)
    ensures TableOk(m', s)
  {
  }

  lemma ChildrenDiffer(s: Spot, i: nat, s': Spot, i': nat)
    requires !s.Page? && !s'.Page? && Child(s, i) == Child(s', i')
    ensures s == s' && i == i'
  {
  }

  /** A new, empty table `f` under entry `i` of the table at `s`. */
  function WithTable(m: Memory, s: Spot, i: nat, f: nat): Memory
    requires s in m.at && m.at[s] in m.tables && i < |m.tables[m.at[s]]|
  {
    Memory(m.tables[m.at[s] := m.tables[m.at[s]][i := Branch(f)]][f := EmptyTable()],
           m.use[f := At(Child(s, i))],
           m.at[Child(s, i) := f])
  }

  /** An entry that can be given a table. */
  ghost predicate Vacant(m: Memory, s: Spot, i: nat) {
    && s in m.at && !s.Page? && i < ENTRIES && (s.Top? ==> i < ENTRIES / 2)
    && m.at[s] in m.tables && |m.tables[m.at[s]]| == ENTRIES && !m.tables[m.at[s]][i].valid
  }

  lemma TableOthers(m: Memory, s: Spot, i: nat, f: nat, s': Spot)
    requires Linked(m, {}) && Sited(m) && Vacant(m, s, i) && !s.Bottom? && f in m.use && m.use[f] == Held
    requires s' in m.at && !s'.Page? && s' != s
    ensures SameTable(m, WithTable(m, s, i, f), s')
  {
    hide Linked, Sited, TableOk, EntryOk;
    Table(m, {}, s');
    Site(m, s);
    Site(m, s');
    ChildlessTable(m, s, i);
    forall j: nat | 0 <= j < ENTRIES ensures Child(s', j) != Child(s, i) {
      if Child(s', j) == Child(s, i) {
        ChildrenDiffer(s', j, s, i);
      }
    }
  }

  lemma TableParent(m: Memory, s: Spot, i: nat, f: nat)
    requires Linked(m, {}) && Sited(m) && Vacant(m, s, i) && !s.Bottom? && f in m.use && m.use[f] == Held
    ensures TableOk(WithTable(m, s, i, f), s) && TableOk(WithTable(m, s, i, f), Child(s, i))
    ensures Child(s, i) !in m.at
  {
    hide Linked, Sited;
    Table(m, {}, s);
    Site(m, s);
    ChildlessTable(m, s, i);
    TableEntry(m, {}, s, i);
    var m' := WithTable(m, s, i, f);
    assert m'.at[s] == m.at[s];
  }

  /** Nothing is below an empty entry. */
  lemma ChildlessTable(m: Memory, s: Spot, i: nat)
    requires Linked(m, {}) && Vacant(m, s, i)
    ensures Child(s, i) !in m.at && forall j | 0 <= j < ENTRIES :: !s.Bottom? ==> Child(Child(s, i), j) !in m.at
  {
    TableEntry(m, {}, s, i);
    forall j | 0 <= j < ENTRIES ensures !s.Bottom? ==> Child(Child(s, i), j) !in m.at {
      if !s.Bottom? && Child(Child(s, i), j) in m.at {
        ParentAbove(m, {}, Child(Child(s, i), j));
      }
    }
  }

  lemma TableLinked(m: Memory, s: Spot, i: nat, f: nat)
    requires Linked(m, {}) && Sited(m) && Vacant(m, s, i) && !s.Bottom? && f in m.use && m.use[f] == Held
    ensures Linked(WithTable(m, s, i, f), {})
  {
    var m' := WithTable(m, s, i, f);
    hide Sited, TableOk, SameTable, EntryOk, Linked;
    TableParent(m, s, i, f);
    ParentAbove(m, {}, s);
    forall s' | s' in m'.at && !s'.Page? ensures TableOk(m', s') {
      if s' != s && s' != Child(s, i) {
        TableOthers(m, s, i, f, s');
        Table(m, {}, s');
        SameTableOk(m, m', s');
      }
    }
    forall s' | s' in m'.at
      ensures InTables(s') && (s'.Top? ==> m'.at[s'] == s'.root) && (!s'.Top? ==> Parent(s') in m'.at)
    {
      if s' != Child(s, i) {
        ParentAbove(m, {}, s');
      }
    }
    AllLinked(m', {});
  }

  lemma AllLinked(m: Memory, torn: set<nat>)
    requires forall s | s in m.at && !s.Page? :: TableOk(m, s)
    requires forall s | s in m.at && !s.Top? && s.root !in torn :: Parent(s) in m.at
    requires forall s | s in m.at :: InTables(s) && (s.Top? ==> m.at[s] == s.root)
    ensures Linked(m, torn)
  {
  }

  lemma TableSited(m: Memory, s: Spot, i: nat, f: nat)
    requires Linked(m, {}) && Sited(m) && Vacant(m, s, i) && !s.Bottom? && f in m.use && m.use[f] == Held
    ensures Sited(WithTable(m, s, i, f))
  {
    hide Linked;
    ChildlessTable(m, s, i);
  }

  /** Creating a table changes no translation. */
  lemma TableFlat(m: Memory, s: Spot, i: nat, f: nat, r: nat, v: nat)
    requires Linked(m, {}) && Sited(m) && Vacant(m, s, i) && !s.Bottom? && f in m.use && m.use[f] == Held
    ensures Flat(WithTable(m, s, i, f), r, v) == Flat(m, r, v)
  {
    hide Linked, Sited;
    ChildlessTable(m, s, i);
    var m', s' := WithTable(m, s, i, f), BottomOf(r, v);
    if s' in m.at {
      TableOthers(m, s, i, f, s');
    } else if s' == Child(s, i) {
      assert m'.tables[f] == EmptyTable();
    }
  }

  // ---------- mapping and unmapping one page ----------

  predicate IsHeld(use: map<nat, Use>, f: nat) {
    f in use && use[f] == Held
  }

  /** Entry `i` of bottom table `s` becomes `e`; a frame nobody had becomes the page's own. */
  function WithLeaf(m: Memory, s: Spot, i: nat, e: Entry): Memory
    requires s in m.at && m.at[s] in m.tables && i < |m.tables[m.at[s]]|
  {
    var tables := m.tables[m.at[s] := m.tables[m.at[s]][i := e]];
    if IsHeld(m.use, e.frame) then Memory(tables, m.use[e.frame := At(Child(s, i))], m.at[Child(s, i) := e.frame])
    else Memory(tables, m.use, m.at)
  }

  ghost predicate Mappable(m: Memory, s: Spot, i: nat, e: Entry) {
    && Vacant(m, s, i) && s.Bottom? && e.valid && !IsBranch(e)
    && (IsHeld(m.use, e.frame) || IsShared(m.use, e.frame))
  }

  /** Entry `i` of bottom table `s` is cleared; a frame that was the page's own is in hand again. */
  function WithoutLeaf(m: Memory, s: Spot, i: nat): Memory
    requires s in m.at && m.at[s] in m.tables && i < |m.tables[m.at[s]]|
  {
    var tables := m.tables[m.at[s] := m.tables[m.at[s]][i := NO_ENTRY]];
    var c := Child(s, i);
    if c in m.at then Memory(tables, m.use[m.at[c] := Held], m.at - {c}) else Memory(tables, m.use, m.at)
  }

  ghost predicate Mapped(m: Memory, s: Spot, i: nat) {
    && s in m.at && s.Bottom? && i < ENTRIES
    && m.at[s] in m.tables && |m.tables[m.at[s]]| == ENTRIES && m.tables[m.at[s]][i].valid
  }

  lemma LeafOthers(m: Memory, s: Spot, i: nat, e: Entry, s': Spot)
    requires Linked(m, {}) && Sited(m) && Mappable(m, s, i, e)
    requires s' in m.at && !s'.Page? && s' != s
    ensures SameTable(m, WithLeaf(m, s, i, e), s') && TableOk(WithLeaf(m, s, i, e), s')
  {
    hide Linked, Sited, TableOk, EntryOk;
    Table(m, {}, s');
    Site(m, s);
    Site(m, s');
    forall j: nat | 0 <= j < ENTRIES ensures Child(s', j) != Child(s, i) {
      if Child(s', j) == Child(s, i) {
        ChildrenDiffer(s', j, s, i);
      }
    }
    SameTableOk(m, WithLeaf(m, s, i, e), s');
  }

  lemma LeafTable(m: Memory, s: Spot, i: nat, e: Entry)
    requires Linked(m, {}) && Sited(m) && Mappable(m, s, i, e)
    ensures TableOk(WithLeaf(m, s, i, e), s) && Child(s, i) !in m.at
  {
    hide Linked, Sited;
    Table(m, {}, s);
    TableEntry(m, {}, s, i);
    Site(m, s);
  }

  lemma LeafLinked(m: Memory, s: Spot, i: nat, e: Entry)
    requires Linked(m, {}) && Sited(m) && Mappable(m, s, i, e)
    ensures Linked(WithLeaf(m, s, i, e), {})
  {
    var m' := WithLeaf(m, s, i, e);
    hide Sited, TableOk, SameTable, EntryOk, Linked;
    LeafTable(m, s, i, e);
    ParentAbove(m, {}, s);
    forall s' | s' in m'.at && !s'.Page? ensures TableOk(m', s') {
      if s' != s {
        LeafOthers(m, s, i, e, s');
      }
    }
    forall s' | s' in m'.at
      ensures InTables(s') && (s'.Top? ==> m'.at[s'] == s'.root) && (!s'.Top? ==> Parent(s') in m'.at)
    {
      if s' != Child(s, i) {
        ParentAbove(m, {}, s');
      }
    }
    AllLinked(m', {});
  }

  lemma LeafSited(m: Memory, s: Spot, i: nat, e: Entry)
    requires Linked(m, {}) && Sited(m) && Mappable(m, s, i, e)
    ensures Sited(WithLeaf(m, s, i, e))
  {
    hide Linked;
    LeafTable(m, s, i, e);
  }

  /** Mapping inserts one page into the flat view. */
  lemma LeafFlat(m: Memory, s: Spot, i: nat, e: Entry, r: nat, v: nat)
    requires Linked(m, {}) && Sited(m) && Mappable(m, s, i, e)
    ensures Flat(WithLeaf(m, s, i, e), r, v)
         == if BottomOf(r, v) == s && Index(v, 0) == i then Some(Leaf(e.frame, e.permissions, e.user))
            else Flat(m, r, v)
  {
    hide Linked, Sited, TableOk, Index;
    if BottomOf(r, v) in m.at && BottomOf(r, v) != s {
      LeafOthers(m, s, i, e, BottomOf(r, v));
    }
  }

  lemma UnleafOthers(m: Memory, s: Spot, i: nat, s': Spot)
    requires Linked(m, {}) && Sited(m) && Mapped(m, s, i)
    requires s' in m.at && !s'.Page? && s' != s
    ensures SameTable(m, WithoutLeaf(m, s, i), s') && TableOk(WithoutLeaf(m, s, i), s')
  {
    hide Linked, Sited, TableOk, EntryOk;
    Table(m, {}, s');
    Site(m, s);
    Site(m, s');
    if Child(s, i) in m.at {
      Site(m, Child(s, i));
    }
    forall j: nat | 0 <= j < ENTRIES ensures Child(s', j) != Child(s, i) {
      if Child(s', j) == Child(s, i) {
        ChildrenDiffer(s', j, s, i);
      }
    }
    SameTableOk(m, WithoutLeaf(m, s, i), s');
  }

  lemma UnleafTable(m: Memory, s: Spot, i: nat)
    requires Linked(m, {}) && Sited(m) && Mapped(m, s, i)
    ensures TableOk(WithoutLeaf(m, s, i), s)
  {
    hide Linked, Sited;
    Table(m, {}, s);
    Site(m, s);
    if Child(s, i) in m.at {
      Site(m, Child(s, i));
    }
  }

  lemma UnleafLinked(m: Memory, s: Spot, i: nat)
    requires Linked(m, {}) && Sited(m) && Mapped(m, s, i)
    ensures Linked(WithoutLeaf(m, s, i), {})
  {
    var m' := WithoutLeaf(m, s, i);
    hide Sited, TableOk, SameTable, EntryOk, Linked;
    UnleafTable(m, s, i);
    forall s' | s' in m'.at && !s'.Page? ensures TableOk(m', s') {
      if s' != s {
        UnleafOthers(m, s, i, s');
      }
    }
    forall s' | s' in m'.at
      ensures InTables(s') && (s'.Top? ==> m'.at[s'] == s'.root) && (!s'.Top? ==> Parent(s') in m'.at)
    {
      ParentAbove(m, {}, s');
    }
    AllLinked(m', {});
  }

  lemma UnleafSited(m: Memory, s: Spot, i: nat)
    requires Linked(m, {}) && Sited(m) && Mapped(m, s, i)
    ensures Sited(WithoutLeaf(m, s, i))
  {
    hide Linked;
  }

  /** Unmapping removes one page from the flat view. */
  lemma UnleafFlat(m: Memory, s: Spot, i: nat, r: nat, v: nat)
    requires Linked(m, {}) && Sited(m) && Mapped(m, s, i)
    ensures Flat(WithoutLeaf(m, s, i), r, v)
         == if BottomOf(r, v) == s && Index(v, 0) == i then None else Flat(m, r, v)
  {
    hide Linked, Sited, TableOk, Index;
    if BottomOf(r, v) in m.at && BottomOf(r, v) != s {
      UnleafOthers(m, s, i, BottomOf(r, v));
    }
  }

  /** With the user bit of an entry cleared. */
  function WithoutUser(m: Memory, s: Spot, i: nat): Memory
    requires s in m.at && m.at[s] in m.tables && i < |m.tables[m.at[s]]|
  {
    var t := m.at[s];
    m.(tables := m.tables[t := m.tables[t][i := m.tables[t][i].(user := false)]])
  }

  lemma UserlessLinked(m: Memory, s: Spot, i: nat)
    requires Linked(m, {}) && Sited(m) && Mapped(m, s, i)
    ensures Linked(WithoutUser(m, s, i), {}) && Sited(WithoutUser(m, s, i))
  {
    var m' := WithoutUser(m, s, i);
    hide TableOk, SameTable, EntryOk, Linked;
    forall s' | s' in m'.at && !s'.Page? ensures TableOk(m', s') {
      Site(m, s);
      Site(m, s');
      UserlessTable(m, s, i, s');
    }
    forall s' | s' in m'.at
      ensures InTables(s') && (s'.Top? ==> m'.at[s'] == s'.root) && (!s'.Top? ==> Parent(s') in m'.at)
    {
      ParentAbove(m, {}, s');
    }
    AllLinked(m', {});
  }

  lemma UserlessTable(m: Memory, s: Spot, i: nat, s': Spot)
    requires Linked(m, {}) && Sited(m) && Mapped(m, s, i) && s' in m.at && !s'.Page?
    ensures TableOk(WithoutUser(m, s, i), s')
  {
    hide Linked, Sited;
    Table(m, {}, s');
    Site(m, s);
    Site(m, s');
  }

  /** Only the user's access to one page is gone. */
  lemma UserlessFlat(m: Memory, s: Spot, i: nat, r: nat, v: nat)
    requires Sited(m) && Mapped(m, s, i)
    ensures Flat(WithoutUser(m, s, i), r, v)
         == if BottomOf(r, v) == s && Index(v, 0) == i then
              Some(Leaf(m.tables[m.at[s]][i].frame, m.tables[m.at[s]][i].permissions, false))
            else Flat(m, r, v)
  {
    hide Index;
    if BottomOf(r, v) in m.at && BottomOf(r, v) != s {
      Site(m, s);
      Site(m, BottomOf(r, v));
    }
  }

  // ---------- taking frames from the list and giving them back ----------

  function WithUse(m: Memory, f: nat, u: Use): Memory {
    m.(use := m.use[f := u])
  }

  /** Frames that are in no address space can change hands. */
  lemma UseLinked(m: Memory, torn: set<nat>, f: nat, u: Use)
    requires Linked(m, torn) && Sited(m) && f in m.use && m.use[f] in {Free, Held} && !u.At?
    ensures Linked(WithUse(m, f, u), torn) && Sited(WithUse(m, f, u))
    ensures forall r, v :: Flat(WithUse(m, f, u), r, v) == Flat(m, r, v)
  {
    hide Linked, Sited, TableOk, Index;
    var m' := WithUse(m, f, u);
    forall s' | s' in m'.at && !s'.Page? ensures TableOk(m', s') {
      Table(m, torn, s');
      SameTableOk(m, m', s');
    }
    forall s' | s' in m'.at
      ensures InTables(s') && (s'.Top? ==> m'.at[s'] == s'.root)
      ensures !s'.Top? && s'.root !in torn ==> Parent(s') in m'.at
    {
      ParentAbove(m, torn, s');
    }
    AllLinked(m', torn);
    UseSited(m, f, u);
  }

  lemma UseSited(m: Memory, f: nat, u: Use)
    requires Sited(m) && f in m.use && !m.use[f].At? && !u.At?
    ensures Sited(WithUse(m, f, u))
  {
  }

  /** No page of any address space is mapped to the frame. */
  ghost predicate Nowhere(m: Memory, f: nat) {
    forall r: nat, v: nat | v < MAX_ADDRESS / PAGE && Flat(m, r, v).Some? :: Flat(m, r, v).value.frame != f
  }

  lemma NowhereTable(m: Memory, f: nat, s: Spot)
    requires Linked(m, {}) && f in m.use && Nowhere(m, f) && s in m.at && !s.Page?
    ensures TableOk(WithUse(m, f, Held), s)
  {
    hide Linked, Nowhere, Flat;
    var m' := WithUse(m, f, Held);
    Table(m, {}, s);
    forall i: nat | i < ENTRIES ensures EntryOk(m', s, i, m'.tables[m'.at[s]][i]) {
      TableEntry(m, {}, s, i);
      var e := m.tables[m.at[s]][i];
      if e.valid && s.Bottom? {
        NowhereEntry(m, f, s, i);
      }
    }
  }

  lemma NowhereEntry(m: Memory, f: nat, s: Spot, i: nat)
    requires Linked(m, {}) && Nowhere(m, f) && s in m.at && s.Bottom? && i < ENTRIES
    requires m.at[s] in m.tables && |m.tables[m.at[s]]| == ENTRIES && m.tables[m.at[s]][i].valid
    ensures m.tables[m.at[s]][i].frame != f
  {
    hide Linked;
    ParentAbove(m, {}, s);
    var v := s.a * 0x40000 + s.b * 0x200 + i;
    SpotOfPage(s.root, s.a, s.b, i);
    assert Flat(m, s.root, v).Some?;
  }

  /** A shared frame that is mapped nowhere can be taken back into hand. */
  lemma UnshareLinked(m: Memory, f: nat)
    requires Linked(m, {}) && Sited(m) && IsShared(m.use, f) && Nowhere(m, f)
    ensures Linked(WithUse(m, f, Held), {}) && Sited(WithUse(m, f, Held))
    ensures forall r, v :: Flat(WithUse(m, f, Held), r, v) == Flat(m, r, v)
  {
    hide Linked, Sited, TableOk, Index, Nowhere;
    var m' := WithUse(m, f, Held);
    forall s | s in m'.at && !s.Page? ensures TableOk(m', s) {
      NowhereTable(m, f, s);
    }
    forall s | s in m'.at
      ensures InTables(s) && (s.Top? ==> m'.at[s] == s.root) && (!s.Top? ==> Parent(s) in m'.at)
    {
      ParentAbove(m, {}, s);
    }
    AllLinked(m', {});
    UseSited(m, f, Held);
  }

  /** A frame on the list or in hand is mapped nowhere. */
  lemma UnusedNowhere(m: Memory, f: nat)
    requires Linked(m, {}) && Sited(m) && f in m.use && m.use[f] in {Free, Held}
    ensures Nowhere(m, f)
  {
    hide Linked, Sited, Index;
    forall r: nat, v: nat | v < MAX_ADDRESS / PAGE && Flat(m, r, v).Some? ensures Flat(m, r, v).value.frame != f {
      TableEntry(m, {}, BottomOf(r, v), Index(v, 0));
      if PageOf(r, v) in m.at {
        Site(m, PageOf(r, v));
      }
    }
  }

  // ---------- taking an address space apart ----------

  /** `x` is `s` or somewhere below it. */
  predicate Under(x: Spot, s: Spot) {
    && x.root == s.root
    && match s
       case Top(_) => true
       case Middle(_, a) => !x.Top? && x.a == a
       case Bottom(_, a, b) => (x.Bottom? || x.Page?) && x.a == a && x.b == b
       case Page(_, _, _, _) => x == s
  }

  /** The entry of `s` on the way down to `x`. */
  function Step(x: Spot, s: Spot): nat
    requires Under(x, s) && x != s
  {
    match s
    case Top(_) => x.a
    case Middle(_, _) => x.b
    case Bottom(_, _, _) => x.c
    case Page(_, _, _, _) => 0
  }

  lemma StepDown(x: Spot, s: Spot)
    requires Under(x, s) && x != s
    ensures !s.Page? && Under(x, Child(s, Step(x, s))) && (InTables(x) ==> Step(x, s) < ENTRIES)
  {
  }

  lemma UnderChild(x: Spot, s: Spot, i: nat)
    requires !s.Page? && Under(x, Child(s, i))
    ensures Under(x, s) && x != s && Step(x, s) == i
  {
  }

  /** Below `s` every place hangs on the one above it. */
  ghost predicate Whole(m: Memory, s: Spot) {
    forall x | x in m.at && Under(x, s) && x != s :: Parent(x) in m.at
  }

  /** Without the entry on the way down there is nothing at the end of the way. */
  lemma StepThere(m: Memory, s: Spot, x: Spot)
    requires Whole(m, s) && x in m.at && Under(x, s) && x != s
    ensures Child(s, Step(x, s)) in m.at
  {
    if x != Child(s, Step(x, s)) {
      var y := Parent(x);
      assert y in m.at && Under(y, s) && y != s;
      if y != Child(s, Step(x, s)) {
        assert Parent(y) in m.at;
      }
    }
  }

  ghost predicate NoEntries(table: seq<Entry>) {
    forall i | 0 <= i < |table| :: !table[i].valid
  }

  /** No page is mapped below `s`. */
  ghost predicate Bare(m: Memory, s: Spot) {
    forall x | x in m.at && x.Bottom? && Under(x, s) :: m.at[x] in m.tables && NoEntries(m.tables[m.at[x]])
  }

  /** The table at `s` is in hand, and no longer in the address space. */
  function Detached(m: Memory, s: Spot): Memory
    requires s in m.at
  {
    Memory(m.tables, m.use[m.at[s] := Held], m.at - {s})
  }

  lemma DetachOthers(m: Memory, torn: set<nat>, s: Spot, s': Spot)
    requires Linked(m, torn) && Sited(m) && s in m.at && !s.Page? && (s.Top? || Parent(s) !in m.at)
    requires s' in m.at && !s'.Page? && s' != s
    ensures TableOk(Detached(m, s), s')
  {
    hide Linked, Sited, TableOk, EntryOk;
    Table(m, torn, s');
    Site(m, s);
    Site(m, s');
    forall j: nat | 0 <= j < ENTRIES ensures Child(s', j) != s {
      assert Parent(Child(s', j)) == s';
    }
    SameTableOk(m, Detached(m, s), s');
  }

  lemma DetachLinked(m: Memory, torn: set<nat>, s: Spot)
    requires Linked(m, torn) && Sited(m) && s in m.at && !s.Page? && (s.Top? || Parent(s) !in m.at)
    requires s.root in torn
    ensures Linked(Detached(m, s), torn) && Sited(Detached(m, s))
  {
    var m' := Detached(m, s);
    hide Linked, Sited, TableOk, EntryOk;
    DetachSited(m, s);
    forall s' | s' in m'.at && !s'.Page? ensures TableOk(m', s') {
      DetachOthers(m, torn, s, s');
    }
    forall s' | s' in m'.at
      ensures InTables(s') && (s'.Top? ==> m'.at[s'] == s'.root)
      ensures !s'.Top? && s'.root !in torn ==> Parent(s') in m'.at
    {
      ParentAbove(m, torn, s');
    }
    AllLinked(m', torn);
  }

  lemma DetachSited(m: Memory, s: Spot)
    requires Sited(m) && s in m.at
    ensures Sited(Detached(m, s))
  {
  }

  /** The tables of frames in no address space may change. */
  lemma HeldTable(m: Memory, torn: set<nat>, tables: map<nat, seq<Entry>>)
    requires Linked(m, torn) && Sited(m)
    requires forall s | s in m.at && !s.Page? && m.at[s] in m.tables ::
               m.at[s] in tables && tables[m.at[s]] == m.tables[m.at[s]]
    ensures Linked(m.(tables := tables), torn) && Sited(m.(tables := tables))
  {
    var m' := m.(tables := tables);
    hide Linked, TableOk, EntryOk;
    forall s' | s' in m'.at && !s'.Page? ensures TableOk(m', s') {
      Table(m, torn, s');
      SameTableOk(m, m', s');
    }
    forall s' | s' in m'.at
      ensures InTables(s') && (s'.Top? ==> m'.at[s'] == s'.root)
      ensures !s'.Top? && s'.root !in torn ==> Parent(s') in m'.at
    {
      ParentAbove(m, torn, s');
    }
    AllLinked(m', torn);
  }

  /** An address space that is gone needs no exception. */
  lemma NothingTorn(m: Memory, r: nat)
    requires Linked(m, {r}) && forall s | s in m.at :: s.root != r
    ensures Linked(m, {})
  {
  }

  lemma RootWhole(m: Memory, r: nat)
    requires Linked(m, {})
    ensures Whole(m, Top(r)) && Linked(m, {r})
  {
  }

  /** The frame is at `s` or below. */
  predicate Below(u: Use, s: Spot) {
    u.At? && Under(u.spot, s)
  }

  /** All that was at `s` or below is free; the rest is as it was. */
  ghost predicate Pruned(m: Memory, m': Memory, s: Spot) {
    && m'.use.Keys == m.use.Keys
    && (forall f | f in m.use :: m'.use[f] == if Below(m.use[f], s) then Free else m.use[f])
    && (forall x :: x in m'.at <==> x in m.at && !Under(x, s))
    && (forall x | x in m'.at :: m'.at[x] == m.at[x])
    && (forall f | f in m.tables && f in m.use && !Below(m.use[f], s) :: f in m'.tables && m'.tables[f] == m.tables[f])
  }

  /** Below the first `i` entries of `s`. */
  predicate Done(x: Spot, s: Spot, i: nat) {
    Under(x, s) && x != s && Step(x, s) < i
  }

  /** The table at `s` is in hand, and all below its first `i` entries is free. */
  ghost predicate PrunedTo(m: Memory, m': Memory, s: Spot, i: nat)
    requires s in m.at
  {
    var t := m.at[s];
    && m'.use.Keys == m.use.Keys && t in m.use && m'.use[t] == Held
    && (forall f | f in m.use && f != t ::
          m'.use[f] == if m.use[f].At? && Done(m.use[f].spot, s, i) then Free else m.use[f])
    && (forall x :: x in m'.at <==> x in m.at && x != s && !Done(x, s, i))
    && (forall x | x in m'.at :: m'.at[x] == m.at[x])
    && (forall f | f in m.tables && f in m.use && f != t && !(m.use[f].At? && Done(m.use[f].spot, s, i)) ::
          f in m'.tables && m'.tables[f] == m.tables[f])
    && t in m.tables && t in m'.tables && |m.tables[t]| == ENTRIES && |m'.tables[t]| == ENTRIES
    && (forall j | i <= j < ENTRIES :: m'.tables[t][j] == m.tables[t][j])
  }

  lemma PruneStart(m: Memory, torn: set<nat>, s: Spot)
    requires Linked(m, torn) && Sited(m) && s in m.at && !s.Page?
    ensures PrunedTo(m, Detached(m, s), s, 0)
  {
    hide Linked, TableOk;
    Table(m, torn, s);
    Site(m, s);
  }

  /** An empty entry has nothing below it. */
  lemma PruneSkip(m: Memory, m': Memory, torn: set<nat>, s: Spot, i: nat)
    requires Linked(m, torn) && Sited(m) && s in m.at && !s.Page? && i < ENTRIES && Whole(m, s)
    requires PrunedTo(m, m', s, i) && !m.tables[m.at[s]][i].valid
    ensures PrunedTo(m, m', s, i + 1)
  {
    hide Linked, Whole, Under, Step, Sited;
    TableEntry(m, torn, s, i);
    forall x | x in m.at && Done(x, s, i + 1) ensures Done(x, s, i) {
      if Step(x, s) == i {
        StepThere(m, s, x);
      }
    }
    forall f | f in m.use && m.use[f].At? ensures m.use[f].spot in m.at {
      SiteThere(m, f);
    }
  }

  lemma SiteThere(m: Memory, f: nat)
    requires Sited(m) && f in m.use && m.use[f].At?
    ensures m.use[f].spot in m.at && m.at[m.use[f].spot] == f
  {
  }

  /** A valid entry leads to a table that is still there, or is a leaf and something is mapped. */
  lemma PruneReady(m: Memory, m': Memory, torn: set<nat>, s: Spot, i: nat)
    requires Linked(m, torn) && Sited(m) && s in m.at && !s.Page? && i < ENTRIES && Whole(m, s)
    requires PrunedTo(m, m', s, i) && m.tables[m.at[s]][i].valid
    ensures IsBranch(m.tables[m.at[s]][i]) ==>
              var c := Child(s, i);
              && !s.Bottom? && c in m'.at && m'.at[c] == m.tables[m.at[s]][i].frame
              && !c.Page? && !c.Top? && Parent(c) !in m'.at && c.root == s.root
    ensures !IsBranch(m.tables[m.at[s]][i]) ==> !Bare(m, s)
  {
    hide Linked, Sited, Whole;
    TableEntry(m, torn, s, i);
    if s.Bottom? && Bare(m, s) {
      BareEntry(m, s, i);
    }
  }

  lemma BareEntry(m: Memory, s: Spot, i: nat)
    requires Bare(m, s) && s in m.at && s.Bottom?
    ensures m.at[s] in m.tables && (i < |m.tables[m.at[s]]| ==> !m.tables[m.at[s]][i].valid)
  {
    assert Under(s, s) && NoEntries(m.tables[m.at[s]]);
  }

  lemma PruneReadyBelow(m: Memory, m': Memory, torn: set<nat>, s: Spot, i: nat)
    requires Linked(m, torn) && Sited(m) && s in m.at && !s.Page? && i < ENTRIES && Whole(m, s)
    requires PrunedTo(m, m', s, i)
    ensures Whole(m', Child(s, i)) && (Bare(m', Child(s, i)) <==> Bare(m, Child(s, i)))
  {
    hide Linked, Sited, Step, NoEntries, TableOk;
    var c := Child(s, i);
    forall x | Under(x, c) ensures Under(x, s) && x != s && Step(x, s) == i {
      UnderChild(x, s, i);
    }
    forall x | x in m'.at && Under(x, c) && x != c ensures Parent(x) in m'.at {
      assert Under(Parent(x), c);
      assert Parent(x) in m.at;
    }
    forall x | x in m.at && x.Bottom? && Under(x, c)
      ensures x in m'.at && m'.at[x] == m.at[x]
      ensures m.at[x] in m.tables && m.at[x] in m'.tables && m'.tables[m.at[x]] == m.tables[m.at[x]]
    {
      Table(m, torn, x);
      Site(m, x);
      Site(m, s);
    }
  }

  lemma BareBelow(m: Memory, s: Spot, i: nat)
    requires Bare(m, s) && !s.Page?
    ensures Bare(m, Child(s, i))
  {
    hide Step, NoEntries;
    forall x | Under(x, Child(s, i)) ensures Under(x, s) {
      UnderChild(x, s, i);
    }
  }

  /** Nothing is mapped below a table when nothing is below any of its entries. */
  lemma BareAbove(m: Memory, torn: set<nat>, s: Spot)
    requires Linked(m, torn) && s in m.at && !s.Page? && Whole(m, s) && m.at[s] in m.tables && |m.tables[m.at[s]]| == ENTRIES
    requires forall i: nat | i < ENTRIES && m.tables[m.at[s]][i].valid :: !s.Bottom? && Bare(m, Child(s, i))
    ensures Bare(m, s)
  {
    hide Linked, Whole, Step, TableOk;
    forall x | x in m.at && x.Bottom? && Under(x, s) ensures m.at[x] in m.tables && NoEntries(m.tables[m.at[x]]) {
      if x != s {
        ParentAbove(m, torn, x);
        StepThere(m, s, x);
        StepDown(x, s);
        TableEntry(m, torn, s, Step(x, s));
        assert Bare(m, Child(s, Step(x, s)));
      }
    }
  }

  lemma PruneChild(m: Memory, m1: Memory, m2: Memory, s: Spot, i: nat)
    requires Sited(m) && s in m.at && !s.Page? && i < ENTRIES
    requires PrunedTo(m, m1, s, i) && Pruned(m1, m2, Child(s, i))
    ensures var t := m.at[s];
            && t in m2.tables && |m2.tables[t]| == ENTRIES && t in m2.use && m2.use[t] == Held
            && PrunedTo(m, m2.(tables := m2.tables[t := m2.tables[t][i := NO_ENTRY]]), s, i + 1)
  {
    hide Sited, Under, Step;
    var t := m.at[s];
    forall x ensures Done(x, s, i + 1) <==> Done(x, s, i) || Under(x, Child(s, i)) {
      DoneMore(x, s, i);
    }
  }

  lemma DoneMore(x: Spot, s: Spot, i: nat)
    requires !s.Page?
    ensures Done(x, s, i + 1) <==> Done(x, s, i) || Under(x, Child(s, i))
  {
    if Under(x, Child(s, i)) {
      UnderChild(x, s, i);
    } else if Done(x, s, i + 1) {
      StepDown(x, s);
    }
  }

  lemma PruneEnd(m: Memory, m1: Memory, torn: set<nat>, s: Spot)
    requires Linked(m, torn) && Sited(m) && s in m.at && !s.Page? && PrunedTo(m, m1, s, ENTRIES)
    ensures Pruned(m, Memory(m1.tables - {m.at[s]}, m1.use[m.at[s] := Free], m1.at), s)
  {
    hide Linked, Sited, Step;
    Site(m, s);
    forall x | x in m.at ensures Under(x, s) <==> x == s || Done(x, s, ENTRIES) {
      ParentAbove(m, torn, x);
      if Under(x, s) && x != s {
        StepDown(x, s);
      }
    }
    forall f | f in m.use && m.use[f].At? ensures m.use[f].spot in m.at && m.at[m.use[f].spot] == f {
      SiteThere(m, f);
    }
  }

  // ---------- a new address space ----------

  function WithRoot(m: Memory, f: nat): Memory {
    Memory(m.tables[f := EmptyTable()], m.use[f := At(Top(f))], m.at[Top(f) := f])
  }

  /** Every place in an address space hangs on its root table. */
  lemma RootAbove(m: Memory, x: Spot)
    requires Linked(m, {}) && x in m.at
    ensures Top(x.root) in m.at
  {
    hide Linked;
    ParentAbove(m, {}, x);
    if !x.Top? {
      ParentAbove(m, {}, Parent(x));
      if !Parent(x).Top? {
        ParentAbove(m, {}, Parent(Parent(x)));
      }
    }
  }

  lemma NoSpots(m: Memory, f: nat, x: Spot)
    requires Linked(m, {}) && Sited(m) && f in m.use && !m.use[f].At? && x in m.at
    ensures x.root != f
  {
    hide Linked, Sited;
    if x.root == f {
      RootAbove(m, x);
      ParentAbove(m, {}, Top(f));
      Site(m, Top(f));
    }
  }

  lemma RootOthers(m: Memory, f: nat, s: Spot)
    requires Linked(m, {}) && Sited(m) && f in m.use && m.use[f] == Held && s in m.at && !s.Page?
    ensures SameTable(m, WithRoot(m, f), s) && TableOk(WithRoot(m, f), s) && Top(f) !in m.at
  {
    hide Linked, Sited, TableOk, EntryOk;
    Table(m, {}, s);
    Site(m, s);
    if Top(f) in m.at {
      ParentAbove(m, {}, Top(f));
      Site(m, Top(f));
    }
    SameTableOk(m, WithRoot(m, f), s);
  }

  lemma RootLinked(m: Memory, f: nat)
    requires Linked(m, {}) && Sited(m) && f in m.use && m.use[f] == Held
    ensures Linked(WithRoot(m, f), {})
  {
    var m' := WithRoot(m, f);
    hide Linked, Sited, SameTable;
    forall s | s in m'.at && !s.Page? ensures TableOk(m', s) {
      if s == Top(f) {
        NewRootTable(m, f);
      } else {
        RootOthers(m, f, s);
      }
    }
    forall s | s in m'.at
      ensures InTables(s) && (s.Top? ==> m'.at[s] == s.root) && (!s.Top? ==> Parent(s) in m'.at)
    {
      if s != Top(f) {
        ParentAbove(m, {}, s);
      }
    }
    AllLinked(m', {});
  }

  lemma NewRootTable(m: Memory, f: nat)
    requires Linked(m, {}) && Sited(m) && f in m.use && m.use[f] == Held
    ensures TableOk(WithRoot(m, f), Top(f))
  {
    hide Linked, Sited;
    forall i: nat | i < ENTRIES ensures Middle(f, i) !in m.at {
      if Middle(f, i) in m.at {
        NoSpots(m, f, Middle(f, i));
      }
    }
  }

  lemma RootSited(m: Memory, f: nat)
    requires Linked(m, {}) && Sited(m) && f in m.use && m.use[f] == Held
    ensures Sited(WithRoot(m, f))
  {
    hide Linked;
    if Top(f) in m.at {
      NoSpots(m, f, Top(f));
    }
  }

  /** A new address space maps nothing. */
  lemma RootFlat(m: Memory, f: nat, r: nat, v: nat)
    requires Linked(m, {}) && Sited(m) && f in m.use && m.use[f] == Held
    ensures Flat(WithRoot(m, f), r, v) == Flat(m, r, v) && Flat(m, f, v) == None
  {
    hide Linked, Sited, TableOk;
    if BottomOf(f, v) in m.at {
      NoSpots(m, f, BottomOf(f, v));
    }
    if BottomOf(r, v) in m.at {
      RootOthers(m, f, BottomOf(r, v));
    }
  }

  /** No leaf is found below the root just when no page is mapped. */
  lemma BareWhenUnmapped(m: Memory, r: nat)
    requires Linked(m, {})
    ensures Bare(m, Top(r)) <==> forall v: nat | v < MAX_ADDRESS / PAGE :: Flat(m, r, v) == None
  {
    hide Linked, Flat;
    if forall v: nat | v < MAX_ADDRESS / PAGE :: Flat(m, r, v) == None {
      BareIfUnmapped(m, r);
    }
    if Bare(m, Top(r)) {
      forall v: nat | v < MAX_ADDRESS / PAGE ensures Flat(m, r, v) == None {
        UnmappedIfBare(m, r, v);
      }
    }
  }

  lemma UnmappedIfBare(m: Memory, r: nat, v: nat)
    requires Bare(m, Top(r))
    ensures Flat(m, r, v) == None
  {
    assert Under(BottomOf(r, v), Top(r));
  }

  lemma BareIfUnmapped(m: Memory, r: nat)
    requires Linked(m, {})
    requires forall v: nat | v < MAX_ADDRESS / PAGE :: Flat(m, r, v) == None
    ensures Bare(m, Top(r))
  {
    hide Linked, Flat;
    forall x | x in m.at && x.Bottom? && Under(x, Top(r)) ensures m.at[x] in m.tables && NoEntries(m.tables[m.at[x]]) {
      Table(m, {}, x);
      ParentAbove(m, {}, x);
      forall i | 0 <= i < ENTRIES ensures !m.tables[m.at[x]][i].valid {
        var v := x.a * 0x40000 + x.b * 0x200 + i;
        SpotOfPage(r, x.a, x.b, i);
        NoLeaf(m, r, v);
      }
    }
  }

  lemma SpotOfPage(r: nat, a: nat, b: nat, c: nat)
    requires a < ENTRIES / 2 && b < ENTRIES && c < ENTRIES
    ensures var v := a * 0x40000 + b * 0x200 + c;
            v < MAX_ADDRESS / PAGE && BottomOf(r, v) == Bottom(r, a, b) && Index(v, 0) == c
  {
  }

  lemma NoLeaf(m: Memory, r: nat, v: nat)
    requires Flat(m, r, v) == None && BottomOf(r, v) in m.at
    requires m.at[BottomOf(r, v)] in m.tables && |m.tables[m.at[BottomOf(r, v)]]| == ENTRIES
    ensures !m.tables[m.at[BottomOf(r, v)]][Index(v, 0)].valid
  {
  }

  /** Taking one address space apart leaves the others alone. */
  lemma PrunedFlat(m: Memory, m': Memory, root: nat, r: nat, v: nat)
    requires Linked(m, {}) && Sited(m) && Pruned(m, m', Top(root)) && r != root
    ensures Flat(m', r, v) == Flat(m, r, v)
  {
    hide Linked, Sited, Index;
    if BottomOf(r, v) in m.at {
      Site(m, BottomOf(r, v));
      Table(m, {}, BottomOf(r, v));
    }
  }

  lemma PrunedNone(m: Memory, m': Memory, root: nat, v: nat)
    requires Pruned(m, m', Top(root))
    ensures Flat(m', root, v) == None && forall x | x in m'.at :: x.root != root
  {
    hide Index;
  }
}
