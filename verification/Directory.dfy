/** Directories and link counts: what link, unlink and create do to the tree, failures and roll-backs
    included. */
module Directories {
  import opened Wrappers

  const ROOT := 1
  const MAX_NAME := 27
  const DOT := "."
  const DOT_DOT := ".."

  datatype Kind = Free | Dir | File | Device

  /** An entry with inode number 0 is unused. */
  datatype Entry = Entry(inode: nat, name: string)

  const NO_ENTRY := Entry(0, "")

  datatype Inode = Inode(kind: Kind, links: nat, entries: seq<Entry>)

  const NO_INODE := Inode(Free, 0, [])

  /** `refs` has the entries that name each inode, "." aside, `home` the entry of each directory in its
      parent, and `depth` how far down it is. */
  datatype Tree = Tree(inodes: map<nat, Inode>, refs: map<nat, set<(nat, nat)>>, home: map<nat, (nat, nat)>, depth: map<nat, nat>)

  // ---------- one directory ----------

  predicate Used(entries: seq<Entry>, k: nat) {
    k < |entries| && entries[k].inode != 0
  }

  ghost predicate NamesUnique(entries: seq<Entry>) {
    forall j: nat, k: nat | j < k && Used(entries, j) && Used(entries, k) :: entries[j].name != entries[k].name
  }

  /** The first used entry with the name. */
  function Find(entries: seq<Entry>, name: string): (r: Option<nat>)
    ensures r.Some? ==> Used(entries, r.value) && entries[r.value].name == name
    ensures r.None? <==> forall k: nat | Used(entries, k) :: entries[k].name != name
  {
    FindFrom(entries, name, 0)
  }

  function FindFrom(entries: seq<Entry>, name: string, i: nat): (r: Option<nat>)
    requires i <= |entries|
    ensures r.Some? ==> i <= r.value && Used(entries, r.value) && entries[r.value].name == name
    ensures r.None? <==> forall k: nat | i <= k && Used(entries, k) :: entries[k].name != name
    decreases |entries| - i
  {
    if i == |entries| then None
    else if entries[i].inode != 0 && entries[i].name == name then Some(i)
    else FindFrom(entries, name, i + 1)
  }

  /** The first unused slot, or the one past the end. */
  function Vacancy(entries: seq<Entry>, i: nat): (k: nat)
    requires i <= |entries|
    ensures i <= k <= |entries| && (k < |entries| ==> entries[k].inode == 0)
    ensures forall j | i <= j < k :: entries[j].inode != 0
    decreases |entries| - i
  {
    if i == |entries| || entries[i].inode == 0 then i else Vacancy(entries, i + 1)
  }

  function Put(entries: seq<Entry>, k: nat, e: Entry): (r: seq<Entry>)
    requires k <= |entries|
    ensures |r| == (if k < |entries| then |entries| else |entries| + 1)
    ensures forall j | 0 <= j < |r| :: r[j] == if j == k then e else entries[j]
  {
    if k < |entries| then entries[k := e] else entries + [e]
  }

  /** After linkEntry the new name is there, the old ones still are, and names are unique. */
  lemma LookupAfterLink(entries: seq<Entry>, name: string, inode: nat, other: string)
    requires NamesUnique(entries) && Find(entries, name) == None && inode != 0
    ensures var k := Vacancy(entries, 0);
            var entries' := Put(entries, k, Entry(inode, name));
            && NamesUnique(entries') && Find(entries', name) == Some(k)
            && (other != name ==> Find(entries', other) == Find(entries, other))
  {
    var k := Vacancy(entries, 0);
    var entries' := Put(entries, k, Entry(inode, name));
    assert Used(entries', k);
    OnlyOne(entries', name, k);
    if other != name && Find(entries, other).Some? {
      var j := Find(entries, other).value;
      assert Used(entries', j);
      OnlyOne(entries', other, j);
    }
  }

  lemma OnlyOne(entries: seq<Entry>, name: string, k: nat)
    requires NamesUnique(entries) && Used(entries, k) && entries[k].name == name
    ensures Find(entries, name) == Some(k)
  {
  }

  // ---------- the whole tree ----------

  /** A directory somebody can still get to. */
  predicate Live(inodes: map<nat, Inode>, d: nat) {
    d in inodes && inodes[d].kind == Dir && inodes[d].links > 0
  }

  /** Entry `k` of live directory `d` names inode `i`, and counts. */
  predicate Names(inodes: map<nat, Inode>, d: nat, k: nat, i: nat) {
    Live(inodes, d) && 1 <= k && Used(inodes[d].entries, k) && inodes[d].entries[k].inode == i
  }

  /** A live directory starts with itself and its parent, and the parent is live. */
  ghost predicate DirOk(t: Tree, d: nat)
    requires d in t.inodes
  {
    var entries := t.inodes[d].entries;
    && |entries| >= 2 && entries[0] == Entry(d, DOT) && entries[1].name == DOT_DOT && entries[1].inode != 0
    && Live(t.inodes, entries[1].inode) && NamesUnique(entries) && (d == ROOT ==> entries[1].inode == ROOT)
  }

  /** A directory on its way out holds nothing but its first two entries. */
  ghost predicate OrphanOk(t: Tree, d: nat)
    requires d in t.inodes
  {
    var entries := t.inodes[d].entries;
    && Empty(entries) && entries[0] == Entry(d, DOT) && entries[1].name == DOT_DOT && entries[1].inode in t.inodes
  }

  ghost predicate Empty(entries: seq<Entry>) {
    |entries| >= 2 && forall k: nat | 2 <= k :: !Used(entries, k)
  }

  ghost predicate EntryOk(t: Tree, d: nat, k: nat)
    requires Live(t.inodes, d) && Used(t.inodes[d].entries, k)
  {
    var i := t.inodes[d].entries[k].inode;
    && i in t.inodes && t.inodes[i].kind != Free
    && (k >= 2 && t.inodes[i].kind == Dir ==> i != ROOT && Live(t.inodes, i) && i in t.home && t.home[i] == (d, k))
  }

  /** A directory other than the root is named once, in the directory its ".." names. */
  ghost predicate HomeOk(t: Tree, i: nat)
    requires Live(t.inodes, i)
  {
    i == ROOT
    || (&& i in t.home && t.home[i].1 >= 2 && Names(t.inodes, t.home[i].0, t.home[i].1, i)
        && |t.inodes[i].entries| >= 2 && t.inodes[i].entries[1].inode == t.home[i].0
        && i in t.depth && t.home[i].0 in t.depth && t.depth[t.home[i].0] < t.depth[i])
  }

  /** Every link count is the number of entries that name the inode. */
  ghost predicate CountOk(t: Tree, i: nat)
    requires i in t.inodes
  {
    && i in t.refs && (forall d: nat, k: nat :: (d, k) in t.refs[i] <==> Names(t.inodes, d, k, i))
    && t.inodes[i].links == |t.refs[i]|
  }

  ghost predicate Good(t: Tree) {
    && Live(t.inodes, ROOT) && 0 !in t.inodes && ROOT in t.depth
    && (forall i | i in t.inodes && t.inodes[i].kind == Free :: t.inodes[i] == NO_INODE)
    && (forall d | d in t.inodes && t.inodes[d].kind == Dir :: if t.inodes[d].links > 0 then DirOk(t, d) && HomeOk(t, d) else OrphanOk(t, d))
    && (forall d, k: nat | Live(t.inodes, d) && Used(t.inodes[d].entries, k) :: EntryOk(t, d, k))
    && (forall i | i in t.inodes :: CountOk(t, i))
  }

  lemma DirIs(t: Tree, d: nat)
    requires Good(t) && Live(t.inodes, d)
    ensures DirOk(t, d) && HomeOk(t, d) && CountOk(t, d)
  {
  }

  lemma EntryIs(t: Tree, d: nat, k: nat)
    requires Good(t) && Live(t.inodes, d) && Used(t.inodes[d].entries, k)
    ensures EntryOk(t, d, k)
  {
  }

  // ---------- a new name for a file ----------

  function WithFile(t: Tree, d: nat, k: nat, name: string, i: nat): Tree
    requires d in t.inodes && i in t.inodes && d != i && k <= |t.inodes[d].entries| && i in t.refs
  {
    var dir := t.inodes[d].(entries := Put(t.inodes[d].entries, k, Entry(i, name)));
    t.(inodes := t.inodes[d := dir][i := t.inodes[i].(links := t.inodes[i].links + 1)],
       refs := t.refs[i := t.refs[i] + {(d, k)}])
  }

  /** What naming file `i` in live directory `d` asks for. */
  ghost predicate CanName(t: Tree, d: nat, name: string, i: nat) {
    && Good(t) && Live(t.inodes, d) && i in t.inodes && t.inodes[i].kind in {File, Device} && d != i && i != 0
    && Find(t.inodes[d].entries, name) == None
  }

  lemma WithFileNames(t: Tree, d: nat, name: string, i: nat, d': nat, k': nat, i': nat)
    requires CanName(t, d, name, i) && i in t.refs
    ensures var k := Vacancy(t.inodes[d].entries, 0);
            && k >= 2 && !Used(t.inodes[d].entries, k)
            && (Names(WithFile(t, d, k, name, i).inodes, d', k', i')
                <==> Names(t.inodes, d', k', i') || (d' == d && k' == k && i' == i))
  {
    hide Good, Find;
    DirIs(t, d);
  }

  lemma WithFileDir(t: Tree, d: nat, name: string, i: nat, e: nat)
    requires CanName(t, d, name, i) && i in t.refs && Live(t.inodes, e)
    ensures var t' := WithFile(t, d, Vacancy(t.inodes[d].entries, 0), name, i);
            DirOk(t', e) && HomeOk(t', e)
  {
    hide Good, Find, Vacancy, FindFrom, Names, NamesUnique;
    DirIs(t, e);
    DirIs(t, d);
    LookupAfterLink(t.inodes[d].entries, name, i, name);
    WithFileNames(t, d, name, i, d, 0, 0);
    if e != ROOT {
      WithFileNames(t, d, name, i, t.home[e].0, t.home[e].1, e);
    }
  }

  lemma WithFileEntry(t: Tree, d: nat, name: string, i: nat, e: nat, j: nat)
    requires CanName(t, d, name, i) && i in t.refs
    requires var t' := WithFile(t, d, Vacancy(t.inodes[d].entries, 0), name, i);
             Live(t'.inodes, e) && Used(t'.inodes[e].entries, j)
    ensures EntryOk(WithFile(t, d, Vacancy(t.inodes[d].entries, 0), name, i), e, j)
  {
    hide Good, Find, Vacancy, FindFrom, Names, NamesUnique;
    WithFileNames(t, d, name, i, d, 0, 0);
    if !(e == d && j == Vacancy(t.inodes[d].entries, 0)) {
      EntryIs(t, e, j);
    }
  }

  lemma CountIs(t: Tree, x: nat)
    requires Good(t) && x in t.inodes
    ensures CountOk(t, x)
    ensures t.inodes[x].kind == Free ==> t.inodes[x] == NO_INODE
    ensures t.inodes[x].kind == Dir && t.inodes[x].links == 0 ==> OrphanOk(t, x)
  {
  }

  lemma WithFileCount(t: Tree, d: nat, name: string, i: nat, x: nat)
    requires CanName(t, d, name, i) && i in t.refs && x in t.inodes
    ensures CountOk(WithFile(t, d, Vacancy(t.inodes[d].entries, 0), name, i), x)
  {
    hide Good, Find, Vacancy, FindFrom, Names, NamesUnique;
    CountIs(t, x);
    var k := Vacancy(t.inodes[d].entries, 0);
    var t' := WithFile(t, d, k, name, i);
    WithFileNames(t, d, name, i, d, k, i);
    NotNamed(t, d, k, i);
    forall e: nat, j: nat ensures (e, j) in t'.refs[x] <==> Names(t'.inodes, e, j, x) {
      WithFileNames(t, d, name, i, e, j, x);
    }
  }

  lemma NotNamed(t: Tree, d: nat, k: nat, i: nat)
    requires Good(t) && i in t.inodes && d in t.inodes && !Used(t.inodes[d].entries, k)
    ensures i in t.refs && (d, k) !in t.refs[i]
  {
    CountIs(t, i);
  }

  lemma AllGood(t: Tree)
    requires Live(t.inodes, ROOT) && 0 !in t.inodes && ROOT in t.depth
    requires forall i | i in t.inodes && t.inodes[i].kind == Free :: t.inodes[i] == NO_INODE
    requires forall d | Live(t.inodes, d) :: DirOk(t, d) && HomeOk(t, d)
    requires forall d | d in t.inodes && t.inodes[d].kind == Dir && t.inodes[d].links == 0 :: OrphanOk(t, d)
    requires forall d, k: nat | Live(t.inodes, d) && Used(t.inodes[d].entries, k) :: EntryOk(t, d, k)
    requires forall i | i in t.inodes :: CountOk(t, i)
    ensures Good(t)
  {
    hide DirOk, HomeOk, EntryOk, CountOk, OrphanOk;
  }

  lemma RootIs(t: Tree)
    requires Good(t)
    ensures Live(t.inodes, ROOT) && 0 !in t.inodes && ROOT in t.depth
  {
  }

  lemma WithFileGood(t: Tree, d: nat, name: string, i: nat)
    requires CanName(t, d, name, i)
    ensures i in t.refs && Good(WithFile(t, d, Vacancy(t.inodes[d].entries, 0), name, i))
  {
    hide Good, Find, Vacancy, FindFrom, Names, NamesUnique, DirOk, HomeOk, EntryOk, CountOk, Put;
    CountRef(t, i);
    RootIs(t);
    var t' := WithFile(t, d, Vacancy(t.inodes[d].entries, 0), name, i);
    forall e | Live(t'.inodes, e) ensures DirOk(t', e) && HomeOk(t', e) {
      WithFileDir(t, d, name, i, e);
    }
    forall e | e in t'.inodes && t'.inodes[e].kind in {Dir, Free} && t'.inodes[e].links == 0
      ensures t'.inodes[e].kind == Dir ==> OrphanOk(t', e)
      ensures t'.inodes[e].kind == Free ==> t'.inodes[e] == NO_INODE
    {
      CountIs(t, e);
    }
    forall e | e in t'.inodes && t'.inodes[e].kind == Free ensures t'.inodes[e] == NO_INODE {
      CountIs(t, e);
    }
    forall e, j: nat | Live(t'.inodes, e) && Used(t'.inodes[e].entries, j) ensures EntryOk(t', e, j) {
      WithFileEntry(t, d, name, i, e, j);
    }
    forall x | x in t'.inodes ensures CountOk(t', x) {
      WithFileCount(t, d, name, i, x);
    }
    AllGood(t');
  }

  lemma CountRef(t: Tree, i: nat)
    requires Good(t) && i in t.inodes
    ensures i in t.refs
  {
    CountIs(t, i);
  }

  // ---------- a name goes ----------

  /** Entry `k` of `d`, which names a file, is cleared. */
  function WithoutFile(t: Tree, d: nat, k: nat): Tree
    requires d in t.inodes && k < |t.inodes[d].entries|
    requires var i := t.inodes[d].entries[k].inode; i in t.inodes && i != d && t.inodes[i].links > 0 && i in t.refs
  {
    var i := t.inodes[d].entries[k].inode;
    var dir := t.inodes[d].(entries := t.inodes[d].entries[k := NO_ENTRY]);
    t.(inodes := t.inodes[d := dir][i := t.inodes[i].(links := t.inodes[i].links - 1)],
       refs := t.refs[i := t.refs[i] - {(d, k)}])
  }

  ghost predicate CanRemove(t: Tree, d: nat, k: nat) {
    Good(t) && Live(t.inodes, d) && k >= 2 && Used(t.inodes[d].entries, k)
  }

  /** What is named has a link to lose, and is not the directory itself. */
  lemma NamedIs(t: Tree, d: nat, k: nat)
    requires CanRemove(t, d, k)
    ensures var i := t.inodes[d].entries[k].inode;
            && i in t.inodes && i != d && i != ROOT && t.inodes[i].links > 0 && i in t.refs && t.inodes[i].kind != Free
            && (d, k) in t.refs[i]
  {
    hide Good;
    var i := t.inodes[d].entries[k].inode;
    EntryIs(t, d, k);
    CountIs(t, i);
    DirIs(t, d);
    assert Names(t.inodes, d, k, i);
    RootIs(t);
    NotOwnHome(t, d, k);
  }

  lemma NotOwnHome(t: Tree, d: nat, k: nat)
    requires CanRemove(t, d, k)
    ensures t.inodes[d].entries[k].inode != d
  {
    hide Good;
    EntryIs(t, d, k);
    DirIs(t, d);
  }

  lemma WithoutFileNames(t: Tree, d: nat, k: nat, d': nat, k': nat, i': nat)
    requires CanRemove(t, d, k) && WithoutFile.requires(t, d, k)
    requires t.inodes[t.inodes[d].entries[k].inode].kind != Dir && i' != 0
    ensures Names(WithoutFile(t, d, k).inodes, d', k', i')
       <==> Names(t.inodes, d', k', i') && !(d' == d && k' == k)
  {
    hide Good;
  }

  lemma WithoutFileDir(t: Tree, d: nat, k: nat, e: nat)
    requires CanRemove(t, d, k) && WithoutFile.requires(t, d, k) && Live(t.inodes, e)
    requires t.inodes[t.inodes[d].entries[k].inode].kind != Dir
    ensures DirOk(WithoutFile(t, d, k), e) && HomeOk(WithoutFile(t, d, k), e)
  {
    hide Good, Names;
    DirIs(t, e);
    if e != ROOT {
      HomeNamed(t, e);
      WithoutFileNames(t, d, k, t.home[e].0, t.home[e].1, e);
    }
  }

  lemma HomeNamed(t: Tree, e: nat)
    requires Live(t.inodes, e) && HomeOk(t, e) && e != ROOT
    ensures e in t.home && Live(t.inodes, t.home[e].0) && Used(t.inodes[t.home[e].0].entries, t.home[e].1)
    ensures t.inodes[t.home[e].0].entries[t.home[e].1].inode == e && e != 0
  {
  }

  lemma WithoutFileCount(t: Tree, d: nat, k: nat, x: nat)
    requires CanRemove(t, d, k) && WithoutFile.requires(t, d, k) && x in t.inodes
    requires t.inodes[t.inodes[d].entries[k].inode].kind != Dir
    ensures CountOk(WithoutFile(t, d, k), x)
  {
    hide Good, Names;
    CountIs(t, x);
    NamedIs(t, d, k);
    RootIs(t);
    var t' := WithoutFile(t, d, k);
    forall e: nat, j: nat ensures (e, j) in t'.refs[x] <==> Names(t'.inodes, e, j, x) {
      WithoutFileNames(t, d, k, e, j, x);
      NamesOne(t.inodes, e, j, x);
    }
  }

  lemma NamesOne(inodes: map<nat, Inode>, e: nat, j: nat, x: nat)
    ensures Names(inodes, e, j, x) ==> e in inodes && j < |inodes[e].entries| && inodes[e].entries[j].inode == x
  {
  }

  lemma WithoutFileEntry(t: Tree, d: nat, k: nat, e: nat, j: nat)
    requires CanRemove(t, d, k) && WithoutFile.requires(t, d, k)
    requires t.inodes[t.inodes[d].entries[k].inode].kind != Dir
    requires Live(WithoutFile(t, d, k).inodes, e) && Used(WithoutFile(t, d, k).inodes[e].entries, j)
    ensures EntryOk(WithoutFile(t, d, k), e, j)
  {
    hide Good;
    EntryIs(t, e, j);
  }

  lemma WithoutFileGood(t: Tree, d: nat, k: nat)
    requires CanRemove(t, d, k) && t.inodes[d].entries[k].inode in t.inodes
    requires t.inodes[t.inodes[d].entries[k].inode].kind != Dir
    ensures WithoutFile.requires(t, d, k) && Good(WithoutFile(t, d, k))
  {
    hide Good, Names, DirOk, HomeOk, EntryOk, CountOk, OrphanOk;
    NamedIs(t, d, k);
    RootIs(t);
    var t' := WithoutFile(t, d, k);
    forall e | Live(t'.inodes, e) ensures DirOk(t', e) && HomeOk(t', e) {
      WithoutFileDir(t, d, k, e);
    }
    forall e | e in t'.inodes && t'.inodes[e].kind == Dir && t'.inodes[e].links == 0 ensures OrphanOk(t', e) {
      OrphanSame(t, t', e);
    }
    forall e | e in t'.inodes && t'.inodes[e].kind == Free ensures t'.inodes[e] == NO_INODE {
      CountIs(t, e);
    }
    forall e, j: nat | Live(t'.inodes, e) && Used(t'.inodes[e].entries, j) ensures EntryOk(t', e, j) {
      WithoutFileEntry(t, d, k, e, j);
    }
    forall x | x in t'.inodes ensures CountOk(t', x) {
      WithoutFileCount(t, d, k, x);
    }
    AllGood(t');
  }

  lemma OrphanSame(t: Tree, t': Tree, e: nat)
    requires Good(t) && e in t.inodes && t.inodes[e].kind == Dir && t.inodes[e].links == 0
    requires e in t'.inodes && t'.inodes[e] == t.inodes[e] && t'.inodes.Keys == t.inodes.Keys
    ensures OrphanOk(t', e)
  {
    CountIs(t, e);
  }

  // ---------- a directory goes ----------

  /** Entry `k` of `d`, which names an empty directory, is cleared, and the directory is an orphan. */
  function WithoutDir(t: Tree, d: nat, k: nat): Tree
    requires d in t.inodes && k < |t.inodes[d].entries|
    requires var i := t.inodes[d].entries[k].inode;
             i in t.inodes && i != d && t.inodes[i].links > 0 && t.inodes[d].links > 0 && i in t.refs && d in t.refs
  {
    var i := t.inodes[d].entries[k].inode;
    var dir := t.inodes[d].(entries := t.inodes[d].entries[k := NO_ENTRY], links := t.inodes[d].links - 1);
    t.(inodes := t.inodes[d := dir][i := t.inodes[i].(links := t.inodes[i].links - 1)],
       refs := t.refs[i := t.refs[i] - {(d, k)}][d := t.refs[d] - {(i, 1)}])
  }

  ghost predicate CanRemoveDir(t: Tree, d: nat, k: nat) {
    && CanRemove(t, d, k) && t.inodes[d].entries[k].inode in t.inodes
    && t.inodes[t.inodes[d].entries[k].inode].kind == Dir && Empty(t.inodes[t.inodes[d].entries[k].inode].entries)
  }

  /** Nothing but the one entry names an empty directory. */
  lemma NamedOnce(t: Tree, d: nat, k: nat, e: nat, j: nat)
    requires CanRemoveDir(t, d, k) && Names(t.inodes, e, j, t.inodes[d].entries[k].inode)
    ensures e == d && j == k
  {
    hide Good;
    var i := t.inodes[d].entries[k].inode;
    EntryIs(t, d, k);
    EntryIs(t, e, j);
    if j == 1 {
      DirIs(t, e);
    }
  }

  /** The directory has one link, and its parent has another beside the one it gave for "..". */
  lemma LinksEnough(t: Tree, d: nat, k: nat)
    requires CanRemoveDir(t, d, k)
    ensures var i := t.inodes[d].entries[k].inode;
            && i != d && i != ROOT && i in t.refs && d in t.refs && (d, k) in t.refs[i] && (i, 1) in t.refs[d]
            && t.refs[i] == {(d, k)} && t.inodes[i].links == 1 && t.inodes[d].links >= 2 && Live(t.inodes, i)
            && t.inodes[i].entries[1].inode == d && t.inodes[i].entries[0].inode == i
  {
    hide Good;
    var i := t.inodes[d].entries[k].inode;
    NamedIs(t, d, k);
    EntryIs(t, d, k);
    CountIs(t, i);
    CountIs(t, d);
    DirIs(t, i);
    DirIs(t, d);
    RootIs(t);
    assert Names(t.inodes, i, 1, d);
    forall x | x in t.refs[i] ensures x == (d, k) {
      NamedOnce(t, d, k, x.0, x.1);
    }
    assert t.refs[i] == {(d, k)};
    var other := if d == ROOT then (ROOT, 1) else t.home[d];
    assert Names(t.inodes, other.0, other.1, d);
    assert other in t.refs[d] && other != (i, 1);
    assert {other, (i, 1)} <= t.refs[d];
    AtLeastTwo(t.refs[d], other, (i, 1));
  }

  lemma AtLeastTwo(s: set<(nat, nat)>, x: (nat, nat), y: (nat, nat))
    requires x in s && y in s && x != y
    ensures |s| >= 2
  {
    assert |s - {x} - {y}| == |s| - 2;
  }

  lemma WithoutDirNames(t: Tree, d: nat, k: nat, d': nat, k': nat, i': nat)
    requires CanRemoveDir(t, d, k) && WithoutDir.requires(t, d, k) && i' != 0
    requires t.inodes[t.inodes[d].entries[k].inode].links == 1 && t.inodes[d].links >= 2
    ensures Names(WithoutDir(t, d, k).inodes, d', k', i')
       <==> Names(t.inodes, d', k', i') && !(d' == d && k' == k) && d' != t.inodes[d].entries[k].inode
  {
    hide Good;
  }

  lemma WithoutDirDir(t: Tree, d: nat, k: nat, e: nat)
    requires CanRemoveDir(t, d, k) && WithoutDir.requires(t, d, k)
    requires Live(WithoutDir(t, d, k).inodes, e)
    ensures DirOk(WithoutDir(t, d, k), e) && HomeOk(WithoutDir(t, d, k), e)
  {
    hide Good, Names;
    LinksEnough(t, d, k);
    var i := t.inodes[d].entries[k].inode;
    DirIs(t, e);
    ParentNot(t, d, k, e);
    if e != ROOT {
      HomeNamed(t, e);
      WithoutDirNames(t, d, k, t.home[e].0, t.home[e].1, e);
    }
  }

  /** An empty directory is nobody's parent. */
  lemma ParentNot(t: Tree, d: nat, k: nat, e: nat)
    requires CanRemoveDir(t, d, k) && Live(t.inodes, e)
    ensures |t.inodes[e].entries| >= 2 && t.inodes[e].entries[1].inode != t.inodes[d].entries[k].inode
  {
    hide Good;
    DirIs(t, e);
    EntryIs(t, d, k);
    if e != ROOT {
      HomeNamed(t, e);
    }
  }

  lemma WithoutDirEntry(t: Tree, d: nat, k: nat, e: nat, j: nat)
    requires CanRemoveDir(t, d, k) && WithoutDir.requires(t, d, k)
    requires Live(WithoutDir(t, d, k).inodes, e) && Used(WithoutDir(t, d, k).inodes[e].entries, j)
    ensures EntryOk(WithoutDir(t, d, k), e, j)
  {
    hide Good;
    LinksEnough(t, d, k);
    EntryIs(t, d, k);
    EntryIs(t, e, j);
    DirIs(t, e);
    ParentNot(t, d, k, e);
  }

  lemma WithoutDirCount(t: Tree, d: nat, k: nat, x: nat)
    requires CanRemoveDir(t, d, k) && WithoutDir.requires(t, d, k) && x in t.inodes
    ensures CountOk(WithoutDir(t, d, k), x)
  {
    hide Good, Names;
    CountIs(t, x);
    LinksEnough(t, d, k);
    RootIs(t);
    var t' := WithoutDir(t, d, k);
    forall e: nat, j: nat ensures (e, j) in t'.refs[x] <==> Names(t'.inodes, e, j, x) {
      WithoutDirNames(t, d, k, e, j, x);
      NamesOne(t.inodes, e, j, x);
      OrphanNames(t, d, k, j, x);
    }
  }

  /** The directory's own entries that count: just "..". */
  lemma OrphanNames(t: Tree, d: nat, k: nat, j: nat, x: nat)
    requires CanRemoveDir(t, d, k)
    ensures Names(t.inodes, t.inodes[d].entries[k].inode, j, x) ==> j == 1 && x == d
  {
    hide Good;
    LinksEnough(t, d, k);
  }

  lemma WithoutDirGood(t: Tree, d: nat, k: nat)
    requires CanRemoveDir(t, d, k)
    ensures WithoutDir.requires(t, d, k) && Good(WithoutDir(t, d, k))
  {
    hide Good, Names, DirOk, HomeOk, EntryOk, CountOk, OrphanOk, Empty;
    LinksEnough(t, d, k);
    NamedIs(t, d, k);
    RootIs(t);
    var t' := WithoutDir(t, d, k);
    forall e | Live(t'.inodes, e) ensures DirOk(t', e) && HomeOk(t', e) {
      WithoutDirDir(t, d, k, e);
    }
    forall e | e in t'.inodes && t'.inodes[e].kind == Dir && t'.inodes[e].links == 0 ensures OrphanOk(t', e) {
      if e == t.inodes[d].entries[k].inode {
        EmptyOrphan(t, d, k);
      } else {
        OrphanSame(t, t', e);
      }
    }
    forall e | e in t'.inodes && t'.inodes[e].kind == Free ensures t'.inodes[e] == NO_INODE {
      CountIs(t, e);
    }
    forall e, j: nat | Live(t'.inodes, e) && Used(t'.inodes[e].entries, j) ensures EntryOk(t', e, j) {
      WithoutDirEntry(t, d, k, e, j);
    }
    forall x | x in t'.inodes ensures CountOk(t', x) {
      WithoutDirCount(t, d, k, x);
    }
    AllGood(t');
  }

  lemma EmptyOrphan(t: Tree, d: nat, k: nat)
    requires CanRemoveDir(t, d, k) && WithoutDir.requires(t, d, k)
    ensures OrphanOk(WithoutDir(t, d, k), t.inodes[d].entries[k].inode)
  {
    hide Good;
    LinksEnough(t, d, k);
    DirIs(t, t.inodes[d].entries[k].inode);
  }

  // ---------- a directory comes ----------

  function NewDir(i: nat, d: nat): Inode {
    Inode(Dir, 1, [Entry(i, DOT), Entry(d, DOT_DOT)])
  }

  /** Free inode `i` becomes a directory with entry `k` of `d`. */
  function WithDir(t: Tree, d: nat, k: nat, name: string, i: nat): Tree
    requires d in t.inodes && i in t.inodes && d != i && k <= |t.inodes[d].entries| && d in t.refs && d in t.depth
  {
    var dir := t.inodes[d].(entries := Put(t.inodes[d].entries, k, Entry(i, name)), links := t.inodes[d].links + 1);
    Tree(t.inodes[d := dir][i := NewDir(i, d)], t.refs[i := {(d, k)}][d := t.refs[d] + {(i, 1)}],
         t.home[i := (d, k)], t.depth[i := t.depth[d] + 1])
  }

  ghost predicate CanMake(t: Tree, d: nat, name: string, i: nat) {
    && Good(t) && Live(t.inodes, d) && i in t.inodes && t.inodes[i].kind == Free && i != 0
    && Find(t.inodes[d].entries, name) == None
  }

  lemma DepthIs(t: Tree, d: nat)
    requires Good(t) && Live(t.inodes, d)
    ensures d in t.depth && d in t.refs
  {
    hide Good;
    RootIs(t);
    DirIs(t, d);
  }

  /** Nothing names a free inode. */
  lemma FreeUnnamed(t: Tree, i: nat, e: nat, j: nat)
    requires Good(t) && i in t.inodes && t.inodes[i].links == 0
    ensures !Names(t.inodes, e, j, i)
  {
    CountIs(t, i);
    assert t.refs[i] == {};
  }

  lemma WithDirNames(t: Tree, d: nat, name: string, i: nat, d': nat, k': nat, i': nat)
    requires CanMake(t, d, name, i) && d in t.refs && d in t.depth && i' != 0
    ensures var k := Vacancy(t.inodes[d].entries, 0);
            && k >= 2 && !Used(t.inodes[d].entries, k)
            && (Names(WithDir(t, d, k, name, i).inodes, d', k', i')
                <==> Names(t.inodes, d', k', i') || (d' == d && k' == k && i' == i) || (d' == i && k' == 1 && i' == d))
  {
    hide Good, Find, FindFrom;
    DirIs(t, d);
    RootIs(t);
  }

  lemma WithDirDir(t: Tree, d: nat, name: string, i: nat, e: nat)
    requires CanMake(t, d, name, i) && d in t.refs && d in t.depth
    requires Live(WithDir(t, d, Vacancy(t.inodes[d].entries, 0), name, i).inodes, e)
    ensures var t' := WithDir(t, d, Vacancy(t.inodes[d].entries, 0), name, i);
            DirOk(t', e) && HomeOk(t', e)
  {
    hide Good, Find, FindFrom, Vacancy, Names;
    RootIs(t);
    DirIs(t, d);
    LookupAfterLink(t.inodes[d].entries, name, i, name);
    WithDirNames(t, d, name, i, d, Vacancy(t.inodes[d].entries, 0), i);
    if e != i {
      DirIs(t, e);
      if e != ROOT {
        HomeNamed(t, e);
        WithDirNames(t, d, name, i, t.home[e].0, t.home[e].1, e);
      }
    }
  }

  lemma WithDirEntry(t: Tree, d: nat, name: string, i: nat, e: nat, j: nat)
    requires CanMake(t, d, name, i) && d in t.refs && d in t.depth
    requires var t' := WithDir(t, d, Vacancy(t.inodes[d].entries, 0), name, i);
             Live(t'.inodes, e) && Used(t'.inodes[e].entries, j)
    ensures EntryOk(WithDir(t, d, Vacancy(t.inodes[d].entries, 0), name, i), e, j)
  {
    hide Good, Find, FindFrom, Vacancy, Names, NamesUnique;
    RootIs(t);
    WithDirNames(t, d, name, i, d, 0, d);
    if e != i && !(e == d && j == Vacancy(t.inodes[d].entries, 0)) {
      EntryIs(t, e, j);
    }
  }

  lemma WithDirCount(t: Tree, d: nat, name: string, i: nat, x: nat)
    requires CanMake(t, d, name, i) && d in t.refs && d in t.depth && x in t.inodes
    ensures CountOk(WithDir(t, d, Vacancy(t.inodes[d].entries, 0), name, i), x)
  {
    hide Good, Find, FindFrom, Vacancy, Names, NamesUnique;
    CountIs(t, x);
    CountIs(t, d);
    CountIs(t, i);
    RootIs(t);
    NotFromFree(t, i, d);
    var k := Vacancy(t.inodes[d].entries, 0);
    var t' := WithDir(t, d, k, name, i);
    forall e: nat, j: nat ensures (e, j) in t'.refs[x] <==> Names(t'.inodes, e, j, x) {
      WithDirNames(t, d, name, i, e, j, x);
      if x == i {
        FreeUnnamed(t, i, e, j);
      }
    }
  }

  lemma NotFromFree(t: Tree, i: nat, d: nat)
    requires Good(t) && i in t.inodes && t.inodes[i].kind == Free && d in t.inodes
    ensures d in t.refs && (i, 1) !in t.refs[d]
  {
    CountIs(t, d);
  }

  lemma WithDirGood(t: Tree, d: nat, name: string, i: nat)
    requires CanMake(t, d, name, i)
    ensures d in t.refs && d in t.depth && i != d && Good(WithDir(t, d, Vacancy(t.inodes[d].entries, 0), name, i))
  {
    hide Good, Find, FindFrom, Vacancy, Names, DirOk, HomeOk, EntryOk, CountOk, OrphanOk, Put;
    DepthIs(t, d);
    RootIs(t);
    CountIs(t, i);
    var t' := WithDir(t, d, Vacancy(t.inodes[d].entries, 0), name, i);
    forall e | Live(t'.inodes, e) ensures DirOk(t', e) && HomeOk(t', e) {
      WithDirDir(t, d, name, i, e);
    }
    forall e | e in t'.inodes && t'.inodes[e].kind == Dir && t'.inodes[e].links == 0 ensures OrphanOk(t', e) {
      OrphanSame(t, t', e);
    }
    forall e | e in t'.inodes && t'.inodes[e].kind == Free ensures t'.inodes[e] == NO_INODE {
      CountIs(t, e);
    }
    forall e, j: nat | Live(t'.inodes, e) && Used(t'.inodes[e].entries, j) ensures EntryOk(t', e, j) {
      WithDirEntry(t, d, name, i, e, j);
    }
    forall x | x in t'.inodes ensures CountOk(t', x) {
      WithDirCount(t, d, name, i, x);
    }
    AllGood(t');
  }

  // ---------- inodes nothing names ----------

  /** An inode without links can be given out, or taken back when the last holder lets go. */
  function WithUnlinked(t: Tree, i: nat, x: Inode): Tree {
    t.(inodes := t.inodes[i := x])
  }

  lemma WithUnlinkedGood(t: Tree, i: nat, x: Inode)
    requires Good(t) && i in t.inodes && t.inodes[i].links == 0
    requires x == NO_INODE || x == Inode(File, 0, []) || x == Inode(Device, 0, [])
    ensures Good(WithUnlinked(t, i, x))
  {
    hide Good, DirOk, HomeOk, EntryOk, CountOk, OrphanOk, Names;
    RootIs(t);
    var t' := WithUnlinked(t, i, x);
    forall e | Live(t'.inodes, e) ensures DirOk(t', e) && HomeOk(t', e) {
      UnlinkedDir(t, i, x, e);
    }
    forall e | e in t'.inodes && t'.inodes[e].kind == Dir && t'.inodes[e].links == 0 ensures OrphanOk(t', e) {
      OrphanSame(t, t', e);
    }
    forall e | e in t'.inodes && t'.inodes[e].kind == Free ensures t'.inodes[e] == NO_INODE {
      CountIs(t, e);
    }
    forall e, j: nat | Live(t'.inodes, e) && Used(t'.inodes[e].entries, j) ensures EntryOk(t', e, j) {
      UnlinkedEntry(t, i, x, e, j);
    }
    forall y | y in t'.inodes ensures CountOk(t', y) {
      UnlinkedCount(t, i, x, y);
    }
    AllGood(t');
  }

  lemma UnlinkedDir(t: Tree, i: nat, x: Inode, e: nat)
    requires Good(t) && i in t.inodes && t.inodes[i].links == 0 && x.links == 0 && Live(t.inodes, e)
    ensures DirOk(WithUnlinked(t, i, x), e) && HomeOk(WithUnlinked(t, i, x), e)
  {
    hide Good;
    DirIs(t, e);
  }

  lemma UnlinkedEntry(t: Tree, i: nat, x: Inode, e: nat, j: nat)
    requires Good(t) && i in t.inodes && t.inodes[i].links == 0 && x.links == 0
    requires Live(WithUnlinked(t, i, x).inodes, e) && Used(WithUnlinked(t, i, x).inodes[e].entries, j)
    ensures EntryOk(WithUnlinked(t, i, x), e, j)
  {
    hide Good, NamesUnique;
    EntryIs(t, e, j);
    FreeUnnamed(t, i, e, j);
    DirIs(t, e);
  }

  lemma UnlinkedCount(t: Tree, i: nat, x: Inode, y: nat)
    requires Good(t) && i in t.inodes && t.inodes[i].links == 0 && x.links == 0 && y in t.inodes
    ensures CountOk(WithUnlinked(t, i, x), y)
  {
    hide Good, Names;
    CountIs(t, y);
    var t' := WithUnlinked(t, i, x);
    forall e: nat, j: nat ensures (e, j) in t'.refs[y] <==> Names(t'.inodes, e, j, y) {
      UnlinkedNames(t, i, x, e, j, y);
    }
  }

  lemma UnlinkedNames(t: Tree, i: nat, x: Inode, e: nat, j: nat, y: nat)
    requires i in t.inodes && t.inodes[i].links == 0 && x.links == 0
    ensures Names(WithUnlinked(t, i, x).inodes, e, j, y) <==> Names(t.inodes, e, j, y)
  {
  }

  // ---------- an entry in an orphan ----------

  lemma SameRefs(t: Tree, t': Tree, d: nat, i: nat)
    requires Good(t) && Good(t') && i in t.inodes && i in t'.inodes
    requires !Live(t.inodes, d) && !Live(t'.inodes, d)
    requires forall e: nat, j: nat | e != d :: Names(t'.inodes, e, j, i) <==> Names(t.inodes, e, j, i)
    ensures t'.inodes[i].links == t.inodes[i].links
  {
    hide Good;
    CountIs(t, i);
    CountIs(t', i);
    forall x: (nat, nat) ensures x in t.refs[i] <==> x in t'.refs[i] {
      assert x == (x.0, x.1);
    }
    assert t'.refs[i] == t.refs[i];
  }

  // ---------- what consistent means ----------

  /** Some account of names, homes and depths makes the inodes a good tree. */
  ghost predicate Consistent(inodes: map<nat, Inode>) {
    exists t: Tree :: Good(t) && t.inodes == inodes
  }

  function Naming(inodes: map<nat, Inode>, i: nat): set<(nat, nat)> {
    set d, k: nat | d in inodes && 0 <= k < |inodes[d].entries| && Names(inodes, d, k, i) :: (d, k)
  }

  /** The link count is the number of live entries that name the inode, ".." among them and "." not. */
  lemma LinksCountNames(inodes: map<nat, Inode>, i: nat)
    requires Consistent(inodes) && i in inodes
    ensures inodes[i].links == |Naming(inodes, i)|
  {
    hide Good;
    var t: Tree :| Good(t) && t.inodes == inodes;
    CountIs(t, i);
    forall x: (nat, nat) ensures x in Naming(inodes, i) <==> x in t.refs[i] {
      assert x == (x.0, x.1);
    }
    assert Naming(inodes, i) == t.refs[i];
  }

  /** Directory `d` has an entry, beyond its first two, that names `i`. */
  ghost predicate Holds(inodes: map<nat, Inode>, d: nat, i: nat) {
    exists k: nat :: Names(inodes, d, k, i) && k >= 2
  }

  /** Each directory on the path holds the next. */
  ghost predicate IsPath(inodes: map<nat, Inode>, path: seq<nat>) {
    && |path| > 0 && path[0] == ROOT
    && forall j | 0 < j < |path| :: Holds(inodes, path[j - 1], path[j])
  }

  /** Every live directory can be reached from the root. */
  lemma {:induction false} ReachedFromRoot(inodes: map<nat, Inode>, d: nat)
    requires Consistent(inodes) && Live(inodes, d)
    ensures exists path :: IsPath(inodes, path) && path[|path| - 1] == d
  {
    hide Good;
    var t: Tree :| Good(t) && t.inodes == inodes;
    var path := PathTo(t, d);
  }

  lemma {:induction false} PathTo(t: Tree, d: nat) returns (path: seq<nat>)
    requires Good(t) && Live(t.inodes, d)
    ensures IsPath(t.inodes, path) && path[|path| - 1] == d
    decreases if d in t.depth then t.depth[d] else 0
  {
    hide Good;
    if d == ROOT {
      return [ROOT];
    }
    DirIs(t, d);
    var parent := t.home[d].0;
    var before := PathTo(t, parent);
    path := before + [d];
    assert Names(t.inodes, parent, t.home[d].1, d);
    forall j | 0 < j < |path| ensures Holds(t.inodes, path[j - 1], path[j]) {
      if j < |before| {
        assert path[j] == before[j];
      }
    }
  }

  /** ".." of a live directory names the live directory that holds it. */
  lemma DotDotNamesParent(inodes: map<nat, Inode>, d: nat)
    requires Consistent(inodes) && Live(inodes, d) && d != ROOT
    ensures Find(inodes[d].entries, DOT_DOT) == Some(1)
    ensures Holds(inodes, inodes[d].entries[1].inode, d)
  {
    hide Good, Find;
    var t: Tree :| Good(t) && t.inodes == inodes;
    DirIs(t, d);
    OnlyOne(inodes[d].entries, DOT_DOT, 1);
  }

  // ---------- the changes a call makes ----------

  /** Entry `k` of directory `d` is cleared, and what it named loses a link; a directory gives one up too. */
  function Removed(inodes: map<nat, Inode>, d: nat, k: nat): (r: map<nat, Inode>)
    requires d in inodes && k < |inodes[d].entries| && inodes[d].entries[k].inode in inodes
    requires inodes[d].links > 0 && inodes[inodes[d].entries[k].inode].links > 0
    ensures r.Keys == inodes.Keys
  {
    var i := inodes[d].entries[k].inode;
    var less := if inodes[i].kind == Dir then 1 else 0;
    var dir := inodes[d].(entries := inodes[d].entries[k := NO_ENTRY], links := inodes[d].links - less);
    inodes[d := dir][i := inodes[i].(links := inodes[i].links - 1)]
  }

  /** Directory `d` gets an entry for `i`, which gains a link. */
  function Linked(inodes: map<nat, Inode>, d: nat, name: string, i: nat): map<nat, Inode>
    requires d in inodes && i in inodes && d != i
  {
    var dir := inodes[d].(entries := Entered(inodes[d].entries, name, i));
    inodes[d := dir][i := inodes[i].(links := inodes[i].links + 1)]
  }

  function Entered(entries: seq<Entry>, name: string, i: nat): seq<Entry> {
    Put(entries, Vacancy(entries, 0), Entry(i, name))
  }

  /** Inode `i` is new and named in `d`; a new directory is also a link to `d`. */
  function Created(inodes: map<nat, Inode>, d: nat, name: string, i: nat, kind: Kind): map<nat, Inode>
    requires d in inodes && i in inodes && d != i
  {
    var more := if kind == Dir then 1 else 0;
    var dir := inodes[d].(entries := Entered(inodes[d].entries, name, i), links := inodes[d].links + more);
    inodes[d := dir][i := if kind == Dir then NewDir(i, d) else Inode(kind, 1, [])]
  }

  /** The entry that a name other than "." and ".." is found at. */
  lemma FoundEntry(t: Tree, d: nat, name: string)
    requires Good(t) && d in t.inodes && t.inodes[d].kind == Dir && name != DOT && name != DOT_DOT
    ensures var found := Find(t.inodes[d].entries, name);
            found.Some? ==> Live(t.inodes, d) && CanRemove(t, d, found.value)
  {
    hide FindFrom, DirOk, HomeOk, CountOk, EntryOk;
    if t.inodes[d].links > 0 {
      DirIs(t, d);
      FirstNames(t, d);
    } else {
      CountIs(t, d);
      FirstNames(t, d);
    }
  }

  /** Dead or alive, a directory starts with "." and "..", and ".." names an inode. */
  lemma FirstNames(t: Tree, d: nat)
    requires Good(t) && d in t.inodes && t.inodes[d].kind == Dir
    ensures var entries := t.inodes[d].entries;
            && |entries| >= 2 && entries[0] == Entry(d, DOT) && entries[1].name == DOT_DOT && entries[1].inode in t.inodes
            && (t.inodes[d].links == 0 ==> Empty(entries))
  {
    hide Good;
    CountIs(t, d);
    if t.inodes[d].links > 0 {
      DirIs(t, d);
    }
  }

  /** Unlink keeps the tree consistent and takes the name away. */
  lemma RemovedConsistent(inodes: map<nat, Inode>, d: nat, k: nat)
    requires Consistent(inodes) && Live(inodes, d) && k >= 2 && Used(inodes[d].entries, k)
    requires var i := inodes[d].entries[k].inode; i in inodes && (inodes[i].kind == Dir ==> Empty(inodes[i].entries))
    ensures Removed.requires(inodes, d, k) && Consistent(Removed(inodes, d, k))
    ensures Find(Removed(inodes, d, k)[d].entries, inodes[d].entries[k].name) == None
  {
    hide Good;
    var t: Tree :| Good(t) && t.inodes == inodes;
    NamedIs(t, d, k);
    DirIs(t, d);
    if inodes[inodes[d].entries[k].inode].kind == Dir {
      WithoutDirGood(t, d, k);
      assert WithoutDir(t, d, k).inodes == Removed(inodes, d, k);
    } else {
      WithoutFileGood(t, d, k);
      assert WithoutFile(t, d, k).inodes == Removed(inodes, d, k);
    }
  }

  /** A new name for a file keeps the tree consistent exactly when the directory is live. */
  lemma LinkedConsistent(inodes: map<nat, Inode>, d: nat, name: string, i: nat)
    requires Consistent(inodes) && d in inodes && inodes[d].kind == Dir && Find(inodes[d].entries, name) == None
    requires i in inodes && inodes[i].kind in {File, Device}
    ensures Consistent(Linked(inodes, d, name, i)) <==> Live(inodes, d)
  {
    hide Good, Find, Vacancy, Put;
    var t: Tree :| Good(t) && t.inodes == inodes;
    RootIs(t);
    if Live(inodes, d) {
      WithFileGood(t, d, name, i);
      assert WithFile(t, d, Vacancy(inodes[d].entries, 0), name, i).inodes == Linked(inodes, d, name, i);
    } else {
      forall t': Tree | t'.inodes == Linked(inodes, d, name, i) ensures !Good(t') {
        if Good(t') {
          SameRefs(t, t', d, i);
          assert false;
        }
      }
    }
  }

  /** A new inode keeps the tree consistent exactly when the directory is live. */
  lemma CreatedConsistent(inodes: map<nat, Inode>, d: nat, name: string, i: nat, kind: Kind)
    requires Consistent(inodes) && d in inodes && inodes[d].kind == Dir && Find(inodes[d].entries, name) == None
    requires i in inodes && inodes[i].kind == Free && kind != Free
    ensures Consistent(Created(inodes, d, name, i, kind)) <==> Live(inodes, d)
  {
    hide Good, Find, Vacancy, Put;
    var t: Tree :| Good(t) && t.inodes == inodes;
    RootIs(t);
    CountIs(t, i);
    if kind != Dir {
      var t1 := WithUnlinked(t, i, Inode(kind, 0, []));
      WithUnlinkedGood(t, i, Inode(kind, 0, []));
      LinkedConsistent(t1.inodes, d, name, i);
      assert Linked(t1.inodes, d, name, i) == Created(inodes, d, name, i, kind);
    } else if Live(inodes, d) {
      WithDirGood(t, d, name, i);
      assert WithDir(t, d, Vacancy(inodes[d].entries, 0), name, i).inodes == Created(inodes, d, name, i, Dir);
    } else {
      forall t': Tree | t'.inodes == Created(inodes, d, name, i, Dir) ensures !Good(t') {
        OrphanParent(t, t', d, name, i);
      }
    }
  }

  /** A directory made in an orphan brings the orphan back to life, but nothing leads to it. */
  lemma OrphanParent(t: Tree, t': Tree, d: nat, name: string, i: nat)
    requires Good(t) && d in t.inodes && t.inodes[d].kind == Dir && !Live(t.inodes, d)
    requires i in t.inodes && t.inodes[i].kind == Free && t'.inodes == Created(t.inodes, d, name, i, Dir)
    ensures !Good(t')
  {
    hide Good, Find, Vacancy, Put;
    RootIs(t);
    if Good(t') {
      DirIs(t', d);
      FreeUnnamed(t, d, t'.home[d].0, t'.home[d].1);
      FirstNames(t, d);
      assert false;
    }
  }

  /** An inode that nothing names can be freed. */
  lemma FreedConsistent(inodes: map<nat, Inode>, i: nat)
    requires Consistent(inodes) && i in inodes && inodes[i].links == 0
    ensures Consistent(inodes[i := NO_INODE])
  {
    hide Good;
    var t: Tree :| Good(t) && t.inodes == inodes;
    WithUnlinkedGood(t, i, NO_INODE);
  }

  /** What is left when `i` has been given up, by the last holder or not. */
  function Dropped(inodes: map<nat, Inode>, i: nat, last: bool): map<nat, Inode>
    requires i in inodes
  {
    if last && inodes[i].links == 0 then inodes[i := NO_INODE] else inodes
  }

  predicate CanUnlink(inodes: map<nat, Inode>, d: nat, k: nat) {
    && Live(inodes, d) && 2 <= k < |inodes[d].entries| && inodes[d].entries[k].inode in inodes
    && inodes[d].entries[k].inode != d && inodes[inodes[d].entries[k].inode].links > 0
  }

  /** What the entry names is a directory with entries of its own. */
  ghost predicate Blocked(inodes: map<nat, Inode>, d: nat, k: nat)
    requires CanUnlink(inodes, d, k)
  {
    var i := inodes[d].entries[k].inode;
    inodes[i].kind == Dir && exists j: nat :: Used(inodes[i].entries, j) && j >= 2
  }

  /** Once a directory that is still held is removed, its parent can go too, and then ".." names a free
      inode: what ".." names is sure to be a directory only while the directory itself is live. */
  lemma ParentCanGo(inodes: map<nat, Inode>, d: nat, outer: nat, p: nat, inner: nat, b: nat)
    requires Consistent(inodes) && CanUnlink(inodes, d, outer) && inodes[d].entries[outer].inode == p
    requires CanUnlink(inodes, p, inner) && inodes[p].entries[inner].inode == b
    requires inodes[b].kind == Dir && !Blocked(inodes, p, inner)
    requires forall k: nat | 2 <= k && k != inner :: !Used(inodes[p].entries, k)
    ensures var once := Removed(inodes, p, inner);
            && CanUnlink(once, d, outer) && once[d].entries[outer].inode == p && !Blocked(once, d, outer)
            && LeavesFreeParent(Dropped(Removed(once, d, outer), p, true), p, b)
  {
    hide Consistent, Removed, Names, Used, NamesUnique, Blocked;
    InnerGone(inodes, d, outer, p, inner, b);
    var once := Removed(inodes, p, inner);
    EmptyOrBlocked(once, d, outer);
    OuterGone(once, d, outer, p, b);
    FreedConsistent(Removed(once, d, outer), p);
  }

  ghost predicate LeavesFreeParent(inodes: map<nat, Inode>, p: nat, b: nat) {
    && Consistent(inodes) && b in inodes && inodes[b].kind == Dir && |inodes[b].entries| >= 2
    && inodes[b].entries[1] == Entry(p, DOT_DOT) && p in inodes && inodes[p].kind == Free
  }

  lemma InnerGone(inodes: map<nat, Inode>, d: nat, outer: nat, p: nat, inner: nat, b: nat)
    requires Consistent(inodes) && CanUnlink(inodes, d, outer) && inodes[d].entries[outer].inode == p
    requires CanUnlink(inodes, p, inner) && inodes[p].entries[inner].inode == b
    requires inodes[b].kind == Dir && !Blocked(inodes, p, inner)
    requires forall k: nat | 2 <= k && k != inner :: !Used(inodes[p].entries, k)
    ensures var once := Removed(inodes, p, inner);
            && Consistent(once) && CanUnlink(once, d, outer) && !Blocked(once, d, outer) && once[d].entries[outer].inode == p
            && once[p].kind == Dir && b in once && b != p && b != d && once[b].kind == Dir
            && |once[b].entries| >= 2 && once[b].entries[1] == Entry(p, DOT_DOT)
  {
    hide Good, NamesUnique;
    var t: Tree :| Good(t) && t.inodes == inodes;
    EmptyOrBlocked(inodes, p, inner);
    RootIs(t);
    LinksEnough(t, p, inner);
    NotAbove(t, d, outer, p, inner, b);
    RemovedConsistent(inodes, p, inner);
    FirstNames(t, b);
    var once := Removed(inodes, p, inner);
    assert once[p].entries == inodes[p].entries[inner := NO_ENTRY];
    forall j: nat | j >= 2 ensures !Used(once[p].entries, j) {
      assert j != inner ==> !Used(inodes[p].entries, j);
    }
  }

  lemma OuterGone(inodes: map<nat, Inode>, d: nat, outer: nat, p: nat, b: nat)
    requires Consistent(inodes) && CanUnlink(inodes, d, outer) && inodes[d].entries[outer].inode == p
    requires inodes[p].kind == Dir && !Blocked(inodes, d, outer) && b in inodes && b != p && b != d
    ensures var after := Removed(inodes, d, outer); Consistent(after) && after[p].links == 0 && after[b] == inodes[b]
  {
    hide Good, NamesUnique;
    var t: Tree :| Good(t) && t.inodes == inodes;
    EmptyOrBlocked(inodes, d, outer);
    RootIs(t);
    LinksEnough(t, d, outer);
    RemovedConsistent(inodes, d, outer);
  }

  /** Homes go up: what a directory holds is not the directory that holds it. */
  lemma NotAbove(t: Tree, d: nat, outer: nat, p: nat, inner: nat, b: nat)
    requires Good(t) && outer >= 2 && Names(t.inodes, d, outer, p) && inner >= 2 && Names(t.inodes, p, inner, b)
    requires b in t.inodes && t.inodes[b].kind == Dir
    ensures d != b && d != p && p != b
  {
    hide Good;
    EntryIs(t, d, outer);
    EntryIs(t, p, inner);
    DirIs(t, p);
    DirIs(t, b);
  }

  // ---------- parents ----------

  ghost predicate ParentIs(inodes: map<nat, Inode>, b: nat)
    requires b in inodes
  {
    var entries := inodes[b].entries;
    |entries| >= 2 && entries[1].inode in inodes && inodes[entries[1].inode].kind == Dir
  }

  /** ".." of every directory, unlinked ones included, names a directory. */
  ghost predicate ParentsPresent(inodes: map<nat, Inode>) {
    forall b | b in inodes && inodes[b].kind == Dir :: ParentIs(inodes, b)
  }

  /** ".." of some other directory names `i`. */
  ghost predicate NamedAsParent(inodes: map<nat, Inode>, i: nat) {
    exists b :: b in inodes && b != i && inodes[b].kind == Dir && |inodes[b].entries| >= 2 && inodes[b].entries[1].inode == i
  }

  /** Removing the entry takes the last link of an inode that another directory's ".." names. */
  ghost predicate Orphans(inodes: map<nat, Inode>, d: nat, k: nat)
    requires CanUnlink(inodes, d, k)
  {
    var i := inodes[d].entries[k].inode;
    Removed(inodes, d, k)[i].links == 0 && NamedAsParent(Removed(inodes, d, k), i)
  }

  /** Giving up an inode leaves every ".." naming a directory if and only if the inode stays or no other
      directory's ".." names it. */
  lemma DroppedParents(inodes: map<nat, Inode>, i: nat, last: bool)
    requires ParentsPresent(inodes) && i in inodes
    ensures ParentsPresent(Dropped(inodes, i, last)) <==> !(last && inodes[i].links == 0 && NamedAsParent(inodes, i))
  {
    var after := Dropped(inodes, i, last);
    if last && inodes[i].links == 0 {
      if NamedAsParent(inodes, i) {
        var b :| b in inodes && b != i && inodes[b].kind == Dir && |inodes[b].entries| >= 2 && inodes[b].entries[1].inode == i;
        assert after[b] == inodes[b] && !ParentIs(after, b);
      } else {
        forall b | b in after && after[b].kind == Dir ensures ParentIs(after, b) {
          assert ParentIs(inodes, b);
        }
      }
    }
  }

  /** Every other change keeps them. */
  lemma LinkedParents(inodes: map<nat, Inode>, d: nat, name: string, i: nat)
    requires Consistent(inodes) && ParentsPresent(inodes) && d in inodes && i in inodes && d != i
    requires inodes[d].kind == Dir && inodes[i].kind != Dir
    ensures ParentsPresent(Linked(inodes, d, name, i))
  {
    hide Consistent, Find;
    EnteredBeyond(inodes, d, name, i);
    var after := Linked(inodes, d, name, i);
    forall b | b in after && after[b].kind == Dir ensures ParentIs(after, b) {
      assert ParentIs(inodes, b);
    }
  }

  lemma CreatedParents(inodes: map<nat, Inode>, d: nat, name: string, i: nat, kind: Kind)
    requires Consistent(inodes) && ParentsPresent(inodes) && d in inodes && i in inodes
    requires inodes[d].kind == Dir && inodes[i].kind == Free
    ensures ParentsPresent(Created(inodes, d, name, i, kind))
  {
    hide Consistent, Find;
    EnteredBeyond(inodes, d, name, i);
    var after := Created(inodes, d, name, i, kind);
    forall b | b in after && after[b].kind == Dir ensures ParentIs(after, b) {
      assert b != i ==> ParentIs(inodes, b);
    }
  }

  lemma RemovedParents(inodes: map<nat, Inode>, d: nat, k: nat)
    requires ParentsPresent(inodes) && CanUnlink(inodes, d, k)
    ensures ParentsPresent(Removed(inodes, d, k))
  {
    var after := Removed(inodes, d, k);
    forall b | b in after && after[b].kind == Dir ensures ParentIs(after, b) {
      assert ParentIs(inodes, b);
    }
  }

  /** A new entry is not one of the first two. */
  lemma EnteredBeyond(inodes: map<nat, Inode>, d: nat, name: string, i: nat)
    requires Consistent(inodes) && d in inodes && inodes[d].kind == Dir
    ensures var entries := inodes[d].entries;
            |entries| >= 2 && |Entered(entries, name, i)| >= 2 && Entered(entries, name, i)[1] == entries[1]
  {
    hide Good;
    var t: Tree :| Good(t) && t.inodes == inodes;
    FirstNames(t, d);
    RootIs(t);
  }

  // ---------- what names mean ----------

  /** The inode that `name` means in directory `d`. */
  function Called(inodes: map<nat, Inode>, d: nat, name: string): Option<nat>
    requires d in inodes
  {
    var k := Find(inodes[d].entries, name);
    if k == None then None else Some(inodes[d].entries[k.value].inode)
  }

  /** In directory `d` `name` now means `now`, and every other name what it did. */
  ghost predicate Renames(inodes: map<nat, Inode>, inodes': map<nat, Inode>, d: nat, name: string, now: Option<nat>) {
    && d in inodes && d in inodes'
    && forall m: string :: Called(inodes', d, m) == if m == name then now else Called(inodes, d, m)
  }

  lemma UniqueNames(inodes: map<nat, Inode>, d: nat)
    requires Consistent(inodes) && d in inodes && inodes[d].kind == Dir
    ensures NamesUnique(inodes[d].entries)
  {
    hide Good;
    var t: Tree :| Good(t) && t.inodes == inodes;
    FirstNames(t, d);
    if inodes[d].links > 0 {
      DirIs(t, d);
    }
  }

  lemma EnteredNames(inodes: map<nat, Inode>, inodes': map<nat, Inode>, d: nat, name: string, i: nat)
    requires Consistent(inodes) && d in inodes && inodes[d].kind == Dir && Find(inodes[d].entries, name) == None && i != 0
    requires d in inodes' && inodes'[d].entries == Entered(inodes[d].entries, name, i)
    ensures Renames(inodes, inodes', d, name, Some(i))
  {
    hide Consistent, Find, NamesUnique;
    UniqueNames(inodes, d);
    forall m: string ensures Called(inodes', d, m) == if m == name then Some(i) else Called(inodes, d, m) {
      LookupAfterLink(inodes[d].entries, name, i, m);
    }
  }

  lemma ClearedNames(inodes: map<nat, Inode>, inodes': map<nat, Inode>, d: nat, k: nat)
    requires Consistent(inodes) && d in inodes && inodes[d].kind == Dir && Used(inodes[d].entries, k)
    requires d in inodes' && inodes'[d].entries == inodes[d].entries[k := NO_ENTRY]
    ensures Renames(inodes, inodes', d, inodes[d].entries[k].name, None)
  {
    hide Consistent, FindFrom;
    UniqueNames(inodes, d);
    var was, now := inodes[d].entries, inodes'[d].entries;
    forall m: string ensures Called(inodes', d, m) == if m == was[k].name then None else Called(inodes, d, m) {
      if m != was[k].name && Find(was, m).Some? {
        var j := Find(was, m).value;
        assert Used(now, j);
        StillUnique(was, k);
        OnlyOne(now, m, j);
      }
    }
  }

  lemma StillUnique(entries: seq<Entry>, k: nat)
    requires NamesUnique(entries) && k < |entries|
    ensures NamesUnique(entries[k := NO_ENTRY])
  {
  }

  // ---------- the calls ----------

  datatype LinkError = NameTooLong | AlreadyExists | WriteFailed

  /** What linkEntry answers when the disk has, or has not, room for a longer directory. */
  function LinkRefusal(entries: seq<Entry>, name: string, room: bool): Option<LinkError> {
    if |name| > MAX_NAME then Some(NameTooLong)
    else if Find(entries, name).Some? then Some(AlreadyExists)
    else if Vacancy(entries, 0) == |entries| && !room then Some(WriteFailed)
    else None
  }

  datatype LinkOutcome = LinkDone | IsDirectory | NoParent | NotEntered(why: LinkError)

  datatype UnlinkOutcome = UnlinkDone | IsDot | IsDotDot | NotFound | NotEmpty

  /** `Deadlock` is a wait for a lock the caller holds, and `FreeLocked` the panic of locking a free inode. */
  datatype CreateOutcome = Made(inode: nat) | Existing(inode: nat) | WrongType | NoInode | NoDot | NoDotDot
                         | ParentRefused(why: LinkError) | Deadlock | FreeLocked

  /** The first free inode number from `i` on. */
  ghost predicate FirstFree(inodes: map<nat, Inode>, count: nat, i: nat) {
    && 1 <= i < count && i in inodes && inodes[i].kind == Free
    && forall j | 1 <= j < i :: j in inodes && inodes[j].kind != Free
  }

  ghost predicate NoneFree(inodes: map<nat, Inode>) {
    forall j | j in inodes :: inodes[j].kind != Free
  }

  function FirstInode(i: nat): Inode {
    if i == ROOT then Inode(Dir, 1, [Entry(ROOT, DOT), Entry(ROOT, DOT_DOT)]) else NO_INODE
  }

  /** The first two entries always go in, given room. */
  lemma FirstEntries(i: nat, d: nat, room: bool)
    requires i != 0
    ensures LinkRefusal([], DOT, room) == (if room then None else Some(WriteFailed))
    ensures Entered([], DOT, i) == [Entry(i, DOT)]
    ensures LinkRefusal([Entry(i, DOT)], DOT_DOT, room) == (if room then None else Some(WriteFailed))
    ensures Entered([Entry(i, DOT)], DOT_DOT, d) == NewDir(i, d).entries
  {
    var one := [Entry(i, DOT)];
    assert Vacancy(one, 0) == 1;
    assert one + [Entry(d, DOT_DOT)] == NewDir(i, d).entries;
    assert DOT[0] == '.' && |DOT| == 1 && |DOT_DOT| == 2;
  }

  class FileTree {
    const count: nat
    var inodes: map<nat, Inode>

    ghost predicate Valid()
      reads this
    {
      Consistent(inodes) && forall i: nat :: i in inodes <==> 1 <= i < count
    }

    /** A file system with an empty root directory. */
    constructor (count: nat)
      requires count > ROOT
      ensures Valid() && this.count == count
      ensures inodes[ROOT] == Inode(Dir, 1, [Entry(ROOT, DOT), Entry(ROOT, DOT_DOT)])
      ensures forall i | i in inodes && i != ROOT :: inodes[i] == NO_INODE
      ensures ParentsPresent(inodes)
    {
      this.count := count;
      inodes := map i: nat | 1 <= i < count :: FirstInode(i);
      new;
      EmptyTreeGood(count, inodes);
    }

    method LookupChild(d: nat, name: string) returns (offset: Option<nat>)
      requires d in inodes
      ensures offset == Find(inodes[d].entries, name)
    {
      var entries := inodes[d].entries;
      var k := 0;
      while k < |entries|
        invariant k <= |entries|
        invariant Find(entries, name) == FindFrom(entries, name, k)
      {
        if entries[k].inode != 0 && entries[k].name == name {
          return Some(k);
        }
        k := k + 1;
      }
      return None;
    }

    /** The entry is written in the first unused slot, unless the name is there already. */
    method LinkEntry(d: nat, name: string, inode: nat, room: bool) returns (error: Option<LinkError>)
      requires d in inodes
      modifies this
      ensures error == LinkRefusal(old(inodes[d].entries), name, room)
      ensures error == Some(NameTooLong) <==> |name| > 27
      ensures error == Some(AlreadyExists) <==> |name| <= 27 && Called(old(inodes), d, name).Some?
      ensures error == Some(WriteFailed) <==>
                && |name| <= 27 && Called(old(inodes), d, name) == None
                && !room && forall e | e in old(inodes[d].entries) :: e.inode != 0
      ensures inodes == if error.Some? then old(inodes)
                        else old(inodes[d := inodes[d].(entries := Entered(inodes[d].entries, name, inode))])
    {
      if |name| > MAX_NAME {
        return Some(NameTooLong);
      }
      var existing := LookupChild(d, name);
      if existing.Some? {
        return Some(AlreadyExists);
      }
      var entries := inodes[d].entries;
      var k := 0;
      while k < |entries| && entries[k].inode != 0
        invariant k <= |entries|
        invariant Vacancy(entries, 0) == Vacancy(entries, k)
      {
        k := k + 1;
      }
      if k == |entries| && !room {
        return Some(WriteFailed);
      }
      inodes := inodes[d := inodes[d].(entries := Put(entries, k, Entry(inode, name)))];
      return None;
    }

    method IsEmpty(d: nat) returns (empty: bool)
      requires d in inodes
      ensures empty <==> forall k: nat | 2 <= k :: !Used(inodes[d].entries, k)
    {
      var entries := inodes[d].entries;
      var k := 2;
      while k < |entries|
        invariant forall j: nat | 2 <= j < k :: !Used(entries, j)
      {
        if entries[k].inode != 0 {
          assert Used(entries, k);
          return false;
        }
        k := k + 1;
      }
      return true;
    }

    /** The tree stays consistent exactly when the call failed or the new name's directory is live. */
    method Link(i: nat, parent: Option<nat>, name: string, room: bool) returns (outcome: LinkOutcome)
      requires Valid() && i in inodes && inodes[i].kind != Free
      requires parent.Some? ==> parent.value in inodes && inodes[parent.value].kind == Dir
      modifies this
      ensures outcome.IsDirectory? <==> old(inodes[i].kind) == Dir
      ensures outcome.NoParent? <==> old(inodes[i].kind) != Dir && parent == None
      ensures old(inodes[i].kind) != Dir && parent.Some?
          ==> outcome == match LinkRefusal(old(inodes[parent.value].entries), name, room)
                         case Some(why) => NotEntered(why)
                         case None => LinkDone
      ensures inodes == if outcome.LinkDone? then old(Linked(inodes, parent.value, name, i)) else old(inodes)
      ensures outcome.LinkDone? ==>
                && Renames(old(inodes), inodes, parent.value, name, Some(i)) && Called(old(inodes), parent.value, name) == None
                && inodes[i] == old(inodes)[i].(links := old(inodes)[i].links + 1)
                && inodes.Keys == old(inodes).Keys
                && inodes[parent.value] == old(inodes)[parent.value].(entries := inodes[parent.value].entries)
                && forall j | j in inodes && j != i && j != parent.value :: inodes[j] == old(inodes)[j]
      ensures Consistent(inodes) <==> (outcome.LinkDone? ==> old(Live(inodes, parent.value)))
      ensures old(ParentsPresent(inodes)) ==> ParentsPresent(inodes)
    {
      hide Consistent, Find, Vacancy, Put, ParentsPresent;
      if inodes[i].kind == Dir {
        return IsDirectory;
      }
      inodes := inodes[i := inodes[i].(links := inodes[i].links + 1)];
      if parent == None {
        inodes := inodes[i := inodes[i].(links := inodes[i].links - 1)];
        return NoParent;
      }
      var error := LinkEntry(parent.value, name, i, room);
      if error.Some? {
        inodes := inodes[i := inodes[i].(links := inodes[i].links - 1)];
        return NotEntered(error.value);
      }
      assert inodes == old(Linked(inodes, parent.value, name, i));
      LinkedConsistent(old(inodes), parent.value, name, i);
      EnteredNames(old(inodes), inodes, parent.value, name, i);
      if ParentsPresent(old(inodes)) {
        LinkedParents(old(inodes), parent.value, name, i);
      }
      return LinkDone;
    }

    /** `last` says that nobody else holds the inode. */
    method Reap(i: nat, last: bool)
      requires Valid() && i in inodes
      modifies this
      ensures Valid()
      ensures inodes == Dropped(old(inodes), i, last)
      ensures old(ParentsPresent(inodes))
          ==> (ParentsPresent(inodes) <==> !(last && old(inodes[i].links) == 0 && NamedAsParent(old(inodes), i)))
    {
      hide Consistent, ParentsPresent, NamedAsParent;
      if ParentsPresent(inodes) {
        DroppedParents(inodes, i, last);
      }
      if last && inodes[i].links == 0 {
        FreedConsistent(inodes, i);
        inodes := inodes[i := NO_INODE];
      }
    }

    /** The second half of unlink: the entry is cleared, and what it named loses a link. */
    method RemoveEntry(d: nat, k: nat, last: bool)
      requires Valid() && CanUnlink(inodes, d, k) && !Blocked(inodes, d, k) && Used(inodes[d].entries, k)
      modifies this
      ensures Valid() && inodes == Dropped(Removed(old(inodes), d, k), old(inodes[d].entries)[k].inode, last)
      ensures Renames(old(inodes), inodes, d, old(inodes[d].entries)[k].name, None)
      ensures var i := old(inodes[d].entries)[k].inode;
              && inodes.Keys == old(inodes).Keys
              && inodes[i] == (if last && old(inodes)[i].links == 1 then Inode(Free, 0, [])
                               else old(inodes)[i].(links := old(inodes)[i].links - 1))
              && inodes[d].links == old(inodes)[d].links - (if old(inodes)[i].kind == Dir then 1 else 0)
              && inodes[d].kind == Dir
              && forall j | j in inodes && j != i && j != d :: inodes[j] == old(inodes)[j]
      ensures old(ParentsPresent(inodes)) ==> (ParentsPresent(inodes) <==> !(last && Orphans(old(inodes), d, k)))
    {
      hide Consistent, Find, Removed, FindFrom, Used, ParentsPresent, NamedAsParent, Renames;
      var i := inodes[d].entries[k].inode;
      EmptyOrBlocked(inodes, d, k);
      RemovedConsistent(inodes, d, k);
      var less := if inodes[i].kind == Dir then 1 else 0;
      inodes := inodes[d := inodes[d].(entries := inodes[d].entries[k := NO_ENTRY])];
      inodes := inodes[d := inodes[d].(links := inodes[d].links - less)];
      inodes := inodes[i := inodes[i].(links := inodes[i].links - 1)];
      RemovedInSteps(old(inodes), d, k);
      if ParentsPresent(old(inodes)) {
        RemovedParents(old(inodes), d, k);
      }
      Reap(i, last);
      ClearedNames(old(inodes), inodes, d, k);
    }

    /** The name goes, the tree stays consistent, and a link count of 0 is never lowered. */
    method Unlink(d: nat, name: string, last: bool) returns (outcome: UnlinkOutcome)
      requires Valid() && d in inodes && inodes[d].kind == Dir
      modifies this
      ensures Valid()
      ensures outcome.IsDot? <==> name == DOT
      ensures outcome.IsDotDot? <==> name == DOT_DOT
      ensures outcome.NotFound? <==> name != DOT && name != DOT_DOT && Find(old(inodes[d].entries), name) == None
      ensures !outcome.UnlinkDone? ==> inodes == old(inodes)
      ensures outcome.UnlinkDone? || outcome.NotEmpty?
          ==> var k := Find(old(inodes[d].entries), name).value;
              && CanUnlink(old(inodes), d, k)
              && (outcome.NotEmpty? <==> Blocked(old(inodes), d, k))
              && Called(old(inodes), d, name).value in old(inodes)
              && var was := old(inodes)[Called(old(inodes), d, name).value];
              (outcome.NotEmpty? <==> was.kind == Dir && exists j: nat :: 2 <= j && Used(was.entries, j))
      ensures outcome.UnlinkDone? ==>
                && Renames(old(inodes), inodes, d, name, None) && Called(old(inodes), d, name).Some?
                && var i := Called(old(inodes), d, name).value;
                && i in old(inodes) && inodes.Keys == old(inodes).Keys && old(inodes)[i].links > 0
                && inodes[i] == (if last && old(inodes)[i].links == 1 then Inode(Free, 0, [])
                                 else old(inodes)[i].(links := old(inodes)[i].links - 1))
                && inodes[d].links == old(inodes)[d].links - (if old(inodes)[i].kind == Dir then 1 else 0)
                && inodes[d].kind == Dir
                && forall j | j in inodes && j != i && j != d :: inodes[j] == old(inodes)[j]
      ensures outcome.UnlinkDone? || outcome.NotEmpty?
          ==> var k := Find(old(inodes[d].entries), name).value;
              && CanUnlink(old(inodes), d, k)
              && (outcome.UnlinkDone? ==> inodes == Dropped(Removed(old(inodes), d, k), old(inodes[d].entries)[k].inode, last))
      ensures old(ParentsPresent(inodes))
          ==> (ParentsPresent(inodes)
               <==> !(outcome.UnlinkDone? && last && Orphans(old(inodes), d, Find(old(inodes[d].entries), name).value)))
    {
      hide Consistent, Find, Removed, FindFrom, Used, ParentsPresent, NamedAsParent, Renames;
      if name == DOT {
        return IsDot;
      }
      if name == DOT_DOT {
        return IsDotDot;
      }
      var offset := LookupChild(d, name);
      if offset == None {
        return NotFound;
      }
      var k := offset.value;
      UnlinkFinds(inodes, d, name);
      var i := inodes[d].entries[k].inode;
      var empty := true;
      if inodes[i].kind == Dir {
        empty := IsEmpty(i);
      }
      EmptyOrBlocked(inodes, d, k);
      if !empty {
        return NotEmpty;
      }
      RemoveEntry(d, k, last);
      return UnlinkDone;
    }

    /** The first free inode is given the kind. */
    method Alloc(kind: Kind) returns (i: Option<nat>)
      requires Valid()
      modifies this
      ensures i == None ==> NoneFree(old(inodes)) && inodes == old(inodes)
      ensures i.Some? ==> FirstFree(old(inodes), count, i.value) && inodes == old(inodes)[i.value := Inode(kind, 0, [])]
    {
      var n := 1;
      while n < count
        invariant 1 <= n
        invariant forall j | 1 <= j < n && j < count :: inodes[j].kind != Free
      {
        if inodes[n].kind == Free {
          inodes := inodes[n := Inode(kind, 0, [])];
          return Some(n);
        }
        n := n + 1;
      }
      return None;
    }

    /** A new directory's first two entries. */
    method StartDir(i: nat, d: nat, dotRoom: bool, dotDotRoom: bool) returns (outcome: Option<CreateOutcome>)
      requires i != 0 && i in inodes && inodes[i].entries == []
      modifies this
      ensures outcome == if !dotRoom then Some(NoDot) else if !dotDotRoom then Some(NoDotDot) else None
      ensures inodes.Keys == old(inodes.Keys)
      ensures forall j | j in inodes && j != i :: inodes[j] == old(inodes[j])
      ensures outcome == None ==> inodes == old(inodes)[i := old(inodes[i]).(entries := NewDir(i, d).entries)]
    {
      hide Find, FindFrom, Vacancy, Put, LinkRefusal, Entered;
      FirstEntries(i, d, dotRoom);
      FirstEntries(i, d, dotDotRoom);
      var error := LinkEntry(i, DOT, i, dotRoom);
      if error.Some? {
        return Some(NoDot);
      }
      error := LinkEntry(i, DOT_DOT, d, dotDotRoom);
      if error.Some? {
        return Some(NoDotDot);
      }
      return None;
    }

    /** A name that is taken: only a file may be opened as one, and the lock of what is found is asked for
        while the directory's is held. */
    method OpenExisting(d: nat, found: nat, kind: Kind) returns (outcome: CreateOutcome)
      requires found in inodes
      ensures outcome == ExistingOutcome(inodes, d, found, kind)
    {
      if found == d {
        return Deadlock;
      }
      if inodes[found].kind == Free {
        return FreeLocked;
      }
      if kind == File && (inodes[found].kind == File || inodes[found].kind == Device) {
        return Existing(found);
      }
      return WrongType;
    }

    /** New inode `i` gets its first entries and its name, or is given back. */
    method Fill(d: nat, name: string, i: nat, kind: Kind, room: bool, dotRoom: bool, dotDotRoom: bool)
        returns (outcome: CreateOutcome)
      requires d in inodes && i in inodes && d != i && i != 0 && inodes[i] == Inode(kind, 0, [])
      modifies this
      ensures var refusal := LinkRefusal(old(inodes[d].entries), name, room);
              outcome == if kind == Dir && !dotRoom then NoDot
                         else if kind == Dir && !dotDotRoom then NoDotDot
                         else if refusal.Some? then ParentRefused(refusal.value)
                         else Made(i)
      ensures inodes == if outcome.Made? then old(Created(inodes, d, name, i, kind)) else old(inodes)[i := NO_INODE]
    {
      hide Find, FindFrom, Vacancy, Put, LinkRefusal, Entered;
      inodes := inodes[i := inodes[i].(links := 1)];
      if kind == Dir {
        var refused := StartDir(i, d, dotRoom, dotDotRoom);
        if refused.Some? {
          inodes := inodes[i := NO_INODE];
          return refused.value;
        }
      }
      var error := LinkEntry(d, name, i, room);
      if error.Some? {
        inodes := inodes[i := NO_INODE];
        return ParentRefused(error.value);
      }
      if kind == Dir {
        inodes := inodes[d := inodes[d].(links := inodes[d].links + 1)];
      }
      return Made(i);
    }

    /** create for a name that is not taken. */
    method CreateNew(d: nat, name: string, kind: Kind, room: bool, dotRoom: bool, dotDotRoom: bool)
        returns (outcome: CreateOutcome)
      requires Valid() && d in inodes && inodes[d].kind == Dir && kind != Free && Find(inodes[d].entries, name) == None
      modifies this
      ensures outcome.Made? ==> d != outcome.inode && FirstFree(old(inodes), count, outcome.inode)
      ensures inodes == if outcome.Made? then old(Created(inodes, d, name, outcome.inode, kind)) else old(inodes)
      ensures outcome.Made? ==> Renames(old(inodes), inodes, d, name, Some(outcome.inode))
      ensures Consistent(inodes) <==> (outcome.Made? ==> old(Live(inodes, d)))
      ensures Allowed(outcome, old(inodes), d, name, kind, room, dotRoom, dotDotRoom)
      ensures old(ParentsPresent(inodes)) ==> ParentsPresent(inodes)
    {
      hide Consistent, Find, FindFrom, Vacancy, Put, ParentsPresent, Renames;
      var i := Alloc(kind);
      if i == None {
        return NoInode;
      }
      FreeIsClear(old(inodes), i.value);
      CreatedConsistent(old(inodes), d, name, i.value, kind);
      if ParentsPresent(old(inodes)) {
        CreatedParents(old(inodes), d, name, i.value, kind);
      }
      outcome := Fill(d, name, i.value, kind, room, dotRoom, dotDotRoom);
      if outcome.Made? {
        EnteredNames(old(inodes), inodes, d, name, i.value);
      }
      assert inodes == if outcome.Made? then old(Created(inodes, d, name, i.value, kind)) else old(inodes);
    }

    /** The tree stays consistent exactly when nothing was made or the directory is live. */
    method Create(d: nat, name: string, kind: Kind, room: bool, dotRoom: bool, dotDotRoom: bool)
        returns (outcome: CreateOutcome)
      requires Valid() && d in inodes && inodes[d].kind == Dir && kind != Free
      modifies this
      ensures outcome.Made? ==> d != outcome.inode && FirstFree(old(inodes), count, outcome.inode)
      ensures inodes == if outcome.Made? then old(Created(inodes, d, name, outcome.inode, kind)) else old(inodes)
      ensures outcome.Made? ==>
                var i := outcome.inode;
                && Renames(old(inodes), inodes, d, name, Some(i)) && Called(old(inodes), d, name) == None
                && inodes[i] == Inode(kind, 1, if kind == Dir then [Entry(i, "."), Entry(d, "..")] else [])
                && inodes.Keys == old(inodes).Keys && inodes[d].kind == Dir
                && inodes[d].links == old(inodes)[d].links + (if kind == Dir then 1 else 0)
                && forall j | j in inodes && j != i && j != d :: inodes[j] == old(inodes)[j]
      ensures Consistent(inodes) <==> (outcome.Made? ==> old(Live(inodes, d)))
      ensures Find(old(inodes[d].entries), name).Some?
          ==> var found := old(inodes[d].entries)[Find(old(inodes[d].entries), name).value].inode;
              && found in old(inodes) && outcome == ExistingOutcome(old(inodes), d, found, kind)
              && var was := old(inodes)[found].kind;
              && (outcome == Deadlock <==> found == d)
              && (outcome == FreeLocked <==> found != d && was == Free)
              && (outcome == Existing(found) <==> found != d && kind == File && (was == File || was == Device))
              && (outcome == WrongType <==> found != d && was != Free && !(kind == File && (was == File || was == Device)))
      ensures Find(old(inodes[d].entries), name) == None
          ==> Allowed(outcome, old(inodes), d, name, kind, room, dotRoom, dotDotRoom)
      ensures old(ParentsPresent(inodes)) ==> ParentsPresent(inodes)
    {
      hide Consistent, Find, FindFrom, Vacancy, Put, ParentsPresent, Renames, LinkRefusal;
      var offset := LookupChild(d, name);
      if offset.Some? {
        FoundInode(inodes, d, offset.value);
        outcome := OpenExisting(d, inodes[d].entries[offset.value].inode, kind);
        return;
      }
      outcome := CreateNew(d, name, kind, room, dotRoom, dotDotRoom);
    }
  }

  /** What a call that finds nothing under the name may answer. */
  ghost predicate Allowed(outcome: CreateOutcome, inodes: map<nat, Inode>, d: nat, name: string, kind: Kind, room: bool, dotRoom: bool, dotDotRoom: bool)
    requires d in inodes
  {
    var refusal := LinkRefusal(inodes[d].entries, name, room);
    if NoneFree(inodes) then outcome == NoInode
    else if kind == Dir && !dotRoom then outcome == NoDot
    else if kind == Dir && !dotDotRoom then outcome == NoDotDot
    else if refusal.Some? then outcome == ParentRefused(refusal.value)
    else outcome.Made?
  }

  function ExistingOutcome(inodes: map<nat, Inode>, d: nat, found: nat, kind: Kind): CreateOutcome
    requires found in inodes
  {
    if found == d then Deadlock
    else if inodes[found].kind == Free then FreeLocked
    else if kind == File && inodes[found].kind in {File, Device} then Existing(found)
    else WrongType
  }

  /** Creating in a live directory waits for its own lock exactly for ".", and for ".." in the root, and
      never locks a free inode. */
  lemma CreateLocks(inodes: map<nat, Inode>, d: nat, name: string, kind: Kind)
    requires Consistent(inodes) && Live(inodes, d) && Find(inodes[d].entries, name).Some?
    ensures var found := inodes[d].entries[Find(inodes[d].entries, name).value].inode;
            && found in inodes && ExistingOutcome(inodes, d, found, kind) != FreeLocked
            && (ExistingOutcome(inodes, d, found, kind) == Deadlock
                <==> name == DOT || (d == ROOT && name == DOT_DOT))
  {
    hide Good, FindFrom;
    var t: Tree :| Good(t) && t.inodes == inodes;
    var k := Find(inodes[d].entries, name).value;
    EntryIs(t, d, k);
    DirIs(t, d);
    if k >= 2 {
      NamedIs(t, d, k);
      assert Used(inodes[d].entries, 0) && Used(inodes[d].entries, 1);
    }
  }

  lemma UnlinkFinds(inodes: map<nat, Inode>, d: nat, name: string)
    requires Consistent(inodes) && d in inodes && inodes[d].kind == Dir && name != DOT && name != DOT_DOT
    requires Find(inodes[d].entries, name).Some?
    ensures var k := Find(inodes[d].entries, name).value; CanUnlink(inodes, d, k) && Used(inodes[d].entries, k)
  {
    hide Good, Find;
    var t: Tree :| Good(t) && t.inodes == inodes;
    FoundEntry(t, d, name);
    NamedIs(t, d, Find(inodes[d].entries, name).value);
  }

  lemma EmptyOrBlocked(inodes: map<nat, Inode>, d: nat, k: nat)
    requires Consistent(inodes) && CanUnlink(inodes, d, k)
    ensures var i := inodes[d].entries[k].inode;
            && (Blocked(inodes, d, k) <==> inodes[i].kind == Dir && !(forall j: nat | 2 <= j :: !Used(inodes[i].entries, j)))
            && (inodes[i].kind == Dir && !Blocked(inodes, d, k) ==> Empty(inodes[i].entries))
  {
    hide Good;
    var t: Tree :| Good(t) && t.inodes == inodes;
    var i := inodes[d].entries[k].inode;
    if inodes[i].kind == Dir {
      FirstNames(t, i);
    }
  }

  lemma RemovedInSteps(inodes: map<nat, Inode>, d: nat, k: nat)
    requires CanUnlink(inodes, d, k)
    ensures var i := inodes[d].entries[k].inode;
            var less := if inodes[i].kind == Dir then 1 else 0;
            var first := inodes[d := inodes[d].(entries := inodes[d].entries[k := NO_ENTRY])];
            var second := first[d := first[d].(links := first[d].links - less)];
            Removed(inodes, d, k) == second[i := second[i].(links := second[i].links - 1)]
  {
  }

  lemma FoundInode(inodes: map<nat, Inode>, d: nat, k: nat)
    requires Consistent(inodes) && d in inodes && inodes[d].kind == Dir && Used(inodes[d].entries, k)
    ensures inodes[d].entries[k].inode in inodes
  {
    hide Good;
    var t: Tree :| Good(t) && t.inodes == inodes;
    FirstNames(t, d);
    if inodes[d].links > 0 {
      EntryIs(t, d, k);
    }
  }

  lemma FreeIsClear(inodes: map<nat, Inode>, i: nat)
    requires Consistent(inodes) && i in inodes && inodes[i].kind == Free
    ensures inodes[i] == NO_INODE
  {
    hide Good;
    var t: Tree :| Good(t) && t.inodes == inodes;
    CountIs(t, i);
  }

  lemma EmptyTreeGood(count: nat, inodes: map<nat, Inode>)
    requires count > ROOT && forall i: nat :: i in inodes <==> 1 <= i < count
    requires forall i | i in inodes && i != ROOT :: inodes[i] == NO_INODE
    requires inodes[ROOT] == Inode(Dir, 1, [Entry(ROOT, DOT), Entry(ROOT, DOT_DOT)])
    ensures Consistent(inodes)
  {
    var refs := map i: nat | i in inodes :: if i == ROOT then {(ROOT, 1)} else {};
    var t := Tree(inodes, refs, map[], map[ROOT := 0]);
    assert forall d: nat, k: nat, i: nat | Names(inodes, d, k, i) :: d == ROOT && k == 1 && i == ROOT;
    assert Names(inodes, ROOT, 1, ROOT);
    AllGood(t);
  }

  // ---------- a run that ends with a parent gone ----------

  const DOTS: seq<Entry> := [Entry(ROOT, DOT), Entry(ROOT, DOT_DOT)]

  /** An empty root. */
  function Run0(): map<nat, Inode> {
    map[1 := Inode(Dir, 1, DOTS), 2 := NO_INODE, 3 := NO_INODE]
  }

  /** mkdir a. */
  function Run1(): map<nat, Inode> {
    map[1 := Inode(Dir, 2, DOTS + [Entry(2, "a")]), 2 := NewDir(2, 1), 3 := NO_INODE]
  }

  /** mkdir a/b. */
  function Run2(): map<nat, Inode> {
    map[1 := Inode(Dir, 2, DOTS + [Entry(2, "a")]),
        2 := Inode(Dir, 2, [Entry(2, DOT), Entry(1, DOT_DOT), Entry(3, "b")]),
        3 := NewDir(3, 2)]
  }

  /** unlink a/b, which a process still has as its current directory. */
  function Run3(): map<nat, Inode> {
    map[1 := Inode(Dir, 2, DOTS + [Entry(2, "a")]),
        2 := Inode(Dir, 1, [Entry(2, DOT), Entry(1, DOT_DOT), NO_ENTRY]),
        3 := NewDir(3, 2).(links := 0)]
  }

  /** unlink a. */
  function Run4(): map<nat, Inode> {
    map[1 := Inode(Dir, 1, DOTS + [NO_ENTRY]), 2 := NO_INODE, 3 := NewDir(3, 2).(links := 0)]
  }

  lemma MakesA()
    ensures Find(DOTS, "a") == None && LinkRefusal(DOTS, "a", true) == None
    ensures Created(Run0(), 1, "a", 2, Dir) == Run1()
  {
    assert "a"[0] == 'a' && DOT[0] == '.' && DOT_DOT[0] == '.';
    assert Vacancy(DOTS, 0) == Vacancy(DOTS, 1) == Vacancy(DOTS, 2) == 2;
  }

  lemma MakesB()
    ensures Find(Run1()[2].entries, "b") == None && LinkRefusal(Run1()[2].entries, "b", true) == None
    ensures Created(Run1(), 2, "b", 3, Dir) == Run2()
  {
    var entries := NewDir(2, 1).entries;
    assert "b"[0] == 'b' && DOT[0] == '.' && DOT_DOT[0] == '.';
    assert Vacancy(entries, 0) == Vacancy(entries, 1) == Vacancy(entries, 2) == 2;
    assert Entered(entries, "b", 3) == [Entry(2, DOT), Entry(1, DOT_DOT), Entry(3, "b")];
  }

  lemma UnlinksB()
    ensures Find(Run2()[2].entries, "b") == Some(2)
    ensures CanUnlink(Run2(), 2, 2) && !Blocked(Run2(), 2, 2) && Dropped(Removed(Run2(), 2, 2), 3, false) == Run3()
  {
    assert "b"[0] == 'b' && DOT[0] == '.' && DOT_DOT[0] == '.';
    var entries := Run2()[2].entries;
    assert entries[2 := NO_ENTRY] == Run3()[2].entries;
    assert Used(entries, 2);
  }

  lemma UnlinksA()
    ensures Find(Run3()[1].entries, "a") == Some(2)
    ensures CanUnlink(Run3(), 1, 2) && !Blocked(Run3(), 1, 2) && Removed(Run3(), 1, 2)[2].links == 0
    ensures Dropped(Removed(Run3(), 1, 2), 2, true) == Run4()
  {
    assert "a"[0] == 'a' && DOT[0] == '.' && DOT_DOT[0] == '.';
    var entries := Run3()[1].entries;
    assert entries[2 := NO_ENTRY] == Run4()[1].entries;
    assert Used(entries, 2);
  }

  /** The states are consistent, the first ones keep every parent, and in the last ".." of the directory
      that is still somebody's names a free inode. */
  lemma ParentGone()
    ensures Consistent(Run0()) && Consistent(Run1()) && Consistent(Run2()) && ParentsPresent(Run2())
    ensures CanUnlink(Run2(), 2, 2) && Run3() == Dropped(Removed(Run2(), 2, 2), 3, false)
    ensures Consistent(Run3()) && ParentsPresent(Run3())
    ensures CanUnlink(Run3(), 1, 2) && Run4() == Dropped(Removed(Run3(), 1, 2), 2, true)
    ensures LeavesFreeParent(Run4(), 2, 3) && !ParentsPresent(Run4())
  {
    hide Consistent, Removed, Find, FindFrom, Created;
    EmptyTreeGood(4, Run0());
    MakesA();
    CreatedConsistent(Run0(), 1, "a", 2, Dir);
    MakesB();
    CreatedConsistent(Run1(), 2, "b", 3, Dir);
    UnlinksB();
    RemovedConsistent(Run2(), 2, 2);
    UnlinksA();
    RemovedConsistent(Run3(), 1, 2);
    FreedConsistent(Removed(Run3(), 1, 2), 2);
    assert !ParentIs(Run4(), 3);
  }

  /** And a file made in the unlinked directory has a link that no live entry accounts for. */
  lemma OrphanGetsFile()
    ensures Consistent(Run4()) && Run4()[3].kind == Dir && !Live(Run4(), 3) && Find(Run4()[3].entries, "x") == None
    ensures !Consistent(Created(Run4(), 3, "x", 2, File))
  {
    assert "x"[0] == 'x' && DOT[0] == '.' && DOT_DOT[0] == '.';
    hide Consistent, LeavesFreeParent;
    ParentGone();
    FreeParentIs(Run4(), 2, 3);
    CreatedConsistent(Run4(), 3, "x", 2, File);
  }

  lemma FreeParentIs(inodes: map<nat, Inode>, p: nat, b: nat)
    requires LeavesFreeParent(inodes, p, b)
    ensures Consistent(inodes)
  {
    hide Consistent;
  }

  /** The calls that lead there. */
  method LoseParent() returns (tree: FileTree)
    ensures fresh(tree) && tree.Valid() && tree.inodes == Run4()
  {
    hide Consistent, Find, FindFrom, Removed, Vacancy, ParentsPresent, NamedAsParent, Blocked, Created, LinkRefusal;
    MakesA();
    MakesB();
    UnlinksB();
    UnlinksA();
    tree := new FileTree(4);
    assert tree.inodes == Run0() && Run0()[2].kind == Free;
    var made := tree.Create(ROOT, "a", Dir, true, true, true);
    assert tree.inodes == Run1() && Run1()[3].kind == Free;
    made := tree.Create(2, "b", Dir, true, true, true);
    assert tree.inodes == Run2();
    var gone := tree.Unlink(2, "b", false);
    assert tree.inodes == Run3();
    gone := tree.Unlink(ROOT, "a", true);
  }
}
