/** Whether the kernel, writing on a user's behalf, writes only what the user may write. */
module UserRights {
  import opened Wrappers
  import opened Blocks
  import opened PageTables
  import opened AddressSpaces

  /** The user may write at the address itself. */
  ghost predicate MayWrite(m: Memory, root: nat, a: nat) {
    Accessible(m, root, a) && Flat(m, root, a / PAGE).value.permissions.write
  }

  /** The user may write byte `o` of frame `f`, at one address or another. */
  ghost predicate Writable(m: Memory, root: nat, f: nat, o: nat) {
    exists a: nat :: MayWrite(m, root, a) && FrameAt(m, root, a) == f && a % PAGE == o
  }

  /** Nothing differs but bytes the user may write. */
  ghost predicate OnlyWritable(m: Memory, pages: map<nat, Frame>, pages': map<nat, Frame>, root: nat) {
    forall f, o: nat | f in pages && f in pages' && o < |pages[f]| == |pages'[f]| && pages'[f][o] != pages[f][o] ::
      Writable(m, root, f, o)
  }

  function Repeated(b: Byte, n: nat): (r: seq<Byte>)
    ensures |r| == n && forall i | 0 <= i < n :: r[i] == b
  {
    seq(n, i => b)
  }

  /** Copying out changes nothing but bytes the user may write, whatever the bytes copied, if and only if
      the user may write every byte of the range. */
  lemma CopyOutRights(m: Memory, pages: map<nat, Frame>, root: nat, start: nat, n: nat)
    requires Reachable(m, pages, root, start, n)
    ensures (forall src: seq<Byte> | |src| == n :: OnlyWritable(m, pages, Written(m, pages, root, start, src), root))
       <==> (forall a: nat | start <= a < start + n :: Writable(m, root, FrameAt(m, root, a), a % PAGE))
  {
    hide Flat, Written, Writable, Accessible, OnlyWritable;
    if forall a: nat | start <= a < start + n :: Writable(m, root, FrameAt(m, root, a), a % PAGE) {
      forall src: seq<Byte> | |src| == n ensures OnlyWritable(m, pages, Written(m, pages, root, start, src), root) {
        WritesWhatItMay(m, pages, root, start, src);
      }
    }
    if forall src: seq<Byte> | |src| == n :: OnlyWritable(m, pages, Written(m, pages, root, start, src), root) {
      forall a: nat | start <= a < start + n ensures Writable(m, root, FrameAt(m, root, a), a % PAGE) {
        var there: int := pages[FrameAt(m, root, a)][a % PAGE];
        var b: Byte := (there + 1) % 256;
        assert OnlyWritable(m, pages, Written(m, pages, root, start, Repeated(b, n)), root);
        WritesAnother(m, pages, root, start, n, a, b);
      }
    }
  }

  lemma WritesWhatItMay(m: Memory, pages: map<nat, Frame>, root: nat, start: nat, src: seq<Byte>)
    requires Reachable(m, pages, root, start, |src|)
    requires forall a: nat | start <= a < start + |src| :: Writable(m, root, FrameAt(m, root, a), a % PAGE)
    ensures OnlyWritable(m, pages, Written(m, pages, root, start, src), root)
  {
    hide Flat, Written, Writable, Accessible, FrameAt;
    var w := Written(m, pages, root, start, src);
    forall f, o: nat | f in pages && f in w && o < |pages[f]| == |w[f]| && w[f][o] != pages[f][o]
      ensures Writable(m, root, f, o)
    {
      if !Touched(m, root, start, |src|, f, o) {
        WrittenElsewhere(m, pages, root, start, src, f, o);
      }
    }
  }

  lemma WritesAnother(m: Memory, pages: map<nat, Frame>, root: nat, start: nat, n: nat, a: nat, b: Byte)
    requires Reachable(m, pages, root, start, n) && start <= a < start + n
    requires pages[FrameAt(m, root, a)][a % PAGE] != b
    requires OnlyWritable(m, pages, Written(m, pages, root, start, Repeated(b, n)), root)
    ensures Writable(m, root, FrameAt(m, root, a), a % PAGE)
  {
    hide Flat, Written, Writable, Accessible, Repeated;
    var src := Repeated(b, n);
    assert Agrees(m, root, start, src);
    WrittenBytes(m, pages, root, start, src, a);
  }

  /** A page of the process's own has one address: it may be written there or nowhere. */
  lemma OwnPageRights(m: Memory, freelist: seq<nat>, pages: map<nat, Frame>, first: nat, stop: nat, root: nat, a: nat)
    requires Sound(m, {}, freelist, pages, first, stop) && Accessible(m, root, a) && PageOf(root, a / PAGE) in m.at
    ensures Writable(m, root, FrameAt(m, root, a), a % PAGE) <==> MayWrite(m, root, a)
  {
    hide Linked, Sited, Listed, Backed, Flat, Index;
    MappedEntry(m, freelist, pages, first, stop, root, a / PAGE);
    FrameInUse(m, freelist, pages, first, stop, root, a / PAGE);
    var f := FrameAt(m, root, a);
    if Writable(m, root, f, a % PAGE) {
      var a': nat :| MayWrite(m, root, a') && FrameAt(m, root, a') == f && a' % PAGE == a % PAGE;
      OnePlace(m, freelist, pages, first, stop, root, a / PAGE, a' / PAGE);
    }
  }

  lemma OnePlace(m: Memory, freelist: seq<nat>, pages: map<nat, Frame>, first: nat, stop: nat, root: nat, v: nat, v': nat)
    requires Sound(m, {}, freelist, pages, first, stop) && v < PAGES && v' < PAGES && PageOf(root, v) in m.at
    requires Flat(m, root, v).Some? && Flat(m, root, v').Some? && Flat(m, root, v').value.frame == Flat(m, root, v).value.frame
    ensures v == v'
  {
    hide Linked, Sited, Listed, Backed, Index;
    MappedEntry(m, freelist, pages, first, stop, root, v);
    MappedEntry(m, freelist, pages, first, stop, root, v');
    TableEntry(m, {}, BottomOf(root, v'), Index(v', 0));
    assert PageOf(root, v') == PageOf(root, v);
    PagesDistinct(root, v, v');
  }

  /** For a range of the process's own pages, of any rights, the condition is about the pages' rights. */
  lemma OwnRangeRights(m: Memory, freelist: seq<nat>, pages: map<nat, Frame>, first: nat, stop: nat, root: nat, start: nat, n: nat)
    requires Sound(m, {}, freelist, pages, first, stop) && Reachable(m, pages, root, start, n)
    requires forall a: nat | start <= a < start + n :: PageOf(root, a / PAGE) in m.at
    ensures (forall src: seq<Byte> | |src| == n :: OnlyWritable(m, pages, Written(m, pages, root, start, src), root))
       <==> (forall a: nat | start <= a < start + n :: MayWrite(m, root, a))
  {
    hide Sound, Flat, Written, Writable, Accessible, OnlyWritable, MayWrite, PageOf;
    CopyOutRights(m, pages, root, start, n);
    forall a: nat | start <= a < start + n
      ensures Writable(m, root, FrameAt(m, root, a), a % PAGE) <==> MayWrite(m, root, a)
    {
      OwnPageRights(m, freelist, pages, first, stop, root, a);
    }
  }

  /** A run in which the condition fails: a code page of a new process, which its user may only read and
      execute, is overwritten. */
  method OverwritesCode() returns (memory: PhysicalMemory, root: nat, ok: bool, ghost before: map<nat, Frame>)
    ensures memory.Valid({}) && ok && Accessible(memory.View(), root, 0)
    ensures Flat(memory.View(), root, 0).value.permissions == CODE
    ensures var f := FrameAt(memory.View(), root, 0);
            && f in before && |before[f]| == PAGE && f in memory.pages && |memory.pages[f]| == PAGE
            && memory.pages[f][0] == 1 != before[f][0] && !Writable(memory.View(), root, f, 0)
    ensures !OnlyWritable(memory.View(), before, memory.pages, root)
  {
    hide Sound, Linked, Sited, SameFlat, NewSpace, PagesKept, Written, Filled, TablesAdded, SamePages, Writable,
         Flat, Index, PageOf;
    AlignedSize(1);
    AlignedSize(0);
    memory := new PhysicalMemory(PAGE, 5 * PAGE, ZeroRam(5), {});
    ghost var h := memory.View();
    var created := memory.CreateRoot();
    root := created.value;
    ghost var m := memory.View();
    EmptySpace(h, m, root);
    var grown := memory.Alloc(root, 0, PAGE, CODE);
    FirstPage(m, memory.View(), memory.freelist, memory.pages, memory.first, memory.stop, root);
    before := memory.pages;
    ghost var copied;
    ok, copied := memory.CopyOut(root, 0, [1]);
    assert [1][..copied] == [1];
    WrittenBytes(memory.View(), before, root, 0, [1], 0);
    OwnPageRights(memory.View(), memory.freelist, memory.pages, memory.first, memory.stop, root, 0);
  }

  lemma EmptySpace(h: Memory, m: Memory, root: nat)
    requires NewSpace(h, m, root)
    ensures Top(root) in m.at && forall p: nat :: Flat(m, root, p) == None
  {
    hide Flat;
    forall p: nat ensures Flat(m, root, p) == None {
      SameFlatAt(h, m, root, p);
    }
  }

  lemma FirstPage(h: Memory, m: Memory, freelist: seq<nat>, pages: map<nat, Frame>, first: nat, stop: nat, root: nat)
    requires Sound(m, {}, freelist, pages, first, stop) && Grown(h, m, pages, root, 0, 1, Zeroed(CODE))
    ensures Flat(m, root, 0).Some? && Flat(m, root, 0).value.permissions == CODE && Flat(m, root, 0).value.user
    ensures Accessible(m, root, 0) && PageOf(root, 0) in m.at
    ensures var f := FrameAt(m, root, 0); f in pages && |pages[f]| == PAGE && pages[f][0] == 0
  {
    hide Sound, Flat, PageOf;
    assert NewPage(h, m, pages, root, 0, Zeroed(CODE)(0));
    FrameInUse(m, freelist, pages, first, stop, root, 0);
  }
}
