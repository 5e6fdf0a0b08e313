/** The user-level storage allocator of Kernighan and Ritchie: a circular free list in address
    order, first fit from a roving start, adjacent blocks merged. Addresses count headers. */
module Heaps {
  import opened Wrappers

  /** The header fields in memory, and what the model knows beside them. */
  datatype Heap = Heap(
    next: map<nat, nat>,   // header field s.ptr
    sizes: map<nat, nat>,  // header field s.size, in headers
    free: set<nat>,        // the headers on the free list, `base` among them
    live: set<nat>,        // the headers of allocated blocks
    owner: map<nat, nat>)  // the block every unit obtained from sbrk lies in

  /** `t` comes after `s` going round `free` in increasing order, with one wrap to `base`. */
  ghost predicate Follows(base: nat, free: set<nat>, s: nat, t: nat) {
    if s < t then forall x | x in free :: !(s < x < t)
    else t == base && forall x | x in free :: x <= s
  }

  /** The free list is one cycle in increasing address order. */
  ghost predicate FreeList(base: nat, h: Heap) {
    && base in h.free && base in h.sizes && h.sizes[base] == 0
    && (forall s | s in h.free :: base <= s && s in h.next && s in h.sizes)
    && (forall s {:trigger h.next[s]} | s in h.free :: h.next[s] in h.free && Follows(base, h.free, s, h.next[s]))
  }

  ghost predicate IsBlock(base: nat, h: Heap, s: nat) {
    s in h.live || (s in h.free && s != base)
  }

  ghost predicate Covers(owner: map<nat, nat>, s: nat, n: nat) {
    forall u | s <= u < s + n :: u in owner && owner[u] == s
  }

  /** Free and allocated blocks partition the memory obtained from sbrk. */
  ghost predicate Tiled(base: nat, h: Heap) {
    && (forall s | IsBlock(base, h, s) :: s in h.sizes && h.sizes[s] > 0 && Covers(h.owner, s, h.sizes[s]))
    && (forall u | u in h.owner ::
          && base < u && IsBlock(base, h, h.owner[u]) && h.owner[u] in h.sizes
          && h.owner[u] <= u < h.owner[u] + h.sizes[h.owner[u]])
    && h.live !! h.free
  }

  /** No two free blocks touch. */
  ghost predicate Apart(base: nat, h: Heap) {
    forall s {:trigger h.sizes[s]} | s in h.free && s != base :: s in h.sizes && s + h.sizes[s] !in h.free
  }

  ghost predicate Good(base: nat, h: Heap) {
    FreeList(base, h) && Tiled(base, h) && Apart(base, h)
  }

  /** Blocks do not overlap. */
  lemma Disjoint(base: nat, h: Heap, s: nat, t: nat)
    requires Tiled(base, h) && IsBlock(base, h, s) && IsBlock(base, h, t) && s < t
    ensures s in h.sizes && t in h.sizes && s + h.sizes[s] <= t
  {
    assert Covers(h.owner, s, h.sizes[s]) && Covers(h.owner, t, h.sizes[t]);
    assert t in h.owner && h.owner[t] == t;
  }

  lemma Block(base: nat, h: Heap, s: nat)
    requires Tiled(base, h) && IsBlock(base, h, s)
    ensures s in h.sizes && h.sizes[s] > 0 && Covers(h.owner, s, h.sizes[s])
    ensures s in h.owner && h.owner[s] == s && base < s
  {
    assert s in h.owner;
  }

  lemma Unit(base: nat, h: Heap, u: nat)
    requires Tiled(base, h) && u in h.owner
    ensures base < u && IsBlock(base, h, h.owner[u]) && h.owner[u] in h.sizes
    ensures h.owner[u] <= u < h.owner[u] + h.sizes[h.owner[u]]
  {
  }

  lemma Next(base: nat, h: Heap, s: nat)
    requires FreeList(base, h) && s in h.free
    ensures base <= s && s in h.next && s in h.sizes && (s == base ==> h.sizes[s] == 0)
    ensures base in h.free && h.next[s] in h.free && Follows(base, h.free, s, h.next[s])
  {
  }

  // ---------- inserting a block ----------

  /** Allocated block `b` goes onto the list after `p`. */
  function Inserted(h: Heap, b: nat, p: nat): Heap
    requires p in h.next
  {
    h.(next := h.next[b := h.next[p]][p := b], free := h.free + {b}, live := h.live - {b})
  }

  /** `b` belongs between `p` and the block after it. */
  ghost predicate Place(base: nat, h: Heap, b: nat, p: nat) {
    && p in h.free && p in h.next && p < b
    && (b < h.next[p] || h.next[p] == base)
  }

  lemma InsertedFollows(base: nat, h: Heap, b: nat, p: nat, s: nat)
    requires FreeList(base, h) && b !in h.free && Place(base, h, b, p) && s in h.free + {b}
    ensures var h' := Inserted(h, b, p);
            s in h'.next && h'.next[s] in h'.free && Follows(base, h'.free, s, h'.next[s])
  {
    hide FreeList;
    Next(base, h, p);
    Next(base, h, base);
    if s != b {
      Next(base, h, s);
    }
  }

  lemma InsertList(base: nat, h: Heap, b: nat, p: nat)
    requires FreeList(base, h) && b in h.sizes && b !in h.free && Place(base, h, b, p)
    ensures FreeList(base, Inserted(h, b, p))
  {
    var h' := Inserted(h, b, p);
    assert forall s | s in h'.free :: base <= s && s in h'.sizes;
    hide Follows;
    forall s {:trigger h'.next[s]} | s in h'.free
      ensures s in h'.next && h'.next[s] in h'.free && Follows(base, h'.free, s, h'.next[s])
    {
      InsertedFollows(base, h, b, p, s);
    }
  }

  lemma InsertTiled(base: nat, h: Heap, b: nat, p: nat)
    requires Tiled(base, h) && b in h.live && b != base && p in h.next
    ensures Tiled(base, Inserted(h, b, p))
  {
    var h' := Inserted(h, b, p);
    assert forall s :: IsBlock(base, h', s) <==> IsBlock(base, h, s);
  }

  // ---------- merging a block with the one after it ----------

  function Reowned(owner: map<nat, nat>, from: nat, to: nat): (r: map<nat, nat>)
    ensures r.Keys == owner.Keys
    ensures forall u | u in owner :: r[u] == if owner[u] == from then to else owner[u]
  {
    map u | u in owner :: if owner[u] == from then to else owner[u]
  }

  function Merged(h: Heap, s: nat, t: nat): Heap
    requires s in h.sizes && t in h.sizes && t in h.next
  {
    h.(next := h.next[s := h.next[t]], sizes := h.sizes[s := h.sizes[s] + h.sizes[t]],
       free := h.free - {t}, owner := Reowned(h.owner, t, s))
  }

  lemma MergedFollows(base: nat, h: Heap, s: nat, x: nat)
    requires FreeList(base, h) && s in h.free && s != base && s in h.next && s < h.next[s]
    requires x in h.free && x != h.next[s]
    ensures s in h.sizes && h.next[s] in h.sizes && h.next[s] in h.next
    ensures var h' := Merged(h, s, h.next[s]);
            x in h'.next && h'.next[x] in h'.free && Follows(base, h'.free, x, h'.next[x])
  {
    hide FreeList;
    Next(base, h, s);
    Next(base, h, h.next[s]);
    Next(base, h, x);
  }

  lemma MergeList(base: nat, h: Heap, s: nat)
    requires FreeList(base, h) && s in h.free && s != base && s in h.next && s < h.next[s]
    ensures s in h.sizes && h.next[s] in h.sizes && h.next[s] in h.next
    ensures FreeList(base, Merged(h, s, h.next[s]))
  {
    var h' := Merged(h, s, h.next[s]);
    assert forall x | x in h'.free :: base <= x && x in h'.sizes;
    assert base in h'.free && h'.sizes[base] == 0;
    hide Follows, Merged;
    forall x {:trigger h'.next[x]} | x in h'.free
      ensures x in h'.next && h'.next[x] in h'.free && Follows(base, h'.free, x, h'.next[x])
    {
      MergedFollows(base, h, s, x);
    }
  }

  lemma MergedBlock(base: nat, h: Heap, s: nat, t: nat, x: nat)
    requires Tiled(base, h) && IsBlock(base, h, s) && IsBlock(base, h, t) && IsBlock(base, h, x) && x != t && s != t
    requires s in h.sizes && t in h.sizes && t in h.next && s + h.sizes[s] == t
    ensures var h' := Merged(h, s, t);
            x in h'.sizes && h'.sizes[x] > 0 && Covers(h'.owner, x, h'.sizes[x])
  {
    hide Tiled, IsBlock;
    Block(base, h, x);
    Block(base, h, s);
    Block(base, h, t);
  }

  lemma MergedUnit(base: nat, h: Heap, s: nat, t: nat, u: nat)
    requires Tiled(base, h) && u in h.owner && s != t
    requires s in h.sizes && t in h.sizes && t in h.next && s + h.sizes[s] == t
    ensures var h' := Merged(h, s, t);
            && u in h'.owner && base < u && (h'.owner[u] == s || (IsBlock(base, h, h'.owner[u]) && h'.owner[u] != t))
            && h'.owner[u] in h'.sizes && h'.owner[u] <= u < h'.owner[u] + h'.sizes[h'.owner[u]]
  {
    hide Tiled, IsBlock;
    Unit(base, h, u);
  }

  lemma MergeTiled(base: nat, h: Heap, s: nat, t: nat)
    requires Tiled(base, h) && s in h.free && t in h.free && s != base && t != base && s != t
    requires s in h.sizes && t in h.sizes && t in h.next && s + h.sizes[s] == t
    ensures Tiled(base, Merged(h, s, t))
  {
    var h' := Merged(h, s, t);
    assert forall x :: IsBlock(base, h', x) <==> IsBlock(base, h, x) && x != t;
    assert IsBlock(base, h, s) && IsBlock(base, h, t);
    hide Covers, IsBlock;
    forall x | IsBlock(base, h', x)
      ensures x in h'.sizes && h'.sizes[x] > 0 && Covers(h'.owner, x, h'.sizes[x])
    {
      MergedBlock(base, h, s, t, x);
    }
    forall u | u in h'.owner
      ensures base < u && IsBlock(base, h', h'.owner[u]) && h'.owner[u] in h'.sizes
      ensures h'.owner[u] <= u < h'.owner[u] + h'.sizes[h'.owner[u]]
    {
      MergedUnit(base, h, s, t, u);
    }
  }

  // ---------- taking blocks off the list ----------

  /** Block `t`, after `s` on the list, is handed out whole. */
  function Taken(h: Heap, s: nat, t: nat): Heap
    requires t in h.next
  {
    h.(next := h.next[s := h.next[t]], free := h.free - {t}, live := h.live + {t})
  }

  lemma TakenFollows(base: nat, h: Heap, s: nat, x: nat)
    requires FreeList(base, h) && s in h.free && s in h.next && h.next[s] != base
    requires x in h.free && x != h.next[s]
    ensures h.next[s] in h.next
    ensures var h' := Taken(h, s, h.next[s]);
            x in h'.next && h'.next[x] in h'.free && Follows(base, h'.free, x, h'.next[x])
  {
    hide FreeList;
    Next(base, h, s);
    Next(base, h, h.next[s]);
    Next(base, h, x);
  }

  lemma TakeList(base: nat, h: Heap, s: nat)
    requires FreeList(base, h) && s in h.free && s in h.next && h.next[s] != base
    ensures h.next[s] in h.next && FreeList(base, Taken(h, s, h.next[s]))
  {
    var h' := Taken(h, s, h.next[s]);
    assert forall x | x in h'.free :: base <= x && x in h'.sizes;
    assert base in h'.free && h'.sizes[base] == 0;
    hide Follows, Taken;
    forall x {:trigger h'.next[x]} | x in h'.free
      ensures x in h'.next && h'.next[x] in h'.free && Follows(base, h'.free, x, h'.next[x])
    {
      TakenFollows(base, h, s, x);
    }
  }

  lemma TakeTiled(base: nat, h: Heap, s: nat, t: nat)
    requires Tiled(base, h) && t in h.free && t != base && t in h.next
    ensures Tiled(base, Taken(h, s, t))
  {
    var h' := Taken(h, s, t);
    assert forall x :: IsBlock(base, h', x) <==> IsBlock(base, h, x);
  }

  /** The last `n` headers of free block `t` are handed out. */
  function Split(h: Heap, t: nat, n: nat): Heap
    requires t in h.sizes && n < h.sizes[t]
  {
    var p := t + (h.sizes[t] - n);
    h.(sizes := h.sizes[t := h.sizes[t] - n][p := n], live := h.live + {p}, owner := Carved(h.owner, p, n))
  }

  function Carved(owner: map<nat, nat>, p: nat, n: nat): (r: map<nat, nat>)
    ensures r.Keys == owner.Keys
    ensures forall u | u in owner :: r[u] == if p <= u < p + n then p else owner[u]
  {
    map u | u in owner :: if p <= u < p + n then p else owner[u]
  }

  lemma SplitBlock(base: nat, h: Heap, t: nat, n: nat, x: nat)
    requires Tiled(base, h) && IsBlock(base, h, t) && t in h.sizes && 0 < n < h.sizes[t]
    requires IsBlock(base, h, x) || x == t + (h.sizes[t] - n)
    ensures var h' := Split(h, t, n);
            x in h'.sizes && h'.sizes[x] > 0 && Covers(h'.owner, x, h'.sizes[x])
  {
    hide Tiled, IsBlock;
    Block(base, h, t);
    var p := t + (h.sizes[t] - n);
    if x != p {
      Block(base, h, x);
      if x != t && x < t {
        Disjoint(base, h, x, t);
      } else if x != t {
        Disjoint(base, h, t, x);
      }
    }
  }

  lemma SplitUnit(base: nat, h: Heap, t: nat, n: nat, u: nat)
    requires Tiled(base, h) && IsBlock(base, h, t) && t in h.sizes && 0 < n < h.sizes[t] && u in h.owner
    ensures var h' := Split(h, t, n);
            var p := t + (h.sizes[t] - n);
            && u in h'.owner && base < u && (h'.owner[u] == p || IsBlock(base, h, h'.owner[u]))
            && h'.owner[u] in h'.sizes && h'.owner[u] <= u < h'.owner[u] + h'.sizes[h'.owner[u]]
  {
    hide Tiled, IsBlock;
    Unit(base, h, u);
    Block(base, h, t);
    Block(base, h, h.owner[u]);
    var p := t + (h.sizes[t] - n);
    if h.owner[u] == p {
      Disjoint(base, h, t, p);
    }
  }

  lemma SplitNew(base: nat, h: Heap, t: nat, n: nat)
    requires Tiled(base, h) && t in h.free && t != base && t in h.sizes && 0 < n < h.sizes[t]
    ensures IsBlock(base, h, t) && base < t && !IsBlock(base, h, t + (h.sizes[t] - n))
  {
    hide Tiled;
    Block(base, h, t);
    if IsBlock(base, h, t + (h.sizes[t] - n)) {
      Disjoint(base, h, t, t + (h.sizes[t] - n));
    }
  }

  lemma SplitBlocks(base: nat, h: Heap, t: nat, n: nat, x: nat)
    requires t in h.sizes && n < h.sizes[t]
    ensures IsBlock(base, Split(h, t, n), x) <==> IsBlock(base, h, x) || x == t + (h.sizes[t] - n)
  {
  }

  lemma SplitTiled(base: nat, h: Heap, t: nat, n: nat)
    requires Tiled(base, h) && t in h.free && t != base && t in h.sizes && 0 < n < h.sizes[t]
    ensures var p := t + (h.sizes[t] - n); p !in h.live && p !in h.free && p != base
    ensures Tiled(base, Split(h, t, n))
  {
    SplitNew(base, h, t, n);
    var p := t + (h.sizes[t] - n);
    assert p !in h.free && p !in h.live;
    var h' := Split(h, t, n);
    assert h'.live !! h'.free && h'.owner.Keys == h.owner.Keys;
    hide Covers, IsBlock, Split;
    forall x | IsBlock(base, h', x)
      ensures x in h'.sizes && h'.sizes[x] > 0 && Covers(h'.owner, x, h'.sizes[x])
    {
      SplitBlocks(base, h, t, n, x);
      SplitBlock(base, h, t, n, x);
    }
    forall u | u in h'.owner
      ensures base < u && IsBlock(base, h', h'.owner[u]) && h'.owner[u] in h'.sizes
      ensures h'.owner[u] <= u < h'.owner[u] + h'.sizes[h'.owner[u]]
    {
      SplitUnit(base, h, t, n, u);
      SplitBlocks(base, h, t, n, h'.owner[u]);
    }
  }

  // ---------- new memory ----------

  /** `n` units from `b` on, all in block `b`. */
  function Units(b: nat, n: nat): (r: map<nat, nat>)
    ensures forall u :: u in r <==> b <= u < b + n
    ensures forall u | u in r :: r[u] == b
  {
    if n == 0 then map[] else Units(b, n - 1)[b + n - 1 := b]
  }

  /** sbrk's memory starts out as one allocated block. */
  function Grown(h: Heap, b: nat, n: nat): Heap {
    h.(sizes := h.sizes[b := n], live := h.live + {b}, owner := h.owner + Units(b, n))
  }

  lemma GrownBlock(base: nat, h: Heap, b: nat, n: nat, x: nat)
    requires Tiled(base, h) && 0 < n && (x == b || IsBlock(base, h, x)) && forall u | u in h.owner :: u < b
    ensures var h' := Grown(h, b, n);
            x in h'.sizes && h'.sizes[x] > 0 && Covers(h'.owner, x, h'.sizes[x])
  {
    hide Tiled, IsBlock;
    if x != b {
      Block(base, h, x);
    }
  }

  lemma GrownUnit(base: nat, h: Heap, b: nat, n: nat, u: nat)
    requires Tiled(base, h) && base < b && 0 < n && u in Grown(h, b, n).owner && forall v | v in h.owner :: v < b
    ensures var h' := Grown(h, b, n);
            && base < u && (h'.owner[u] == b || IsBlock(base, h, h'.owner[u]))
            && h'.owner[u] in h'.sizes && h'.owner[u] <= u < h'.owner[u] + h'.sizes[h'.owner[u]]
  {
    hide Tiled, IsBlock;
    if u in h.owner {
      Unit(base, h, u);
      Block(base, h, h.owner[u]);
    }
  }

  lemma GrowTiled(base: nat, h: Heap, b: nat, n: nat)
    requires Tiled(base, h) && base < b && 0 < n
    requires forall u | u in h.owner :: u < b
    ensures b !in h.live && b !in h.free && Tiled(base, Grown(h, b, n))
  {
    if IsBlock(base, h, b) {
      Block(base, h, b);
    }
    var h' := Grown(h, b, n);
    assert b !in h.live && b !in h.free && h'.live !! h'.free;
    assert forall x :: IsBlock(base, h', x) <==> IsBlock(base, h, x) || x == b;
    hide Covers, IsBlock;
    forall x | IsBlock(base, h', x)
      ensures x in h'.sizes && h'.sizes[x] > 0 && Covers(h'.owner, x, h'.sizes[x])
    {
      GrownBlock(base, h, b, n, x);
    }
    forall u | u in h'.owner
      ensures base < u && IsBlock(base, h', h'.owner[u]) && h'.owner[u] in h'.sizes
      ensures h'.owner[u] <= u < h'.owner[u] + h'.sizes[h'.owner[u]]
    {
      GrownUnit(base, h, b, n, u);
    }
  }

  // ---------- what free makes of it all ----------

  /** `b` inserted after `p`, merged with the block it touches above and then with the one below. */
  function Coalesced(h: Heap, b: nat, p: nat): Heap
    requires p in h.next && p in h.sizes && b in h.sizes && p < b
    requires b + h.sizes[b] == h.next[p] ==> h.next[p] in h.sizes && h.next[p] in h.next
  {
    var t := h.next[p];
    var h1 := Inserted(h, b, p);
    var h2 := if b + h.sizes[b] == t then Merged(h1, b, t) else h1;
    if p + h.sizes[p] == b then Merged(h2, p, b) else h2
  }

  lemma NoneBetween(base: nat, h: Heap, b: nat, p: nat, s: nat)
    requires FreeList(base, h) && Place(base, h, b, p) && s in h.free && s < b
    ensures s <= p
  {
    Next(base, h, p);
  }

  lemma FarApart(base: nat, h: Heap, s: nat)
    requires Apart(base, h) && s in h.free && s != base
    ensures s in h.sizes && s + h.sizes[s] !in h.free
  {
  }

  /** Only the two seams at `b` can touch once it is inserted. */
  lemma InsertedApart(base: nat, h: Heap, b: nat, p: nat, s: nat)
    requires Good(base, h) && b in h.live && Place(base, h, b, p)
    requires s in h.free && s != base && s != p
    ensures s in h.sizes && s + h.sizes[s] !in h.free + {b}
  {
    assert IsBlock(base, h, s);
    assert p in h.free && p < b;
    hide Tiled, FreeList, Apart, Place, Follows;
    FarApart(base, h, s);
    if s + h.sizes[s] == b {
      Block(base, h, s);
      NoneBetween(base, h, b, p, s);
      Next(base, h, s);
      assert IsBlock(base, h, p);
      Disjoint(base, h, s, p);
    }
  }

  lemma CoalescedParts(base: nat, h: Heap, b: nat, p: nat)
    requires Good(base, h) && b in h.live && Place(base, h, b, p)
    ensures base < b && b !in h.free && b in h.sizes && h.sizes[b] > 0
    ensures p in h.sizes && p < b && p in h.next && h.next[p] in h.free && p in h.free
    ensures FreeList(base, h) && Tiled(base, h) && Apart(base, h)
    ensures b + h.sizes[b] == h.next[p] ==> h.next[p] in h.sizes && h.next[p] in h.next && h.next[p] != base
    ensures p + h.sizes[p] == b ==> p != base
  {
    assert IsBlock(base, h, b);
    Block(base, h, b);
    Next(base, h, p);
    Next(base, h, h.next[p]);
  }

  lemma CoalescedGood(base: nat, h: Heap, b: nat, p: nat)
    requires Good(base, h) && b in h.live && Place(base, h, b, p)
    ensures p in h.sizes && b in h.sizes && p < b
    ensures b + h.sizes[b] == h.next[p] ==> h.next[p] in h.sizes && h.next[p] in h.next
    ensures var h' := Coalesced(h, b, p);
            FreeList(base, h') && Tiled(base, h')
  {
    CoalescedParts(base, h, b, p);
    hide FreeList, Tiled, Apart;
    InsertList(base, h, b, p);
    InsertTiled(base, h, b, p);
    var t := h.next[p];
    var h1 := Inserted(h, b, p);
    var h2 := if b + h.sizes[b] == t then Merged(h1, b, t) else h1;
    if b + h.sizes[b] == t {
      MergeList(base, h1, b);
      MergeTiled(base, h1, b, t);
    }
    if p + h.sizes[p] == b {
      MergeList(base, h2, p);
      MergeTiled(base, h2, p, b);
    }
  }

  lemma TouchesNextOnly(base: nat, h: Heap, b: nat, p: nat)
    requires Good(base, h) && b in h.live && Place(base, h, b, p)
    ensures b in h.sizes && h.sizes[b] > 0
    ensures b + h.sizes[b] in h.free ==> b + h.sizes[b] == h.next[p]
  {
    assert IsBlock(base, h, b);
    assert p in h.free;
    hide Tiled, FreeList, Apart;
    Block(base, h, b);
    Next(base, h, p);
    Next(base, h, base);
    var t := h.next[p];
    if b + h.sizes[b] in h.free && p < t < b + h.sizes[b] {
      assert IsBlock(base, h, t);
      Disjoint(base, h, b, t);
    }
  }

  lemma CoalescedFields(h: Heap, b: nat, p: nat)
    requires p in h.next && p in h.sizes && b in h.sizes && p < b && h.sizes[b] > 0
    requires b + h.sizes[b] == h.next[p] ==> h.next[p] in h.sizes && h.next[p] in h.next
    ensures var h' := Coalesced(h, b, p);
            var t := h.next[p];
            var size := h.sizes[b] + if b + h.sizes[b] == t then h.sizes[t] else 0;
            && h'.sizes.Keys == h.sizes.Keys
            && (forall x :: x in h'.free <==>
                  && (x == b || x in h.free)
                  && (b + h.sizes[b] == t ==> x != t) && (p + h.sizes[p] == b ==> x != b))
            && h'.sizes[if p + h.sizes[p] == b then p else b]
               == size + (if p + h.sizes[p] == b then h.sizes[p] else 0)
            && (p + h.sizes[p] != b ==> h'.sizes[p] == h.sizes[p])
            && (forall s | s in h.sizes && s != b && s != p :: h'.sizes[s] == h.sizes[s])
  {
  }

  /** Where a block other than the two at `b` and `p` ends, no free block starts. */
  lemma OtherBlockApart(base: nat, h: Heap, b: nat, p: nat, s: nat)
    requires Good(base, h) && b in h.live && Place(base, h, b, p)
    requires p in h.sizes && b in h.sizes
    requires b + h.sizes[b] == h.next[p] ==> h.next[p] in h.sizes && h.next[p] in h.next
    requires s in Coalesced(h, b, p).free && s != base && s != b && s != p
    ensures s in Coalesced(h, b, p).sizes && s + Coalesced(h, b, p).sizes[s] !in Coalesced(h, b, p).free
  {
    hide Good, FreeList, Tiled, Place, Coalesced, Apart;
    CoalescedParts(base, h, b, p);
    CoalescedFields(h, b, p);
    InsertedApart(base, h, b, p, s);
  }

  lemma CoalescedBlockApart(base: nat, h: Heap, b: nat, p: nat, s: nat)
    requires Good(base, h) && b in h.live && Place(base, h, b, p)
    requires p in h.sizes && b in h.sizes
    requires b + h.sizes[b] == h.next[p] ==> h.next[p] in h.sizes && h.next[p] in h.next
    requires s in Coalesced(h, b, p).free && s != base
    ensures s in Coalesced(h, b, p).sizes && s + Coalesced(h, b, p).sizes[s] !in Coalesced(h, b, p).free
  {
    hide Good, FreeList, Tiled, Place, Coalesced, Apart;
    if s != b && s != p {
      OtherBlockApart(base, h, b, p, s);
    } else {
      CoalescedParts(base, h, b, p);
      CoalescedFields(h, b, p);
      TouchesNextOnly(base, h, b, p);
      if s == p && p + h.sizes[p] != b {
        FarApart(base, h, p);
      } else if b + h.sizes[b] == h.next[p] {
        FarApart(base, h, h.next[p]);
      }
    }
  }

  lemma CoalescedApart(base: nat, h: Heap, b: nat, p: nat)
    requires Good(base, h) && b in h.live && Place(base, h, b, p)
    ensures p in h.sizes && b in h.sizes && p < b
    ensures b + h.sizes[b] == h.next[p] ==> h.next[p] in h.sizes && h.next[p] in h.next
    ensures Apart(base, Coalesced(h, b, p))
  {
    hide Good, FreeList, Tiled, Place, Coalesced;
    CoalescedParts(base, h, b, p);
    forall s | s in Coalesced(h, b, p).free && s != base
      ensures s in Coalesced(h, b, p).sizes && s + Coalesced(h, b, p).sizes[s] !in Coalesced(h, b, p).free
    {
      CoalescedBlockApart(base, h, b, p, s);
    }
  }

  /** `Coalesced`, as the stores that bring it about. */
  lemma CoalescedStores(h: Heap, b: nat, p: nat)
    requires p in h.next && p in h.sizes && b in h.sizes && p < b && h.sizes[b] > 0
    requires b + h.sizes[b] == h.next[p] ==> h.next[p] in h.sizes && h.next[p] in h.next
    ensures var t := h.next[p];
            var sizes1 := if b + h.sizes[b] == t then h.sizes[b := h.sizes[b] + h.sizes[t]] else h.sizes;
            var next1 := if b + h.sizes[b] == t then h.next[b := h.next[t]] else h.next[b := t];
            && Coalesced(h, b, p).sizes
               == (if p + h.sizes[p] == b then sizes1[p := sizes1[p] + sizes1[b]] else sizes1)
            && Coalesced(h, b, p).next == (if p + h.sizes[p] == b then next1[p := next1[b]] else next1[p := b])
            && Coalesced(h, b, p).live == h.live - {b}
            && Coalesced(h, b, p).owner.Keys == h.owner.Keys
  {
  }

  // ---------- what stays as it was ----------

  /** The blocks in `kept` have the same size and the same units as before. */
  ghost predicate Undisturbed(h: Heap, h': Heap, kept: set<nat>) {
    && (forall s | s in kept :: s in h.sizes && s in h'.sizes && h'.sizes[s] == h.sizes[s])
    && (forall u | u in h.owner ::
          && u in h'.owner
          && (h.owner[u] in kept || h'.owner[u] in kept ==> h'.owner[u] == h.owner[u]))
  }

  lemma UndisturbedTwice(h: Heap, h1: Heap, h2: Heap, kept: set<nat>)
    requires Undisturbed(h, h1, kept) && Undisturbed(h1, h2, kept)
    ensures Undisturbed(h, h2, kept)
  {
  }

  lemma LiveSized(base: nat, h: Heap)
    requires Tiled(base, h)
    ensures forall s | s in h.live :: s in h.sizes
    ensures h.live !! h.free
  {
    forall s | s in h.live ensures s in h.sizes {
      assert IsBlock(base, h, s);
    }
  }

  lemma CoalescedOwner(h: Heap, b: nat, p: nat, u: nat)
    requires p in h.next && p in h.sizes && b in h.sizes && p < b && h.sizes[b] > 0
    requires b + h.sizes[b] == h.next[p] ==> h.next[p] in h.sizes && h.next[p] in h.next
    requires u in h.owner
    ensures var owner' := Coalesced(h, b, p).owner;
            && u in owner'
            && (owner'[u] == h.owner[u]
                || (owner'[u] in {p, b} && h.owner[u] == b)
                || (owner'[u] in {p, b} && h.owner[u] == h.next[p] && b + h.sizes[b] == h.next[p]))
  {
  }

  lemma CoalescedUndisturbed(base: nat, h: Heap, b: nat, p: nat)
    requires Good(base, h) && b in h.live && Place(base, h, b, p)
    ensures Coalesced.requires(h, b, p) && Undisturbed(h, Coalesced(h, b, p), h.live - {b})
  {
    hide Good, FreeList, Tiled, Place, Coalesced, Apart;
    CoalescedParts(base, h, b, p);
    CoalescedFields(h, b, p);
    LiveSized(base, h);
    var h' := Coalesced(h, b, p);
    forall u | u in h.owner
      ensures u in h'.owner
      ensures h.owner[u] in h.live - {b} || h'.owner[u] in h.live - {b} ==> h'.owner[u] == h.owner[u]
    {
      CoalescedOwner(h, b, p, u);
    }
  }

  lemma TakenUndisturbed(base: nat, h: Heap, s: nat, t: nat)
    requires Tiled(base, h) && t in h.next
    ensures Undisturbed(h, Taken(h, s, t), h.live)
  {
    hide Tiled;
    LiveSized(base, h);
  }

  lemma SplitUndisturbed(base: nat, h: Heap, t: nat, n: nat)
    requires Tiled(base, h) && t in h.free && t != base && t in h.sizes && 0 < n < h.sizes[t]
    ensures Undisturbed(h, Split(h, t, n), h.live)
  {
    hide Tiled, IsBlock;
    SplitNew(base, h, t, n);
    LiveSized(base, h);
    Block(base, h, t);
    var p := t + (h.sizes[t] - n);
    NewBlock(base, h, p);
  }

  lemma NewBlock(base: nat, h: Heap, p: nat)
    requires Tiled(base, h) && !IsBlock(base, h, p)
    ensures p !in h.live
    ensures forall u | u in h.owner :: h.owner[u] != p
  {
  }

  lemma GrownUndisturbed(base: nat, h: Heap, b: nat, n: nat)
    requires Tiled(base, h) && base < b && 0 < n
    requires forall u | u in h.owner :: u < b
    ensures Undisturbed(h, Grown(h, b, n), h.live)
  {
    hide Tiled;
    LiveSized(base, h);
    GrowTiled(base, h, b, n);
  }

  // ---------- the three ways the heap changes keep it good ----------

  lemma GrownList(base: nat, h: Heap, b: nat, n: nat)
    requires FreeList(base, h) && Apart(base, h) && b !in h.free
    ensures FreeList(base, Grown(h, b, n)) && Apart(base, Grown(h, b, n))
  {
    hide Follows;
  }

  lemma GrownGood(base: nat, h: Heap, b: nat, n: nat)
    requires Good(base, h) && base < b && 0 < n
    requires forall u | u in h.owner :: u < b
    ensures Good(base, Grown(h, b, n)) && b !in h.live && b !in h.free
  {
    hide Tiled, FreeList, Apart, Grown;
    GrowTiled(base, h, b, n);
    GrownList(base, h, b, n);
  }

  lemma TakenGood(base: nat, h: Heap, s: nat)
    requires Good(base, h) && s in h.free && s in h.next && h.next[s] != base
    ensures h.next[s] in h.next && h.next[s] in h.free && Good(base, Taken(h, s, h.next[s]))
  {
    hide Tiled, Follows;
    TakeList(base, h, s);
    TakeTiled(base, h, s, h.next[s]);
  }

  lemma SplitList(base: nat, h: Heap, t: nat, n: nat)
    requires FreeList(base, h) && t in h.free && t != base && t in h.sizes && 0 < n < h.sizes[t]
    requires t + (h.sizes[t] - n) !in h.free
    ensures FreeList(base, Split(h, t, n))
  {
    hide Follows;
  }

  lemma SplitApart(base: nat, h: Heap, t: nat, n: nat)
    requires Apart(base, h) && t in h.free && t != base && t in h.sizes && 0 < n < h.sizes[t]
    requires t + (h.sizes[t] - n) !in h.free
    ensures Apart(base, Split(h, t, n))
  {
  }

  lemma SplitGood(base: nat, h: Heap, t: nat, n: nat)
    requires Good(base, h) && t in h.free && t != base && t in h.sizes && 0 < n < h.sizes[t]
    ensures Good(base, Split(h, t, n))
  {
    hide Tiled, FreeList, Apart, Split;
    SplitTiled(base, h, t, n);
    SplitList(base, h, t, n);
    SplitApart(base, h, t, n);
  }

  lemma CoalescedIsGood(base: nat, h: Heap, b: nat, p: nat)
    requires Good(base, h) && b in h.live && Place(base, h, b, p)
    ensures Coalesced.requires(h, b, p) && Good(base, Coalesced(h, b, p))
  {
    hide FreeList, Tiled, Apart, Place, Coalesced;
    CoalescedParts(base, h, b, p);
    CoalescedGood(base, h, b, p);
    CoalescedApart(base, h, b, p);
  }

  /** Before the first request there is no list. */
  ghost predicate Sound(base: nat, h: Heap, freep: Option<nat>, brk: nat) {
    && base < brk && (forall u | u in h.owner :: u < brk)
    && match freep
       case None => h.free == {} && h.live == {} && h.owner == map[]
       case Some(p) => p in h.free && Good(base, h)
  }

  lemma FirstList(base: nat, h: Heap)
    requires h.free == {} && h.live == {} && h.owner == map[]
    ensures Good(base, h.(next := h.next[base := base], sizes := h.sizes[base := 0], free := {base}))
  {
  }

  lemma Listed(base: nat, h: Heap, freep: Option<nat>, brk: nat, b: nat)
    requires Sound(base, h, freep, brk) && freep.Some? && b in h.live
    ensures freep.value in h.free && Good(base, h) && FreeList(base, h) && b !in h.free && base < b
  {
    LiveSized(base, h);
    assert IsBlock(base, h, b);
    Block(base, h, b);
  }

  ghost function Untried(free: set<nat>, b: nat, p: nat): set<nat> {
    set x | x in free && p < x && (b < p || x < b)
  }

  /** One step of the search for the place of `b`, which comes no nearer only at the place itself. */
  lemma Searching(base: nat, h: Heap, b: nat, p: nat)
    requires FreeList(base, h) && b !in h.free && base < b && p in h.free && p in h.next
    requires !(p < b && b < h.next[p])
    ensures h.next[p] in h.free && h.next[p] in h.next
    ensures p >= h.next[p] && (b > p || b < h.next[p]) ==> Place(base, h, b, p)
    ensures !(p >= h.next[p] && (b > p || b < h.next[p])) ==>
              var q := h.next[p];
              || (b < p && q <= b)
              || ((b < p <==> b < q)
                  && Untried(h.free, b, q) < Untried(h.free, b, p))
  {
    hide FreeList;
    Next(base, h, p);
    Next(base, h, h.next[p]);
    var q := h.next[p];
    if !(p >= q && (b > p || b < q)) && (b < p <==> b < q) {
      assert q in Untried(h.free, b, p) && q !in Untried(h.free, b, q);
    }
  }

  lemma Placed(base: nat, h: Heap, b: nat, p: nat)
    requires FreeList(base, h) && p in h.free && p in h.next
    requires p < b && (b < h.next[p] || h.next[p] == base)
    ensures Place(base, h, b, p)
  {
  }

  /** The free blocks a search at `p` has yet to look at, the last being `last`. */
  ghost function Ahead(free: set<nat>, p: nat, last: nat): set<nat> {
    if p <= last then set x | x in free && p <= x <= last
    else set x | x in free && (p <= x || x <= last)
  }

  lemma AheadStart(base: nat, h: Heap, last: nat)
    requires FreeList(base, h) && last in h.free
    ensures last in h.next && Ahead(h.free, h.next[last], last) == h.free
  {
    hide FreeList;
    Next(base, h, last);
    forall x | x in h.free ensures base <= x {
      Next(base, h, x);
    }
  }

  lemma AheadStep(base: nat, h: Heap, p: nat, last: nat)
    requires FreeList(base, h) && last in h.free && p in h.free && p != last
    ensures p in h.next && Ahead(h.free, h.next[p], last) == Ahead(h.free, p, last) - {p}
    ensures p in Ahead(h.free, p, last)
  {
    hide FreeList;
    Next(base, h, p);
    forall x | x in h.free ensures base <= x {
      Next(base, h, x);
    }
  }

  /** What free leaves behind. */
  lemma Freed(base: nat, h: Heap, freep: Option<nat>, brk: nat, b: nat, p: nat)
    requires Sound(base, h, freep, brk) && freep.Some? && b in h.live && Place(base, h, b, p)
    ensures Coalesced.requires(h, b, p) && h.sizes[b] > 0
    ensures var h' := Coalesced(h, b, p);
            var f := if p + h.sizes[p] == b then p else b;
            && Sound(base, h', Some(p), brk)
            && Undisturbed(h, h', h.live - {b})
            && f in h'.free && f != base && f in h'.sizes && f <= b && b + h.sizes[b] <= f + h'.sizes[f]
  {
    hide FreeList, Tiled, Apart, Coalesced, Place;
    CoalescedParts(base, h, b, p);
    CoalescedFields(h, b, p);
    CoalescedStores(h, b, p);
    CoalescedIsGood(base, h, b, p);
    CoalescedUndisturbed(base, h, b, p);
  }

  lemma GrownSound(base: nat, h: Heap, freep: Option<nat>, brk: nat, b: nat, n: nat)
    requires Sound(base, h, freep, brk) && freep.Some? && brk <= b && 0 < n
    ensures Sound(base, Grown(h, b, n), freep, b + n) && b !in h.live && Undisturbed(h, Grown(h, b, n), h.live)
  {
    hide Good, Undisturbed;
    GoodTiled(base, h);
    GrownGood(base, h, b, n);
    GrownUndisturbed(base, h, b, n);
  }

  lemma GoodTiled(base: nat, h: Heap)
    requires Good(base, h)
    ensures Tiled(base, h) && FreeList(base, h)
  {
  }

  lemma TakenSound(base: nat, h: Heap, freep: Option<nat>, brk: nat, s: nat)
    requires Sound(base, h, freep, brk) && freep.Some? && s in h.free && s in h.next && h.next[s] != base
    ensures var t := h.next[s];
            && t in h.next && t in h.free && t !in h.live && Sound(base, Taken(h, s, t), Some(s), brk)
            && Undisturbed(h, Taken(h, s, t), h.live)
  {
    hide Good, FreeList, Undisturbed;
    GoodTiled(base, h);
    Next(base, h, s);
    TakenGood(base, h, s);
    TakenUndisturbed(base, h, s, h.next[s]);
    LiveSized(base, h);
    assert Follows(base, h.free, s, h.next[s]);
  }

  lemma SplitFresh(base: nat, h: Heap, t: nat, n: nat)
    requires Tiled(base, h) && t in h.free && t != base && t in h.sizes && 0 < n < h.sizes[t]
    ensures t + (h.sizes[t] - n) !in h.live
  {
    var p := t + (h.sizes[t] - n);
    hide Tiled, IsBlock;
    SplitNew(base, h, t, n);
    NewBlock(base, h, p);
  }

  lemma SplitFields(h: Heap, t: nat, n: nat)
    requires t in h.sizes && n < h.sizes[t]
    ensures Split(h, t, n).free == h.free && Split(h, t, n).owner.Keys == h.owner.Keys
  {
    hide Carved;
  }

  lemma SplitSound(base: nat, h: Heap, freep: Option<nat>, brk: nat, s: nat, t: nat, n: nat)
    requires Sound(base, h, freep, brk) && freep.Some? && s in h.free
    requires t in h.free && t != base && t in h.sizes && 0 < n < h.sizes[t]
    ensures t + (h.sizes[t] - n) !in h.live && Sound(base, Split(h, t, n), Some(s), brk)
    ensures Undisturbed(h, Split(h, t, n), h.live)
  {
    hide Good, FreeList, Undisturbed, IsBlock, Tiled, Split, Carved;
    GoodTiled(base, h);
    SplitGood(base, h, t, n);
    SplitFields(h, t, n);
    SplitFresh(base, h, t, n);
    SplitUndisturbed(base, h, t, n);
  }

  /** Allocated blocks of a sound heap do not overlap. */
  lemma LiveApart(base: nat, h: Heap, freep: Option<nat>, brk: nat, s: nat, b: nat)
    requires Sound(base, h, freep, brk) && freep.Some? && s in h.live && b in h.live && s != b
    ensures s in h.sizes && b in h.sizes && (s + h.sizes[s] <= b || b + h.sizes[b] <= s)
  {
    hide FreeList, Tiled, Apart;
    assert IsBlock(base, h, s) && IsBlock(base, h, b);
    if s < b {
      Disjoint(base, h, s, b);
    } else {
      Disjoint(base, h, b, s);
    }
  }

  lemma Steady(base: nat, h: Heap, freep: Option<nat>, brk: nat)
    requires Sound(base, h, freep, brk) && freep.Some?
    ensures freep.value in h.free && Undisturbed(h, h, h.live)
  {
    hide FreeList, Tiled, Apart;
    LiveSized(base, h);
  }

  lemma FromNothing(h: Heap, h': Heap)
    requires h.owner == map[]
    ensures Undisturbed(h, h', {})
  {
  }

  lemma AllLiveApart(base: nat, h: Heap, freep: Option<nat>, brk: nat, b: nat)
    requires Sound(base, h, freep, brk) && freep.Some? && b in h.live
    ensures b in h.sizes
    ensures forall s | s in h.live && s != b ::
              s in h.sizes && (s + h.sizes[s] <= b || b + h.sizes[b] <= s)
  {
    hide Sound;
    SoundSized(base, h, freep, brk);
    forall s | s in h.live && s != b
      ensures s in h.sizes && (s + h.sizes[s] <= b || b + h.sizes[b] <= s)
    {
      LiveApart(base, h, freep, brk, s, b);
    }
  }

  lemma SoundSized(base: nat, h: Heap, freep: Option<nat>, brk: nat)
    requires Sound(base, h, freep, brk) && freep.Some?
    ensures forall s | s in h.live :: s in h.sizes
    ensures forall s | s in h.free :: s in h.sizes
  {
    LiveSized(base, h);
  }

  lemma RoomIs(n: nat, bytes: nat)
    requires n == Headers(bytes)
    ensures n > 0 && bytes <= (n - 1) * UNIT && (n >= 2 ==> (n - 2) * UNIT < bytes)
  {
  }

  /** A free block and the place before it, as the search in malloc holds them. */
  lemma Looking(base: nat, h: Heap, freep: Option<nat>, brk: nat, p: nat)
    requires Sound(base, h, freep, brk) && freep.Some? && p in h.free
    ensures p in h.sizes && p in h.next && h.next[p] in h.free && h.next[p] in h.sizes && h.next[p] in h.next
    ensures base in h.sizes && h.sizes[base] == 0 && freep.value in h.free && freep.value in h.next
    ensures Ahead(h.free, h.next[freep.value], freep.value) == h.free
    ensures p != freep.value ==>
              && Ahead(h.free, h.next[p], freep.value) == Ahead(h.free, p, freep.value) - {p}
              && p in Ahead(h.free, p, freep.value)
    ensures Ahead(h.free, freep.value, freep.value) == {freep.value}
  {
    hide Tiled, Apart, FreeList, Follows, Good, Sound, Ahead;
    Steady(base, h, freep, brk);
    SoundList(base, h, freep, brk);
    Next(base, h, p);
    Next(base, h, h.next[p]);
    Next(base, h, base);
    AheadStart(base, h, freep.value);
    AheadLast(h.free, freep.value);
    if p != freep.value {
      AheadStep(base, h, p, freep.value);
    }
  }

  lemma SoundList(base: nat, h: Heap, freep: Option<nat>, brk: nat)
    requires Sound(base, h, freep, brk) && freep.Some?
    ensures FreeList(base, h) && base in h.free
  {
  }

  lemma AheadLast(free: set<nat>, last: nat)
    requires last in free
    ensures Ahead(free, last, last) == {last}
  {
  }

  const UNIT := 16    // sizeof(Header)
  const MIN_CORE := 4096

  /** Headers needed for `bytes` bytes and the header before them. */
  function Headers(bytes: nat): nat {
    (bytes + UNIT - 1) / UNIT + 1
  }

  /** A block of `n` headers, the first of which is its own, has room for `bytes` bytes. */
  predicate HasRoom(n: nat, bytes: nat) {
    bytes <= (n - 1) * UNIT
  }

  /** That many are needed, and no fewer do. */
  lemma HeadersHold(bytes: nat)
    ensures forall n: nat :: HasRoom(n, bytes) <==> Headers(bytes) <= n
  {
  }

  class Allocator {
    const base: nat
    var next: map<nat, nat>
    var sizes: map<nat, nat>
    var freep: Option<nat>
    var brk: nat
    ghost var free: set<nat>
    ghost var live: set<nat>
    ghost var owner: map<nat, nat>
    ghost var refusals: nat             // how often the kernel had no more memory

    ghost function View(): Heap
      reads this
    {
      Heap(next, sizes, free, live, owner)
    }

    ghost predicate Valid()
      reads this
    {
      Sound(base, View(), freep, brk)
    }

    constructor (base: nat, brk: nat)
      requires base < brk
      ensures Valid() && this.base == base && live == {} && owner == map[]
    {
      this.base, this.brk, this.freep := base, brk, None;
      next, sizes, free, live, owner, refusals := map[], map[], {}, {}, map[], 0;
    }

    /** The kernel refuses, or the caller gets `n` headers somewhere above all it had before. */
    method Sbrk(n: nat) returns (r: Option<nat>)
      modifies this`brk, this`refusals
      ensures refusals == if r.None? then old(refusals) + 1 else old(refusals)
      ensures r.None? ==> brk == old(brk)
      ensures r.Some? ==> old(brk) <= r.value && brk == r.value + n
    {
      var refuse: bool, gap: nat := *, *;
      if refuse {
        refusals := refusals + 1;
        return None;
      }
      r := Some(brk + gap);
      brk := brk + gap + n;
    }

    /** The list position of `b`: the search starts anywhere and goes round at most once. */
    method FindPlace(b: nat) returns (p: nat)
      requires Valid() && freep.Some? && b in live
      ensures Place(base, View(), b, p)
    {
      hide Good, FreeList, Tiled, Apart, Follows, Sound, Place;
      ghost var h := View();
      Listed(base, h, freep, brk, b);
      p := freep.value;
      Next(base, h, p);
      while !(p < b && b < next[p])
        invariant p in free && p in next
        decreases b < p, Untried(free, b, p)
      {
        Searching(base, h, b, p);
        if p >= next[p] && (b > p || b < next[p]) {
          return;
        }
        p := next[p];
      }
      Placed(base, h, b, p);
    }

    /** Gives block `b` back: it joins the list, merged with whatever it touches. `f` is the free
        block it ends up in. */
    method Free(b: nat) returns (ghost f: nat)
      requires Valid() && freep.Some? && b in live
      modifies this`next, this`sizes, this`freep, this`free, this`live, this`owner
      ensures Valid() && freep.Some?
      ensures live == old(live) - {b} && owner.Keys == old(owner.Keys)
      ensures Undisturbed(old(View()), View(), live)
      ensures b in old(sizes)
      ensures f in free && f != base && f in sizes && f <= b && b + old(sizes)[b] <= f + sizes[f]
    {
      hide Good, Sound, Place, Coalesced, Undisturbed;
      ghost var h := View();
      var p: nat := FindPlace(b);
      Freed(base, h, freep, brk, b, p);
      CoalescedStores(h, b, p);
      f := if p + sizes[p] == b then p else b;
      free, live, owner := Coalesced(h, b, p).free, Coalesced(h, b, p).live, Coalesced(h, b, p).owner;
      if b + sizes[b] == next[p] {
        sizes := sizes[b := sizes[b] + sizes[next[p]]];
        next := next[b := next[next[p]]];
      } else {
        next := next[b := next[p]];
      }
      if p + sizes[p] == b {
        sizes := sizes[p := sizes[p] + sizes[b]];
        next := next[p := next[b]];
      } else {
        next := next[p := b];
      }
      freep := Some(p);
      assert View() == Coalesced(h, b, p);
    }

    /** Asks for at least `nu` headers more and frees them onto the list. `f` is the free block
        they end up in. */
    method Morecore(nu: nat) returns (r: Option<nat>, ghost f: nat)
      requires Valid() && freep.Some? && 0 < nu
      modifies this
      ensures Valid() && freep.Some?
      ensures r.None? ==> View() == old(View()) && freep == old(freep) && brk == old(brk)
      ensures refusals == if r.None? then old(refusals) + 1 else old(refusals)
      ensures r.Some? ==> r == freep && live == old(live) && Undisturbed(old(View()), View(), live)
      ensures r.Some? ==> old(owner).Keys <= owner.Keys
      ensures r.Some? ==> f in free && f != base && f in sizes && nu <= sizes[f] && 4096 <= sizes[f]
    {
      hide Good, Sound, Undisturbed;
      var n := if nu < MIN_CORE then MIN_CORE else nu;
      f := 0;
      ghost var h := View();
      ghost var brk0 := brk;
      var hp := Sbrk(n);
      if hp.None? {
        return None, f;
      }
      GrownSound(base, h, freep, brk0, hp.value, n);
      sizes := sizes[hp.value := n];
      live, owner := live + {hp.value}, owner + Units(hp.value, n);
      ghost var h1 := View();
      assert h1 == Grown(h, hp.value, n);
      f := Free(hp.value);
      assert live == h.live;
      UndisturbedTwice(h, h1, View(), h.live);
      r := freep;
    }

    /** Takes `n` headers out of free block `p`, the one after `prevp`: all of it, or its tail. */
    method HandOut(prevp: nat, p: nat, n: nat) returns (b: nat)
      requires Valid() && freep.Some? && 0 < n
      requires prevp in free && prevp in next && next[prevp] == p && p in sizes && n <= sizes[p]
      modifies this`next, this`sizes, this`freep, this`free, this`live, this`owner
      ensures Valid() && freep == Some(prevp)
      ensures b !in old(live) && live == old(live) + {b} && b in sizes && sizes[b] == n
      ensures Undisturbed(old(View()), View(), old(live)) && owner.Keys == old(owner.Keys)
    {
      hide Good, Sound, Undisturbed;
      ghost var h := View();
      Looking(base, h, freep, brk, prevp);
      if sizes[p] == n {
        TakenSound(base, h, freep, brk, prevp);
        next := next[prevp := next[p]];
        b := p;
        free, live := free - {p}, live + {p};
        assert View() == Taken(h, prevp, p);
      } else {
        SplitSound(base, h, freep, brk, prevp, p, n);
        sizes := sizes[p := sizes[p] - n];
        b := p + sizes[p];
        sizes := sizes[b := n];
        live, owner := live + {b}, Carved(owner, b, n);
        assert View() == Split(h, p, n);
      }
      freep := Some(prevp);
    }

    /** Where the search starts; the very first request sets up the list of `base` alone. */
    method Start() returns (prevp: nat, p: nat)
      requires Valid()
      modifies this`next, this`sizes, this`freep, this`free
      ensures Valid() && freep == Some(prevp) && prevp in free && prevp in next && next[prevp] == p
      ensures live == old(live) && owner == old(owner)
      ensures if old(freep).Some? then View() == old(View()) && freep == old(freep) else free == {base} && live == {} && owner == map[]
      ensures old(freep).None? ==> old(free) == {}
    {
      hide Good;
      if freep.None? {
        FirstList(base, View());
        next, sizes := next[base := base], sizes[base := 0];
        free, freep := {base}, Some(base);
      }
      Looking(base, View(), freep, brk, freep.value);
      prevp := freep.value;
      p := next[prevp];
    }

    /** First fit from where the last search ended: a block with room for the bytes, and no larger than that
        takes. Memory is asked for only when no free block has room, and at most once. */
    method Malloc(bytes: nat) returns (r: Option<nat>, ghost growths: nat)
      requires Valid()
      requires bytes + 2 * UNIT <= 0x8000_0000  // sbrk takes an int
      modifies this
      ensures Valid() && freep.Some?
      ensures growths <= 1
      ensures growths == 0 ==> brk == old(brk) && owner.Keys == old(owner.Keys)
      ensures growths == 1 || r.None? ==> forall s | s in old(free) :: s in old(sizes) && !HasRoom(old(sizes)[s], bytes)
      ensures old(owner.Keys) <= owner.Keys && Undisturbed(old(View()), View(), old(live))
      ensures r.None? ==> growths == 0 && live == old(live) && refusals == old(refusals) + 1
      ensures r.Some? ==> refusals == old(refusals)
      ensures r.Some? ==>
                var b := r.value;
                && b !in old(live) && live == old(live) + {b} && b in sizes
                && bytes <= (sizes[b] - 1) * UNIT && (sizes[b] >= 2 ==> (sizes[b] - 2) * UNIT < bytes)
      ensures r.Some? ==>
                forall s | s in old(live) ::
                  s in sizes && r.value in sizes && (s + sizes[s] <= r.value || r.value + sizes[r.value] <= s)
    {
      hide Good, Sound, Undisturbed, Ahead, Headers, HasRoom;
      var n := Headers(bytes);
      HeadersHold(bytes);
      RoomIs(n, bytes);
      growths := 0;
      var prevp, p := Start();
      ghost var h, f := View(), 0;
      Steady(base, h, freep, brk);
      if old(freep).None? {
        FromNothing(old(View()), h);
      }
      Looking(base, h, freep, brk, prevp);
      while true
        invariant Valid() && freep.Some? && growths <= 1
        invariant prevp in free && prevp in next && next[prevp] == p && p in free && p in sizes && p in next
        invariant growths == 0 ==> View() == h && brk == old(brk)
        invariant refusals == old(refusals) && n > 0
        invariant growths == 0 ==> forall s | s in free && s !in Ahead(free, p, freep.value) :: s in sizes && sizes[s] < n
        invariant growths == 1 ==> forall s | s in h.free :: s in h.sizes && h.sizes[s] < n
        invariant growths == 1 ==> f in Ahead(free, p, freep.value) && f in sizes && n <= sizes[f]
        invariant live == h.live && h.owner.Keys <= owner.Keys && Undisturbed(h, View(), live)
        decreases 1 - growths, Ahead(free, p, freep.value)
      {
        Looking(base, View(), freep, brk, p);
        if sizes[p] >= n {
          ghost var h1 := View();
          var b := HandOut(prevp, p, n);
          UndisturbedTwice(h, h1, View(), h.live);
          UndisturbedTwice(old(View()), h, View(), h.live);
          AllLiveApart(base, View(), freep, brk, b);
          return Some(b), growths;
        }
        if p == freep.value {
          var core;
          core, f := Morecore(n);
          if core.None? {
            SoundSized(base, View(), freep, brk);
            return None, growths;
          }
          Steady(base, View(), freep, brk);
          growths := growths + 1;
          p := core.value;
          Looking(base, View(), freep, brk, p);
        }
        prevp, p := p, next[p];
        Looking(base, View(), freep, brk, p);
      }
    }
  }
}
