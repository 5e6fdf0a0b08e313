/** Pipes: a ring of 512 bytes under one lock, readers and writers taking turns at it. */
module Pipes {
  import opened Blocks

  const SIZE := 512

  /** What ends one round of the loop in write or read. */
  datatype Round =
    | Moved(n: nat)   // so many bytes copied
    | Wait            // full or empty: the process sleeps
    | Stop            // nothing more to do, or the user copy failed
    | Closed          // the other end is closed
    | Killed          // the process was killed

  /** How write ends: with so many bytes put in, or before it is done; a process may also still be asleep. */
  datatype WriteEnd = Wrote(n: nat) | NoReader | WriterKilled | WriterAsleep

  datatype ReadEnd = Got(bytes: seq<Byte>) | ReaderKilled | ReaderAsleep

  /** A byte in the pipe and the process that wrote it. */
  datatype Item = Item(byte: Byte, writer: nat)

  function Bytes(items: seq<Item>): (r: seq<Byte>)
    ensures |r| == |items| && forall i | 0 <= i < |items| :: r[i] == items[i].byte
  {
    seq(|items|, i requires 0 <= i < |items| => items[i].byte)
  }

  /** The bytes process `w` put in, in order. */
  function From(items: seq<Item>, w: nat): seq<Byte> {
    if items == [] then []
    else From(items[..|items| - 1], w) + (if items[|items| - 1].writer == w then [items[|items| - 1].byte] else [])
  }

  function Items(bytes: seq<Byte>, w: nat): (r: seq<Item>)
    ensures |r| == |bytes| && forall i | 0 <= i < |bytes| :: r[i] == Item(bytes[i], w)
  {
    seq(|bytes|, i requires 0 <= i < |bytes| => Item(bytes[i], w))
  }

  /** The bytes process `r` took out, in order: `takers` names the process that took each. */
  function Taken(items: seq<Item>, takers: seq<nat>, r: nat): seq<Byte>
    requires |takers| <= |items|
  {
    if takers == [] then []
    else
      Taken(items, takers[..|takers| - 1], r)
      + (if takers[|takers| - 1] == r then [items[|takers| - 1].byte] else [])
  }

  lemma {:induction false} FromMore(items: seq<Item>, bytes: seq<Byte>, w: nat, v: nat)
    ensures From(items + Items(bytes, w), v) == From(items, v) + (if v == w then bytes else [])
    decreases |bytes|
  {
    if bytes == [] {
      assert items + Items(bytes, w) == items;
    } else {
      var front, all := bytes[..|bytes| - 1], items + Items(bytes, w);
      assert all[..|all| - 1] == items + Items(front, w);
      FromMore(items, front, w, v);
      assert bytes == front + [bytes[|bytes| - 1]];
    }
  }

  function Same(r: nat, n: nat): (s: seq<nat>)
    ensures |s| == n && forall i | 0 <= i < n :: s[i] == r
  {
    seq(n, i => r)
  }

  lemma TakenLast(items: seq<Item>, takers: seq<nat>, q: nat)
    requires 0 < |takers| <= |items|
    ensures var last := |takers| - 1;
            Taken(items, takers, q) == Taken(items, takers[..last], q) + (if takers[last] == q then [items[last].byte] else [])
  {
  }

  lemma {:induction false} TakenMore(items: seq<Item>, takers: seq<nat>, n: nat, r: nat, q: nat)
    requires |takers| + n <= |items|
    ensures Taken(items, takers + Same(r, n), q)
         == Taken(items, takers, q) + (if q == r then Bytes(items[|takers|..|takers| + n]) else [])
    decreases n
  {
    hide Taken;
    if n == 0 {
      assert takers + Same(r, n) == takers;
      assert Taken(items, takers, q) + [] == Taken(items, takers, q);
    } else {
      var all, last := takers + Same(r, n), |takers| + n - 1;
      assert all[..last] == takers + Same(r, n - 1) && all[last] == r;
      TakenMore(items, takers, n - 1, r, q);
      var front := Bytes(items[|takers|..last]);
      assert Bytes(items[|takers|..|takers| + n]) == front + [items[last].byte];
      TakenLast(items, all, q);
      assert Taken(items, takers, q) + (front + [items[last].byte]) == Taken(items, takers, q) + front + [items[last].byte];
    }
  }

  /** More in the pipe does not change what was taken. */
  lemma {:induction false} TakenStays(items: seq<Item>, more: seq<Item>, takers: seq<nat>, r: nat)
    requires |takers| <= |items|
    ensures Taken(items + more, takers, r) == Taken(items, takers, r)
    decreases |takers|
  {
    if takers != [] {
      TakenStays(items, more, takers[..|takers| - 1], r);
    }
  }

  lemma SlotsDiffer(i: nat, j: nat)
    requires i < j < i + SIZE
    ensures i % SIZE != j % SIZE
  {
  }

  lemma Contiguous(i: nat, n: nat, k: nat)
    requires i % SIZE + n <= SIZE && k < n
    ensures (i + k) % SIZE == i % SIZE + k
  {
  }

  class Pipe {
    const data: array<Byte>
    var readCount: nat
    var writeCount: nat
    var readIsOpen: bool
    var writeIsOpen: bool
    ghost var items: seq<Item>     // all ever put in
    ghost var takers: seq<nat>     // who took each that was taken

    ghost predicate Valid()
      reads this, data
    {
      && data.Length == SIZE && readCount <= writeCount <= readCount + SIZE
      && |items| == writeCount && |takers| == readCount
      && forall i: nat | readCount <= i < writeCount :: data[i % SIZE] == items[i].byte
    }

    constructor ()
      ensures Valid() && fresh(data) && items == [] && takers == [] && readIsOpen && writeIsOpen
    {
      data := new Byte[SIZE](i => 0);
      readCount, writeCount, readIsOpen, writeIsOpen := 0, 0, true, true;
      items, takers := [], [];
    }

    /** Copies user bytes into the buffer; a copy that fails may have written some of them. */
    method CopyIn(position: nat, src: seq<Byte>, fails: bool)
      requires data.Length == SIZE && position + |src| <= SIZE
      modifies data
      ensures forall i | 0 <= i < SIZE && !(position <= i < position + |src|) :: data[i] == old(data[i])
      ensures !fails ==> forall i | 0 <= i < |src| :: data[position + i] == src[i]
    {
      var some: nat := *;
      var n := if fails && some < |src| then some else |src|;
      forall i | 0 <= i < n {
        data[position + i] := src[i];
      }
    }

    /** One round of write by process `w`, which has `src` still to write. */
    method WriteRound(w: nat, src: seq<Byte>, killed: bool, copyFails: bool) returns (r: Round)
      requires Valid() && src != []
      modifies this`writeCount, this`items, data
      ensures Valid()
      ensures r == Closed <==> !readIsOpen
      ensures r == Killed <==> readIsOpen && killed
      ensures r == Wait <==> readIsOpen && !killed && old(writeCount) == readCount + SIZE
      ensures r == Stop <==> readIsOpen && !killed && old(writeCount) < readCount + SIZE && copyFails
      ensures !r.Moved? ==> items == old(items) && writeCount == old(writeCount)
      ensures r.Moved? ==> 0 < r.n <= |src| && items == old(items) + Items(src[..r.n], w)
    {
      if !readIsOpen {
        return Closed;
      }
      if killed {
        return Killed;
      }
      if writeCount == readCount + SIZE {
        return Wait;
      }
      var space := SIZE - (writeCount - readCount);
      var wanted := if space < |src| then space else |src|;
      var position := writeCount % SIZE;
      var untilEnd := SIZE - position;
      var n := if untilEnd < wanted then untilEnd else wanted;
      ghost var before := data[..];
      CopyIn(position, src[..n], copyFails);
      forall i: nat | readCount <= i < writeCount ensures data[i % SIZE] == items[i].byte {
        Untouched(i, writeCount, n);
      }
      if copyFails {
        return Stop;
      }
      ghost var more := Items(src[..n], w);
      forall i: nat | readCount <= i < writeCount + n ensures data[i % SIZE] == (items + more)[i].byte {
        if i >= writeCount {
          Contiguous(writeCount, n, i - writeCount);
        }
      }
      items := items + more;
      writeCount := writeCount + n;
      r := Moved(n);
    }

    /** One round of read's copying loop by process `r`, which wants `count` bytes more. */
    method ReadRound(r: nat, count: nat, copyFails: bool) returns (round: Round, bytes: seq<Byte>)
      requires Valid() && count > 0
      modifies this`readCount, this`takers
      ensures Valid()
      ensures round == Stop <==> copyFails || old(readCount) == writeCount
      ensures round == Stop || round.Moved?
      ensures round == Stop ==> takers == old(takers) && readCount == old(readCount) && bytes == []
      ensures round.Moved? ==>
                && 0 < round.n <= count && takers == old(takers) + Same(r, round.n)
                && readCount <= |items| && bytes == Bytes(items[old(readCount)..readCount]) && |bytes| == round.n
    {
      var remaining := writeCount - readCount;
      if remaining == 0 {
        return Stop, [];
      }
      var wanted := if remaining < count then remaining else count;
      var position := readCount % SIZE;
      var untilEnd := SIZE - position;
      var n := if untilEnd < wanted then untilEnd else wanted;
      if copyFails {
        return Stop, [];
      }
      bytes := data[position..position + n];
      forall k | 0 <= k < n ensures bytes[k] == items[readCount + k].byte {
        Contiguous(readCount, n, k);
      }
      assert bytes == Bytes(items[readCount..readCount + n]);
      takers := takers + Same(r, n);
      readCount := readCount + n;
      round := Moved(n);
    }

    /** read's copying loop: takes what there is until `count` bytes are copied or a copy fails. Without a
        failure it leaves bytes only when it has `count`. `fails(i)` says whether copy number `i` fails. */
    method TakeAvailable(r: nat, count: nat, fails: nat -> bool) returns (got: seq<Byte>, ghost failed: bool)
      requires Valid()
      modifies this`readCount, this`takers
      ensures Valid() && |got| <= count && readCount == old(readCount) + |got|
      ensures !failed ==> |got| == count || readCount == writeCount
      ensures failed ==> |got| < count && readCount < writeCount && exists i: nat :: fails(i)
      ensures |old(takers)| <= |takers| <= |items| && takers[..|old(takers)|] == old(takers)
      ensures |old(takers)| <= |items| && Taken(items, takers, r) == Taken(items, old(takers), r) + got
    {
      hide Taken, From;
      got, failed := [], false;
      var i: nat := 0;
      while |got| < count
        invariant Valid() && |got| <= count && readCount == old(readCount) + |got| && !failed
        invariant |old(takers)| <= |takers| && takers[..|old(takers)|] == old(takers)
        invariant Taken(items, takers, r) == Taken(items, old(takers), r) + got
        decreases count - |got|
      {
        ghost var takers0 := takers;
        var round, some := ReadRound(r, count - |got|, fails(i));
        if round == Stop {
          failed := readCount < writeCount;
          break;
        }
        i := i + 1;
        TakenMore(items, takers0, round.n, r, r);
        got := got + some;
      }
    }

    method Close(closeWrite: bool)
      requires Valid()
      modifies this`readIsOpen, this`writeIsOpen
      ensures Valid() && (if closeWrite then !writeIsOpen && readIsOpen == old(readIsOpen) else !readIsOpen && writeIsOpen == old(writeIsOpen))
    {
      if closeWrite {
        writeIsOpen := false;
      } else {
        readIsOpen := false;
      }
    }

    /** While one process sleeps, others write, read and close. */
    method Others(me: nat)
      requires Valid()
      modifies this, data
      ensures Valid() && writeCount - readCount <= 512 && OnlyOthers(old(items), old(takers), items, takers, me)
    {
      hide Taken, From;
      OthersNothing(items, takers, me);
      var rounds: nat := *;
      while rounds > 0
        invariant Valid() && OnlyOthers(old(items), old(takers), items, takers, me)
      {
        var choice: nat, who: nat, src: seq<Byte>, count: nat, fails: bool, killed: bool := *, *, *, *, *, *;
        ghost var items0, takers0 := items, takers;
        if who != me {
          if choice == 0 && src != [] {
            var r := WriteRound(who, src, killed, fails);
            if r.Moved? {
              OthersWrite(items0, takers0, src[..r.n], who, me);
            } else {
              OthersNothing(items0, takers0, me);
            }
          } else if choice == 1 && count > 0 {
            var r, _ := ReadRound(who, count, fails);
            if r.Moved? {
              OthersRead(items0, takers0, r.n, who, me);
            } else {
              OthersNothing(items0, takers0, me);
            }
          } else {
            Close(fails);
            OthersNothing(items0, takers0, me);
          }
          OthersTwice(old(items), old(takers), items0, takers0, items, takers, me);
        }
        rounds := rounds - 1;
      }
    }

    /** write, with others at the pipe whenever it sleeps. Exactly the bytes it reports went in, in
        order, and those are all but for a copy that failed. `patience` bounds how often it sleeps; `killed(i)`
        and `fails(i)` say whether the process has been killed at round `i`, and whether that round's copy fails. */
    method Write(w: nat, src: seq<Byte>, patience: nat, killed: nat -> bool, fails: nat -> bool)
      returns (end: WriteEnd, ghost done: nat)
      requires Valid()
      modifies this, data
      ensures Valid() && done <= |src|
      ensures end.Wrote? ==> end.n == done && (done < |src| ==> exists i: nat :: fails(i))
      ensures end == NoReader ==> !readIsOpen && done < |src|
      ensures end == WriterKilled ==> readIsOpen && done < |src| && exists i: nat :: killed(i)
      ensures end == WriterAsleep ==> readIsOpen && done < |src| && writeCount == readCount + SIZE
      ensures src != [] && !old(readIsOpen) ==> end == NoReader && done == 0
      ensures src != [] && old(readIsOpen) && killed(0) ==> end == WriterKilled && done == 0
      ensures old(items) <= items && From(items, w) == From(old(items), w) + src[..done]
      ensures |old(takers)| <= |takers| && takers[..|old(takers)|] == old(takers)
    {
      hide Taken, From, OnlyOthers;
      var n, left, i: nat := 0, patience, 0;
      done := 0;
      assert src[..0] == [];
      while n < |src|
        invariant n == done <= |src| && Valid() && old(items) <= items
        invariant From(items, w) == From(old(items), w) + src[..done]
        invariant |old(takers)| <= |takers| && takers[..|old(takers)|] == old(takers)
        invariant i == 0 ==> n == 0 && readIsOpen == old(readIsOpen)
        invariant i > 0 ==> old(readIsOpen) && !killed(0)
        decreases left, |src| - n
      {
        ghost var items0 := items;
        var r := WriteRound(w, src[n..], killed(i), fails(i));
        i := i + 1;
        match r
        case Closed => return NoReader, done;
        case Killed => return WriterKilled, done;
        case Stop => break;
        case Wait =>
          if left == 0 {
            return WriterAsleep, done;
          }
          left := left - 1;
          ghost var takers0 := takers;
          Others(w);
          OthersKeep(items0, takers0, items, takers, w);
        case Moved(k) =>
          FromMore(items0, src[n..][..k], w, w);
          assert src[..n] + src[n..][..k] == src[..n + k];
          n, done := n + k, done + k;
      }
      end := Wrote(n);
    }

    /** read: waits while the pipe is empty and open for writing, then takes what there is, in the order
        it went in, up to `count` bytes. So without a failed copy it comes back empty only from an empty pipe
        whose write end is closed. `slept` is how often it slept, at most `patience` times; `killed(i)` says
        whether the process has been killed before it sleeps for the `i`-th time. */
    method Read(r: nat, count: nat, patience: nat, killed: nat -> bool, fails: nat -> bool)
      returns (end: ReadEnd, ghost failed: bool, ghost slept: nat)
      requires Valid()
      modifies this, data
      ensures Valid() && old(items) <= items
      ensures |old(takers)| <= |takers| && takers[..|old(takers)|] == old(takers)
      ensures |takers| <= |items|
      ensures |old(takers)| <= |old(items)|
      ensures Taken(items, takers, r) == Taken(old(items), old(takers), r) + (if end.Got? then end.bytes else [])
      ensures slept <= patience && forall i: nat | i < slept :: !killed(i)
      ensures slept == 0 ==> items == old(items) && writeIsOpen == old(writeIsOpen)
      ensures !end.Got? ==> readCount == writeCount && writeIsOpen
      ensures end == ReaderKilled ==> killed(slept)
      ensures end == ReaderAsleep ==> slept == patience && !killed(slept)
      ensures end.Got? ==>
                && |end.bytes| <= count
                && (end.bytes != [] || readCount < writeCount || !writeIsOpen)
                && (!failed ==> |end.bytes| == count || readCount == writeCount)
                && (failed ==> |end.bytes| < count && readCount < writeCount && exists i: nat :: fails(i))
      ensures end == Got([]) && count > 0 && !failed ==> readCount == writeCount && !writeIsOpen
      ensures slept == 0 && end.Got? ==> readCount == old(readCount) + |end.bytes|
    {
      hide Taken, From, OnlyOthers;
      var left := patience;
      slept, failed := 0, false;
      while readCount == writeCount && writeIsOpen
        invariant Valid() && old(items) <= items && slept + left == patience
        invariant slept == 0 ==> items == old(items) && readCount == old(readCount) && writeIsOpen == old(writeIsOpen)
        invariant forall i: nat | i < slept :: !killed(i)
        invariant |old(takers)| <= |takers| && takers[..|old(takers)|] == old(takers)
        invariant Taken(items, takers, r) == Taken(old(items), old(takers), r)
        decreases left
      {
        if killed(patience - left) {
          return ReaderKilled, failed, slept;
        }
        if left == 0 {
          return ReaderAsleep, failed, slept;
        }
        left, slept := left - 1, slept + 1;
        ghost var items0, takers0 := items, takers;
        Others(r);
        OthersKeep(items0, takers0, items, takers, r);
      }
      var got: seq<Byte>;
      got, failed := TakeAvailable(r, count, fails);
      end := Got(got);
    }
  }

  /** Between two moments, `me` neither put anything in nor took anything out. */
  ghost predicate OnlyOthers(items: seq<Item>, takers: seq<nat>, items': seq<Item>, takers': seq<nat>, me: nat) {
    && items <= items' && |takers| <= |takers'| && takers'[..|takers|] == takers
    && |takers| <= |items| && |takers'| <= |items'|
    && From(items', me) == From(items, me) && Taken(items', takers', me) == Taken(items, takers, me)
  }

  lemma OthersNothing(items: seq<Item>, takers: seq<nat>, me: nat)
    requires |takers| <= |items|
    ensures OnlyOthers(items, takers, items, takers, me)
  {
    hide Taken, From;
  }

  lemma OthersKeep(items: seq<Item>, takers: seq<nat>, items': seq<Item>, takers': seq<nat>, me: nat)
    requires OnlyOthers(items, takers, items', takers', me)
    ensures items <= items' && |takers| <= |takers'| && takers'[..|takers|] == takers
    ensures |takers| <= |items| && |takers'| <= |items'|
    ensures From(items', me) == From(items, me) && Taken(items', takers', me) == Taken(items, takers, me)
  {
    hide Taken, From;
  }

  lemma OthersTwice(items: seq<Item>, takers: seq<nat>, items1: seq<Item>, takers1: seq<nat>, items2: seq<Item>, takers2: seq<nat>, me: nat)
    requires OnlyOthers(items, takers, items1, takers1, me) && OnlyOthers(items1, takers1, items2, takers2, me)
    ensures OnlyOthers(items, takers, items2, takers2, me)
  {
    hide Taken, From;
    assert takers2[..|takers|] == takers2[..|takers1|][..|takers|];
  }

  lemma OthersWrite(items: seq<Item>, takers: seq<nat>, bytes: seq<Byte>, w: nat, me: nat)
    requires |takers| <= |items| && w != me
    ensures OnlyOthers(items, takers, items + Items(bytes, w), takers, me)
  {
    hide Taken, From;
    FromMore(items, bytes, w, me);
    TakenStays(items, Items(bytes, w), takers, me);
  }

  lemma OthersRead(items: seq<Item>, takers: seq<nat>, n: nat, r: nat, me: nat)
    requires |takers| + n <= |items| && r != me
    ensures OnlyOthers(items, takers, items, takers + Same(r, n), me)
  {
    hide Taken, From;
    TakenMore(items, takers, n, r, me);
  }

  /** Writing position `n` bytes on touches none of the bytes waiting to be read. */
  lemma Untouched(i: nat, from: nat, n: nat)
    requires i < from && from + n <= i + SIZE && from % SIZE + n <= SIZE
    ensures i % SIZE < from % SIZE || from % SIZE + n <= i % SIZE
  {
    if from % SIZE <= i % SIZE < from % SIZE + n {
      var k := i % SIZE - from % SIZE;
      Contiguous(from, n, k);
      SlotsDiffer(i, from + k);
    }
  }
}
