/** The user ring: one writer, one reader, no lock, over memory that is mapped twice in a row. */
module Rings {
  import opened Blocks
  import opened RingMemory

  /** How far one side is. It loads read_done, then write_done, and then holds a stretch of the buffer; to
      finish it loads the other side's counter again, checks, and then adds to its own. */
  datatype Side =
    | Idle
    | Loaded(r: nat)
    | Holding(r: nat, w: nat)
    | Ending(r: nat, w: nat, seen: nat)
    | Adding(n: nat)

  /** Byte `i` of the stream lives at this offset. */
  function Offset(i: nat): (x: nat)
    ensures x < CAPACITY
  {
    i % CAPACITY
  }

  /** `n` bytes of the stream as they lie in memory, from byte `i` on. */
  function Stretch(memory: seq<Byte>, i: nat, n: nat): (r: seq<Byte>)
    requires |memory| == CAPACITY
    ensures |r| == n && forall k | 0 <= k < n :: r[k] == memory[Offset(i + k)]
  {
    seq(n, k requires 0 <= k < n => memory[Offset(i + k)])
  }

  lemma OffsetsDiffer(i: nat, j: nat)
    requires i < j < i + CAPACITY
    ensures Offset(i) != Offset(j)
  {
  }

  class Ring {
    var memory: seq<Byte>
    var readDone: nat
    var writeDone: nat
    var reader: Side
    var writer: Side
    ghost var committed: seq<Byte>   // all the writer has finished
    ghost var consumed: seq<Byte>    // all the reader has finished

    ghost predicate Valid()
      reads this
    {
      && |memory| == CAPACITY && readDone <= writeDone <= readDone + CAPACITY
      && |committed| == writeDone && consumed == committed[..readDone]
      && (forall i: nat | readDone <= i < writeDone :: memory[Offset(i)] == committed[i])
      && (reader.Loaded? ==> reader.r == readDone)
      && (reader.Holding? ==> reader.r == readDone <= reader.w <= writeDone)
      && (reader.Ending? ==> reader.r == readDone <= reader.w <= reader.seen <= writeDone)
      && (reader.Adding? ==> readDone + reader.n <= writeDone)
      && (writer.Loaded? ==> writer.r <= readDone && writeDone <= writer.r + CAPACITY)
      && (writer.Holding? ==> writer.r <= readDone && writer.w == writeDone <= writer.r + CAPACITY)
      && (writer.Ending? ==> writer.r <= writer.seen <= readDone && writer.w == writeDone <= writer.r + CAPACITY)
      && (writer.Adding? ==> writeDone + writer.n <= readDone + CAPACITY)
    }

    constructor ()
      ensures Valid() && committed == consumed == [] && reader == writer == Idle
    {
      memory := seq(CAPACITY, i => 0);
      readDone, writeDone, reader, writer := 0, 0, Idle, Idle;
      committed, consumed := [], [];
    }

    /** startRead, first load. */
    method ReaderLoadsRead()
      requires Valid() && reader == Idle
      modifies this`reader
      ensures Valid() && reader == Loaded(readDone)
    {
      reader := Loaded(readDone);
    }

    /** startRead, second load: the reader now holds everything committed that it has not consumed. */
    method ReaderLoadsWrite() returns (offset: nat, length: nat)
      requires Valid() && reader.Loaded?
      modifies this`reader
      ensures Valid() && reader == Holding(readDone, writeDone)
      ensures offset == Offset(readDone) && length == writeDone - readDone && offset + length <= 2 * CAPACITY
    {
      var w := writeDone;
      reader := Holding(reader.r, w);
      offset, length := Offset(reader.r), w - reader.r;
    }

    /** A byte of the slice the reader holds, whatever the writer has done since. */
    method ReadByte(k: nat) returns (b: Byte)
      requires Valid() && reader.Holding? && k < reader.w - reader.r
      ensures reader.r + k < |committed| && b == committed[reader.r + k]
    {
      b := memory[(Offset(reader.r) + k) % CAPACITY];
      assert (Offset(reader.r) + k) % CAPACITY == Offset(reader.r + k);
    }

    /** finishRead, first load: what the writer has committed by now. */
    method ReaderLoadsAgain()
      requires Valid() && reader.Holding?
      modifies this`reader
      ensures Valid() && reader == Ending(old(reader).r, old(reader).w, writeDone)
    {
      reader := Ending(reader.r, reader.w, writeDone);
    }

    /** finishRead's assertion: it never stops a reader that gives back no more than its slice. */
    method ReaderChecks(n: nat) returns (ok: bool)
      requires Valid() && reader.Ending?
      modifies this`reader
      ensures Valid() && (ok <==> n <= old(reader).seen - readDone) && (n <= old(reader).w - old(reader).r ==> ok)
      ensures reader == if ok then Adding(n) else old(reader)
    {
      ok := reader.seen - readDone >= n;
      if ok {
        reader := Adding(n);
      }
    }

    /** finishRead's addition: the next bytes of the stream are consumed, whatever was committed meanwhile. */
    method ReaderAdds()
      requires Valid() && reader.Adding?
      modifies this`reader, this`readDone, this`consumed
      ensures Valid() && reader == Idle && readDone == old(readDone) + old(reader).n <= |committed|
      ensures consumed == old(consumed) + committed[old(readDone)..readDone]
    {
      consumed := consumed + committed[readDone..readDone + reader.n];
      readDone := readDone + reader.n;
      reader := Idle;
    }

    /** startWrite, first load. */
    method WriterLoadsRead()
      requires Valid() && writer == Idle
      modifies this`writer
      ensures Valid() && writer == Loaded(readDone)
    {
      writer := Loaded(readDone);
    }

    /** startWrite, second load: the writer holds what was free when it looked. */
    method WriterLoadsWrite() returns (offset: nat, length: nat)
      requires Valid() && writer.Loaded?
      modifies this`writer
      ensures Valid() && writer == Holding(old(writer).r, writeDone)
      ensures offset == Offset(writeDone) && length == writer.r + CAPACITY - writeDone && offset + length <= 2 * CAPACITY
    {
      var w := writeDone;
      offset, length := Offset(w), CAPACITY - (w - writer.r);
      writer := Holding(writer.r, w);
    }

    /** A byte into the slice the writer holds: no committed byte that is not consumed changes. */
    method WriteByte(k: nat, b: Byte)
      requires Valid() && writer.Holding? && k < CAPACITY - (writer.w - writer.r)
      modifies this`memory
      ensures Valid() && memory == old(memory)[Offset(writer.w + k) := b]
    {
      assert (Offset(writer.w) + k) % CAPACITY == Offset(writer.w + k);
      forall i: nat | readDone <= i < writeDone ensures Offset(i) != Offset(writer.w + k) {
        OffsetsDiffer(i, writer.w + k);
      }
      memory := memory[(Offset(writer.w) + k) % CAPACITY := b];
    }

    /** finishWrite, its load of the reader's counter. */
    method WriterLoadsAgain()
      requires Valid() && writer.Holding?
      modifies this`writer
      ensures Valid() && writer == Ending(old(writer).r, old(writer).w, readDone)
    {
      writer := Ending(writer.r, writer.w, readDone);
    }

    /** finishWrite's assertion: it never stops a writer that commits no more than its slice. */
    method WriterChecks(n: nat) returns (ok: bool)
      requires Valid() && writer.Ending?
      modifies this`writer
      ensures Valid() && (ok <==> writeDone + n - old(writer).seen <= CAPACITY)
      ensures n <= CAPACITY - (old(writer).w - old(writer).r) ==> ok
      ensures writer == if ok then Adding(n) else old(writer)
    {
      ok := writeDone + n - writer.seen <= CAPACITY;
      if ok {
        writer := Adding(n);
      }
    }

    /** finishWrite's addition: what was put in the slice becomes part of the stream. */
    method WriterAdds()
      requires Valid() && writer.Adding?
      modifies this`writer, this`writeDone, this`committed
      ensures Valid() && |memory| == CAPACITY && writer == Idle && writeDone == old(writeDone) + old(writer).n
      ensures committed == old(committed) + Stretch(memory, old(writeDone), old(writer).n)
    {
      ghost var n, more := writer.n, Stretch(memory, writeDone, writer.n);
      forall i: nat | readDone <= i < writeDone + n ensures memory[Offset(i)] == (committed + more)[i] {
        if i >= writeDone {
          assert more[i - writeDone] == memory[Offset(writeDone + (i - writeDone))];
        }
      }
      committed := committed + more;
      writeDone := writeDone + writer.n;
      writer := Idle;
    }

    /** Any interleaving of the two sides. What is consumed is always the front of what is committed,
        and neither is ever taken back. */
    method AnyRun(steps: nat)
      requires Valid()
      modifies this
      ensures Valid() && consumed <= committed && old(committed) <= committed && old(consumed) <= consumed
    {
      var left := steps;
      while left > 0
        invariant Valid() && old(committed) <= committed && old(consumed) <= consumed
      {
        var choice: nat, n: nat, b: Byte := *, *, *;
        OneStep(choice, n, b);
        left := left - 1;
      }
    }

    method OneStep(choice: nat, n: nat, b: Byte)
      requires Valid()
      modifies this
      ensures Valid() && old(committed) <= committed && old(consumed) <= consumed
    {
      if choice == 0 && reader == Idle {
        ReaderLoadsRead();
      } else if choice == 1 && reader.Loaded? {
        var _, _ := ReaderLoadsWrite();
      } else if choice == 2 && reader.Holding? {
        ReaderLoadsAgain();
      } else if choice == 2 && reader.Ending? {
        var _ := ReaderChecks(n);
      } else if choice == 2 && reader.Adding? {
        ReaderAdds();
      } else if choice == 3 && writer == Idle {
        WriterLoadsRead();
      } else if choice == 4 && writer.Loaded? {
        var _, _ := WriterLoadsWrite();
      } else if choice == 5 && writer.Holding? && n < CAPACITY - (writer.w - writer.r) {
        WriteByte(n, b);
      } else if choice == 6 && writer.Holding? {
        WriterLoadsAgain();
      } else if choice == 6 && writer.Ending? {
        var _ := WriterChecks(n);
      } else if choice == 6 && writer.Adding? {
        WriterAdds();
      }
    }

    /** The stretches held by the two sides never overlap. */
    lemma RegionsApart(i: nat, j: nat)
      requires Valid() && reader.Holding? && writer.Holding?
      requires reader.r <= i < reader.w && writer.w <= j < writer.r + CAPACITY
      ensures Offset(i) != Offset(j)
    {
      OffsetsDiffer(i, j);
    }
  }
}
