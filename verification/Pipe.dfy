/** The pipe of kernel/pipe.c: a ring of PIPESIZE bytes with 32-bit counters that wrap around.
    Every method is what one process does while it holds pi->lock, up to the next sleep, so any
    sequence of calls is an interleaving of readers and writers. */
module Pipe {

  const PIPESIZE: nat := 512
  const U32: nat := 0x1_0000_0000

  type byte = x: int | 0 <= x < 256

  datatype WriteEnd = Closed | Full | Finished

  /** pi->nwrite == pi->nread + PIPESIZE, in uint arithmetic, says exactly that PIPESIZE bytes are pending,
      and pi->nread == pi->nwrite that none is. */
  lemma CountersTell(r: nat, w: nat)
    requires r <= w <= r + PIPESIZE
    ensures w % U32 == (r % U32 + PIPESIZE) % U32 <==> w == r + PIPESIZE
    ensures r % U32 == w % U32 <==> r == w
    ensures r % U32 % PIPESIZE == r % PIPESIZE
    ensures (r % U32 + 1) % U32 == (r + 1) % U32
  {
    SlotsDivide(r);
    var q, m := r / U32, r % U32;
    assert w % U32 == if m + (w - r) < U32 then m + (w - r) else m + (w - r) - U32 by { Shifted(q, m, w - r); }
    Shifted(q, m, 1);
  }

  lemma Shifted(q: nat, m: nat, d: nat)
    requires m < U32 && d <= U32
    ensures (q * U32 + m + d) % U32 == (m + d) % U32 == if m + d < U32 then m + d else m + d - U32
  {
  }

  lemma SlotsDivide(r: nat)
    ensures r % U32 % PIPESIZE == r % PIPESIZE
  {
  }

  function Place(k: nat): (i: nat)
    ensures i < PIPESIZE
  {
    k % PIPESIZE
  }

  /** The pending bytes are in the ring. */
  ghost predicate Holds(data: seq<byte>, written: seq<byte>, from: nat) {
    && |data| == PIPESIZE && from <= |written| <= from + PIPESIZE
    && forall k: nat | from <= k < |written| :: data[Place(k)] == written[k]
  }

  lemma HoldsMore(data: seq<byte>, written: seq<byte>, from: nat, b: byte)
    requires Holds(data, written, from) && |written| < from + PIPESIZE
    ensures Holds(data[Place(|written|) := b], written + [b], from)
  {
  }

  /** How a reader finds the pipe. */
  datatype ReadStart = Ready | Killed | Asleep

  class PipeRing {
    const data: array<byte>
    var nread: nat
    var nwrite: nat
    var readopen: bool
    var writeopen: bool
    ghost var written: seq<byte>    // all bytes that writers have put in
    ghost var consumed: seq<byte>   // all bytes that readers have taken out
    ghost var readers: set<nat>     // processes asleep on &pi->nread
    ghost var writers: set<nat>     // processes asleep on &pi->nwrite
    ghost var slipped: bool         // a killed writer has left bytes without waking them

    /** First in, first out: what was taken is a prefix of what was put in. */
    ghost predicate Fifo()
      reads this`nread, this`nwrite, this`written, this`consumed, data
    {
      && data.Length == PIPESIZE && Holds(data[..], written, |consumed|)
      && |consumed| <= |written| <= |consumed| + PIPESIZE && consumed == written[..|consumed|]
      && nread == |consumed| % U32 && nwrite == |written| % U32
    }

    /** Writers sleep only on a full pipe with a reader; readers only on an empty pipe with a writer,
        unless a killed writer has passed them by. */
    ghost predicate Valid()
      reads this, data
    {
      && Fifo()
      && (writers != {} ==> |written| == |consumed| + PIPESIZE && readopen)
      && (readers != {} && !slipped ==> consumed == written && writeopen)
      && (slipped ==> readers != {})
    }

    constructor ()
      ensures Valid() && fresh(data) && written == [] && consumed == [] && readopen && writeopen
      ensures readers == {} && writers == {}
    {
      data := new byte[PIPESIZE](_ => 0);
      nread, nwrite, readopen, writeopen := 0, 0, true, true;
      written, consumed, readers, writers, slipped := [], [], {}, {}, false;
    }

    /** pipewrite of process p from byte i0 of src until it is done, sleeps, or gives up. `readable`
        is how much of the source can be copied in; from byte killedAt on the writer finds
        that it has been killed, and then it wakes nobody. */
    method WriteSome(p: nat, src: seq<byte>, i0: nat, killedAt: nat, readable: nat) returns (i: nat, end: WriteEnd)
      requires Valid() && i0 <= |src|
      modifies this`nwrite, this`written, this`readers, this`writers, this`slipped, data
      ensures Valid() && i0 <= i <= |src| && written == old(written) + src[i0..i] && consumed == old(consumed)
      ensures i > i0 ==> readopen && i <= killedAt && i <= readable
      ensures end == Closed <==> i < |src| && (!readopen || i >= killedAt)
      ensures end == Full <==> i < |src| && readopen && i < killedAt && |written| == |consumed| + PIPESIZE
      ensures end == Finished ==> i == |src| || i >= readable
      ensures readers == (if end == Closed then old(readers) else {}) && writers == (if end == Full then old(writers) + {p} else old(writers))
      ensures slipped <==> end == Closed && readers != {} && (old(slipped) || i > i0)
    {
      hide Fifo, Holds;
      i, end := PutSome(src, i0, killedAt, readable);
      assert i == i0 ==> src[i0..i] == [];
      match end
      case Closed => slipped := slipped || (i > i0 && readers != {});
      case Full => readers, writers, slipped := {}, writers + {p}, false;
      case Finished => readers, slipped := {}, false;
    }

    /** The bytes that pipewrite puts in before it has to stop. */
    method PutSome(src: seq<byte>, i0: nat, killedAt: nat, readable: nat) returns (i: nat, end: WriteEnd)
      requires Fifo() && i0 <= |src|
      modifies this`nwrite, this`written, data
      ensures Fifo() && i0 <= i <= |src| && written == old(written) + src[i0..i]
      ensures i > i0 ==> readopen && i <= killedAt && i <= readable
      ensures end == Closed <==> i < |src| && (!readopen || i >= killedAt)
      ensures end == Full <==> i < |src| && readopen && i < killedAt && |written| == |consumed| + PIPESIZE
      ensures end == Finished ==> i == |src| || i >= readable
    {
      i := i0;
      assert src[i0..i0] == [] && written == old(written) + [];
      while i < |src|
        invariant i0 <= i <= |src| && Fifo() && written == old(written) + src[i0..i]
        invariant i > i0 ==> readopen && i <= killedAt && i <= readable
      {
        if !readopen || i >= killedAt {
          return i, Closed;
        }
        CountersTell(|consumed|, |written|);
        if nwrite == (nread + PIPESIZE) % U32 {
          return i, Full;
        }
        if i >= readable {
          break;
        }
        PutByte(src[i]);
        i := i + 1;
      }
      end := Finished;
    }

    method PutByte(ch: byte)
      requires Fifo() && |written| < |consumed| + PIPESIZE
      modifies this`nwrite, this`written, data
      ensures Fifo() && written == old(written) + [ch]
    {
      HoldsMore(data[..], written, |consumed|, ch);
      CountersTell(|written|, |written|);
      data[nwrite % PIPESIZE] := ch;
      nwrite := (nwrite + 1) % U32;
      written := written + [ch];
    }

    /** One turn of the loop before piperead reads: it sleeps exactly while nothing is pending and a
        writer may still come. */
    method Await(p: nat, killed: bool) returns (r: ReadStart)
      requires Valid()
      modifies this`readers
      ensures Valid()
      ensures r == if consumed != written || !writeopen then Ready else if killed then Killed else Asleep
      ensures readers == if r == Asleep then old(readers) + {p} else old(readers)
    {
      CountersTell(|consumed|, |written|);
      if nread != nwrite || !writeopen {
        return Ready;
      }
      if killed {
        return Killed;
      }
      readers := readers + {p};
      r := Asleep;
    }

    /** piperead once it need not sleep: the next bytes in the order they were written. `room` is how
        much of the destination can be written; the byte that does not fit is gone. All writers wake. */
    method ReadSome(n: nat, room: nat) returns (i: nat, out: seq<byte>)
      requires Valid() && (consumed != written || !writeopen)
      modifies this`nread, this`consumed, this`writers
      ensures Valid() && written == old(written) && writers == {}
      ensures i == |out| <= n && |old(consumed)| + i <= |written| && out == written[|old(consumed)|..|old(consumed)| + i]
      ensures i <= room && (i == n || i == |written| - |old(consumed)| || i == room)
      ensures |consumed| == |old(consumed)| + (if i < n && i < |written| - |old(consumed)| then i + 1 else i)
    {
      i, out := 0, [];
      ghost var from := |consumed|;
      while i < n
        invariant 0 <= i <= n && i <= room && Fifo() && |consumed| == from + i <= |written| && out == written[from..from + i]
      {
        CountersTell(|consumed|, |written|);
        if nread == nwrite {
          break;
        }
        var ch := data[nread % PIPESIZE];
        assert ch == written[|consumed|];
        nread := (nread + 1) % U32;
        consumed := consumed + [ch];
        if i >= room {
          break;
        }
        out := out + [ch];
        i := i + 1;
      }
      writers := {};
    }

    /** pipeclose: all who wait for the other end wake. The page is freed when both ends are closed. */
    method Close(writable: bool) returns (free: bool)
      requires Valid()
      modifies this`readopen, this`writeopen, this`readers, this`writers, this`slipped
      ensures Valid() && written == old(written) && consumed == old(consumed)
      ensures readopen == (old(readopen) && writable) && writeopen == (old(writeopen) && !writable)
      ensures readers == (if writable then {} else old(readers)) && writers == (if writable then old(writers) else {})
      ensures free == (!readopen && !writeopen)
    {
      if writable {
        writeopen := false;
        readers, slipped := {}, false;
      } else {
        readopen := false;
        writers := {};
      }
      free := !readopen && !writeopen;
    }
  }

  /** A reader can sleep on a pipe that is not empty: it slept first, and the writer was killed after
      its first byte. */
  method ReaderPassedBy() returns (pi: PipeRing)
    ensures fresh(pi) && pi.Valid() && pi.readers == {1} && pi.written == [0] && pi.consumed == []
  {
    pi := new PipeRing();
    var r := pi.Await(1, false);
    var i, end := pi.WriteSome(2, [0, 0], 0, 1, 2);
    assert [0, 0][0..1] == [0];
  }
}
