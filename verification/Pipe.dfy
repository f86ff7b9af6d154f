/**
 Pipes: pipewrite, piperead and pipeclose.

 A call runs under pi->lock from one sleep() to the next, and each method below is such a stretch:
 it is given where the call had got to, and says how the stretch ends.  readers and writers are
 the processes asleep in sleep(&pi->nread) and sleep(&pi->nwrite); wakeup() empties them.
 */
module PipeRing {
  const PIPESIZE: nat := 512
  const U32: nat := 0x1_0000_0000

  type Byte = x: nat | x < 256

  datatype Outcome =
    | Finished      // wakeup, release, return the count
    | Asleep        // to be called again when woken
    | Broken        // the other end is closed: return -1
    | Killed        // return -1, without a wakeup

  /** data, as a ring, holds bytes from..to of the stream. */
  ghost predicate Holds(data: seq<Byte>, stream: seq<Byte>, from: nat, to: nat) {
    |data| == PIPESIZE && from <= to <= |stream| && forall k: nat :: HoldsAt(data, stream, from, to, k)
  }

  predicate HoldsAt(data: seq<Byte>, stream: seq<Byte>, from: nat, to: nat, k: nat)
    requires |data| == PIPESIZE && to <= |stream|
  {
    from <= k < to ==> data[k % PIPESIZE] == stream[k]
  }

  /** Appending a byte overwrites none that is still to be read. */
  lemma AppendHolds(data: seq<Byte>, stream: seq<Byte>, from: nat, x: Byte)
    requires Holds(data, stream, from, |stream|) && |stream| - from < PIPESIZE
    ensures Holds(data[|stream| % PIPESIZE := x], stream + [x], from, |stream| + 1)
  {
    var d, s, n := data[|stream| % PIPESIZE := x], stream + [x], |stream| + 1;
    forall k: nat ensures HoldsAt(d, s, from, n, k) {
      assert HoldsAt(data, stream, from, |stream|, k);
      if from <= k < |stream| { NoWrap(k, |stream|); }
    }
  }

  lemma NoWrap(k: nat, n: nat)
    requires k < n < k + PIPESIZE
    ensures k % PIPESIZE != n % PIPESIZE
  {
  }

  lemma TakeHolds(data: seq<Byte>, stream: seq<Byte>, from: nat)
    requires Holds(data, stream, from, |stream|) && from < |stream|
    ensures data[from % PIPESIZE] == stream[from] && Holds(data, stream, from + 1, |stream|)
  {
    var next := from + 1;
    assert HoldsAt(data, stream, from, |stream|, from);
    forall k: nat ensures HoldsAt(data, stream, next, |stream|, k) {
      assert HoldsAt(data, stream, from, |stream|, k);
    }
  }

  /** The counters are 32 bits wide and wrap, and still tell a full ring and an empty one. */
  lemma FullTells(r: nat, w: nat)
    requires r <= w <= r + PIPESIZE
    ensures w % U32 == (r % U32 + PIPESIZE) % U32 <==> w == r + PIPESIZE
  {
    assert (r % U32 + PIPESIZE) % U32 == (r + PIPESIZE) % U32;
    Apart(w, r + PIPESIZE);
  }

  lemma EmptyTells(r: nat, w: nat)
    requires r <= w <= r + PIPESIZE
    ensures w % U32 == r % U32 <==> w == r
  {
    Apart(r, w);
  }

  lemma Apart(a: nat, b: nat)
    requires a <= b <= a + PIPESIZE
    ensures a % U32 == b % U32 <==> a == b
  {
  }

  lemma CounterWraps(n: nat)
    ensures n % U32 % PIPESIZE == n % PIPESIZE && (n % U32 + 1) % U32 == (n + 1) % U32
  {
  }

  class Pipe {
    const data: array<Byte>      // data[PIPESIZE]
    var nread: nat               // both modulo 2^32
    var nwrite: nat
    var readopen: bool
    var writeopen: bool
    var readers: set<nat>        // asleep on &nread
    var writers: set<nat>        // asleep on &nwrite
    ghost var stream: seq<Byte>  // all that was ever written
    ghost var taken: nat         // how much of it was read

    /** The ring holds what was written and not yet read, at most PIPESIZE bytes. */
    ghost predicate Ring()
      reads this, data
    {
      && Holds(data[..], stream, taken, |stream|) && |stream| - taken <= PIPESIZE
      && nread == taken % U32 && nwrite == |stream| % U32
    }

    /** And no writer sleeps unless it is full and may be read. */
    ghost predicate Valid()
      reads this, data
    {
      Ring() && (writers != {} ==> |stream| == taken + PIPESIZE && readopen)
    }

    /** No reader sleeps unless there is nothing to read and more may come. */
    ghost predicate ReadersOk()
      reads this
    {
      readers != {} ==> taken == |stream| && writeopen
    }

    ghost function Room(): int
      reads this
    {
      PIPESIZE - (|stream| - taken)
    }

    constructor ()
      ensures Valid() && readers == {} && writers == {} && stream == [] && taken == 0 && readopen && writeopen &&
              fresh(data)
    {
      data := new Byte[PIPESIZE];
      nread, nwrite, readopen, writeopen := 0, 0, true, true;
      readers, writers, stream, taken := {}, {}, [], 0;
    }

    /** pipewrite() of src by process pid, from byte start on.  killed() says no the first `alive`
        times it is asked; the copy in of a byte fails if its position is in bad. */
    method Write(pid: nat, src: seq<Byte>, start: nat, bad: set<nat>, alive: nat) returns (i: nat, out: Outcome)
      requires Valid() && start <= |src|
      modifies this, data
      ensures Valid() && taken == old(taken) && readopen == old(readopen) && writeopen == old(writeopen)
      ensures start <= i <= |src| && stream == old(stream) + src[start..i]
      ensures out == Broken <==> start < |src| && !readopen
      ensures out == Killed <==> readopen && start + alive < |src| && alive <= old(Room()) &&
                                 Good(bad, start, start + alive)
      ensures out == Asleep <==> readopen && old(Room()) < alive && start + old(Room()) < |src| &&
                                 Good(bad, start, start + old(Room()))
      ensures out == Killed ==> i == start + alive
      ensures out == Asleep ==> Room() == 0 && pid in writers
      ensures out == Finished ==> i == |src| || i in bad
      ensures readers == if out == Finished || out == Asleep then {} else old(readers)
      ensures old(ReadersOk()) ==> (ReadersOk() <==> old(readers) == {} || out != Killed || alive == 0)
    {
      var n := |src|;
      i := start;
      assert src[start..start] == [];
      while i < n
        invariant start <= i <= n && Valid() && taken == old(taken) && stream == old(stream) + src[start..i]
        invariant readopen == old(readopen) && writeopen == old(writeopen) && readers == old(readers) &&
                  writers <= old(writers)
        invariant (i > start ==> readopen) && i - start <= alive && i - start <= old(Room()) && Good(bad, start, i)
      {
        if !readopen { return i, Broken; }
        if i - start == alive { return i, Killed; }
        FullTells(taken, |stream|);
        if nwrite == (nread + PIPESIZE) % U32 {
          readers := {};
          writers := writers + {pid};
          return i, Asleep;
        }
        if i in bad { break; }
        Put(src[i]);
        assert src[start..i] + [src[i]] == src[start..i + 1];
        i := i + 1;
      }
      readers := {};
      out := Finished;
    }

    /** The byte goes into the ring. */
    method Put(ch: Byte)
      requires Valid() && Room() > 0
      modifies `nwrite, `stream, data
      ensures Valid() && stream == old(stream) + [ch]
    {
      CounterWraps(|stream|);
      AppendHolds(data[..], stream, taken, ch);
      ghost var was := data[..];
      data[nwrite % PIPESIZE] := ch;
      assert data[..] == was[|stream| % PIPESIZE := ch];
      nwrite := (nwrite + 1) % U32;
      stream := stream + [ch];
    }

    /** piperead() of up to n bytes by process pid; the copy out of a byte fails if its position is
        in bad, and the byte is then lost. */
    method Read(pid: nat, n: nat, bad: set<nat>, killed: bool) returns (dst: seq<Byte>, out: Outcome)
      requires Valid()
      modifies this
      ensures Valid() && stream == old(stream) && readopen == old(readopen) && writeopen == old(writeopen)
      ensures out == Killed <==> old(taken) == |stream| && writeopen && killed
      ensures out == Asleep <==> old(taken) == |stream| && writeopen && !killed
      ensures out != Broken && (out != Finished ==> dst == [] && taken == old(taken) && writers == old(writers))
      ensures out == Finished ==> writers == {} && readers == old(readers)
      ensures out == Finished ==> |dst| <= n && old(taken) + |dst| <= taken &&
                                  dst == stream[old(taken)..old(taken) + |dst|]
      ensures out == Finished && taken != old(taken) + |dst| ==> |dst| in bad && taken == old(taken) + |dst| + 1
      ensures out == Finished && |dst| < n ==> taken == |stream| || |dst| in bad
      ensures out == Asleep ==> readers == old(readers) + {pid}
      ensures old(ReadersOk()) ==> ReadersOk()
    {
      dst := [];
      EmptyTells(taken, |stream|);
      if nread == nwrite && writeopen {
        if killed { return [], Killed; }
        readers := readers + {pid};
        return [], Asleep;
      }
      var i: nat := 0;
      while i < n
        invariant i <= n && Ring() && stream == old(stream) && readopen == old(readopen) && writeopen == old(writeopen)
        invariant taken == old(taken) + i && dst == stream[old(taken)..taken] && readers == old(readers)
      {
        EmptyTells(taken, |stream|);
        if nread == nwrite { break; }
        var ch := Get();
        if i in bad { break; }
        dst := dst + [ch];
        i := i + 1;
      }
      writers := {};
      out := Finished;
    }

    /** The oldest byte leaves the ring. */
    method Get() returns (ch: Byte)
      requires Ring() && taken < |stream|
      modifies `nread, `taken
      ensures Ring() && taken == old(taken) + 1 && ch == stream[old(taken)]
    {
      CounterWraps(taken);
      TakeHolds(data[..], stream, taken);
      ch := data[nread % PIPESIZE];
      nread := (nread + 1) % U32;
      taken := taken + 1;
    }

    /** pipeclose() of one end. */
    method Close(writable: bool)
      requires Valid()
      modifies this
      ensures Valid() && stream == old(stream) && taken == old(taken)
      ensures writeopen == (old(writeopen) && !writable) && readopen == (old(readopen) && writable)
      ensures if writable then readers == {} else writers == {} && readers == old(readers)
    {
      if writable {
        writeopen := false;
        readers := {};
      } else {
        readopen := false;
        writers := {};
      }
    }
  }

  /** A reader sleeps on an empty pipe; a writer puts in one byte of two and is then found killed.  The
      reader sleeps on. */
  method StrandReader() returns (pipe: Pipe)
    ensures pipe.Valid() && pipe.readers == {1} && pipe.stream == [7] && pipe.taken == 0 && !pipe.ReadersOk()
  {
    pipe := new Pipe();
    var dst, slept := pipe.Read(1, 1, {}, false);
    var i, out := pipe.Write(2, [7, 8], 0, {}, 1);
    assert [7, 8][0..1] == [7];
  }

  /** No position from..to is bad. */
  predicate Good(bad: set<nat>, from: nat, to: nat) {
    forall j <- bad :: !(from <= j < to)
  }
}
