/**
 The circular list that orders the buffers of the cache by recency of use.

 Node `head` is the sentinel, the buffers are the nodes below it.  The links
 are two tables, as the prev and next fields of the buffers are.
 */
module LruRing {
  import opened Common

  /** The i-th node met when walking along next from the head (0 and |order|+1 are the head). */
  function At(order: seq<nat>, head: nat, i: int): (x: nat) {
    if 1 <= i <= |order| then order[i - 1] else head
  }

  /** The links form one circle through the head and exactly the nodes of `order`, in that order. */
  ghost predicate RingOf(next: seq<nat>, prev: seq<nat>, head: nat, order: seq<nat>) {
    && |next| == |prev| == head + 1
    && (forall i | 0 <= i < |order| :: order[i] < head)
    && Distinct(order)
    && (forall i | 0 <= i <= |order| :: next[At(order, head, i)] == At(order, head, i + 1))
    && (forall i | 1 <= i <= |order| + 1 :: prev[At(order, head, i)] == At(order, head, i - 1))
  }

  /** Along the circle, prev undoes next and next undoes prev. */
  lemma LinksAreInverse(next: seq<nat>, prev: seq<nat>, head: nat, order: seq<nat>, x: nat)
    requires RingOf(next, prev, head, order)
    requires x == head || x in order
    ensures next[x] <= head && prev[next[x]] == x
    ensures prev[x] <= head && next[prev[x]] == x
  {
    if x == head {
      assert At(order, head, 0) == x == At(order, head, |order| + 1);
      assert prev[At(order, head, 1)] == At(order, head, 0);
      assert next[At(order, head, |order|)] == At(order, head, |order| + 1);
    } else {
      var i :| 0 <= i < |order| && order[i] == x;
      assert At(order, head, i + 1) == x;
      assert prev[At(order, head, i + 2)] == At(order, head, i + 1);
      assert next[At(order, head, i)] == At(order, head, i + 1);
    }
  }

  function Without(s: seq<nat>, k: nat): (r: seq<nat>)
    requires k < |s|
    ensures |r| == |s| - 1
  {
    s[..k] + s[k + 1..]
  }

  /** The two stores that take node order[k] out of the circle. */
  lemma Unlinked(next: seq<nat>, prev: seq<nat>, head: nat, order: seq<nat>, k: nat)
    requires RingOf(next, prev, head, order) && k < |order|
    ensures var x := order[k];
            && next[x] <= head && prev[x] <= head
            && RingOf(next[prev[x] := next[x]], prev[next[x] := prev[x]], head, Without(order, k))
  {
    var x := order[k];
    var r := Without(order, k);
    assert At(order, head, k + 1) == x;
    var a, b := At(order, head, k), At(order, head, k + 2);
    assert prev[x] == a && next[x] == b;
    var next', prev' := next[a := b], prev[b := a];
    forall i | 0 <= i <= |r| ensures next'[At(r, head, i)] == At(r, head, i + 1) {
      var j := if i <= k then i else i + 1;
      assert At(r, head, i) == At(order, head, j);
      assert i < k ==> At(r, head, i + 1) == At(order, head, i + 1);
      assert i >= k ==> At(r, head, i + 1) == At(order, head, i + 2);
      assert i != k ==> At(order, head, j) != a;
    }
    forall i | 1 <= i <= |r| + 1 ensures prev'[At(r, head, i)] == At(r, head, i - 1) {
      var j := if i <= k then i else i + 1;
      assert At(r, head, i) == At(order, head, j);
      assert i <= k + 1 ==> At(r, head, i - 1) == At(order, head, i - 1);
      assert i > k + 1 ==> At(r, head, i - 1) == At(order, head, i);
      assert i != k + 1 ==> At(order, head, j) != b;
    }
  }

  /** The four stores that put node x just after the head. */
  lemma PushedFront(next: seq<nat>, prev: seq<nat>, head: nat, order: seq<nat>, x: nat)
    requires RingOf(next, prev, head, order) && x < head && x !in order
    ensures var f := next[head];
            && f <= head
            && RingOf(next[x := f][head := x], prev[x := head][f := x], head, [x] + order)
  {
    var f := next[head];
    assert At(order, head, 0) == head && f == At(order, head, 1);
    var next', prev' := next[x := f][head := x], prev[x := head][f := x];
    var r := [x] + order;
    forall i | 0 <= i <= |r| ensures next'[At(r, head, i)] == At(r, head, i + 1) {
      if i >= 1 {
        assert At(r, head, i + 1) == At(order, head, i);
        if i >= 2 { assert At(r, head, i) == At(order, head, i - 1); }
      }
    }
    forall i | 1 <= i <= |r| + 1 ensures prev'[At(r, head, i)] == At(r, head, i - 1) {
      if i >= 2 {
        assert At(r, head, i) == At(order, head, i - 1);
        if i >= 3 {
          assert At(r, head, i - 1) == At(order, head, i - 2);
          assert At(order, head, i - 1) != f;
        }
      }
    }
  }
}

/**
 The buffer cache.  A buffer is named by its index in the table; index NBUF is the list head.

 Methods are the critical sections of the C functions.  A call that returns a locked
 buffer stands for the moment at which acquiresleep() has returned, so the buffer is
 required not to be locked by somebody else.
 */
module BufferCache {
  import opened Common
  import opened CrashRecovery
  import opened LruRing

  const NBUF: nat := 30
  const ROOTDEV: nat := 1

  datatype Buf = Buf(dev: nat, blockno: nat, valid: bool, refcnt: nat, locked: bool, data: Block)

  /** Buffer i holds the block, or will once it is read in. */
  predicate IsFor(bufs: seq<Buf>, i: nat, dev: nat, blockno: nat) {
    i < |bufs| && bufs[i].dev == dev && bufs[i].blockno == blockno
  }

  ghost predicate Cached(bufs: seq<Buf>, dev: nat, blockno: nat) {
    exists i: nat :: IsFor(bufs, i, dev, blockno)
  }

  /** Each block of a real device (device 0 marks a buffer never used) has at most one buffer. */
  ghost predicate OneBufferEach(bufs: seq<Buf>) {
    forall i: nat, j: nat, dev: nat, blockno: nat
      | IsFor(bufs, i, dev, blockno) && IsFor(bufs, j, dev, blockno) && dev != 0 :: i == j
  }

  lemma OneBufferUpdate(bufs: seq<Buf>, b: nat, buf: Buf)
    requires OneBufferEach(bufs) && b < |bufs|
    requires IsFor(bufs, b, buf.dev, buf.blockno) || !Cached(bufs, buf.dev, buf.blockno)
    ensures OneBufferEach(bufs[b := buf])
  {
    var now := bufs[b := buf];
    forall i: nat, j: nat, dev: nat, blockno: nat
      | IsFor(now, i, dev, blockno) && IsFor(now, j, dev, blockno) && dev != 0
      ensures i == j
    {
      assert i != b ==> IsFor(bufs, i, dev, blockno);
      assert j != b ==> IsFor(bufs, j, dev, blockno);
    }
  }

  ghost predicate ReadIn(bufs: seq<Buf>, i: nat, blockno: nat) {
    IsFor(bufs, i, ROOTDEV, blockno) && bufs[i].valid
  }

  /** What a reader of the block gets: the valid buffer for it if there is one, else the disk. */
  ghost function Contents(disk: Disk, bufs: seq<Buf>, blockno: nat): (c: Block)
    requires blockno < |disk|
  {
    if exists i: nat :: ReadIn(bufs, i, blockno)
    then var i: nat :| ReadIn(bufs, i, blockno); bufs[i].data
    else disk[blockno]
  }

  /** The whole disk as readers see it. */
  ghost function View(disk: Disk, bufs: seq<Buf>): (v: Disk)
    ensures |v| == |disk|
    ensures forall x | 0 <= x < |v| :: v[x] == Contents(disk, bufs, x)
  {
    seq(|disk|, x requires 0 <= x < |disk| => Contents(disk, bufs, x))
  }

  /** Reusing or changing one buffer changes what is read only for the blocks it held and holds. */
  lemma ContentsUpdate(disk: Disk, bufs: seq<Buf>, b: nat, buf: Buf, x: nat)
    requires b < |bufs| && x < |disk|
    requires OneBufferEach(bufs) && OneBufferEach(bufs[b := buf])
    ensures Contents(disk, bufs[b := buf], x) ==
            if buf.valid && buf.dev == ROOTDEV && buf.blockno == x then buf.data
            else if ReadIn(bufs, b, x) then disk[x]
            else Contents(disk, bufs, x)
    ensures ReadIn(bufs, b, x) ==> Contents(disk, bufs, x) == bufs[b].data
  {
    var after := bufs[b := buf];
    if buf.valid && buf.dev == ROOTDEV && buf.blockno == x {
      assert ReadIn(after, b, x);
    } else if ReadIn(bufs, b, x) {
      forall i: nat | ReadIn(after, i, x) ensures false {
        assert i != b && IsFor(bufs, i, ROOTDEV, x) && IsFor(bufs, b, ROOTDEV, x);
      }
    } else if exists i: nat :: ReadIn(bufs, i, x) {
      var i: nat :| ReadIn(bufs, i, x);
      assert ReadIn(after, i, x);
    } else {
      assert forall i: nat | i < |bufs| && i != b :: ReadIn(after, i, x) ==> ReadIn(bufs, i, x);
    }
  }

  /** A write to disk is not seen by readers of other blocks. */
  lemma ContentsWrite(disk: Disk, bufs: seq<Buf>, y: nat, data: Block, x: nat)
    requires y < |disk| && x < |disk|
    ensures Contents(disk[y := data], bufs, x) ==
            if x == y && !(exists i: nat :: ReadIn(bufs, i, x)) then data else Contents(disk, bufs, x)
  {
  }

  /** References are the lock holder's and the log's pin; a buffer that neither
      protects agrees with the disk. */
  predicate BufferOk(disk: Disk, pinned: bool, b: Buf) {
    && (b.dev == 0 || b.dev == ROOTDEV)
    && (b.valid ==> b.dev == ROOTDEV && b.blockno < |disk| && |b.data| == WORDS)
    && b.refcnt == (if b.locked then 1 else 0) + (if pinned then 1 else 0)
    && (b.valid && !b.locked && !pinned ==> b.data == disk[b.blockno])
  }

  /** What bread() does to the table: buffer b now holds the block, read in, locked and with one
      more reference; it held it before or was unreferenced; no other buffer changed. */
  predicate Fetched(was: seq<Buf>, now: seq<Buf>, b: nat, blockno: nat) {
    && b < |was| == |now|
    && now == was[b := now[b]]
    && IsFor(now, b, ROOTDEV, blockno) && now[b].valid && now[b].locked && !was[b].locked
    && (if IsFor(was, b, ROOTDEV, blockno)
        then now[b].refcnt == was[b].refcnt + 1 && (was[b].valid ==> now[b].data == was[b].data)
        else was[b].refcnt == 0 && now[b].refcnt == 1)
  }

  predicate NoneLocked(bufs: seq<Buf>) { forall i | 0 <= i < |bufs| :: !bufs[i].locked }

  ghost predicate SomeFree(bufs: seq<Buf>) { exists i :: 0 <= i < |bufs| && bufs[i].refcnt == 0 }

  predicate AllFree(bufs: seq<Buf>) { forall i | 0 <= i < |bufs| :: bufs[i].refcnt == 0 }

  /** A referenced buffer stays the buffer of its block. */
  predicate Kept(was: seq<Buf>, now: seq<Buf>) {
    && |was| == |now|
    && forall i | 0 <= i < |was| && was[i].refcnt > 0 ::
         && now[i].dev == was[i].dev && now[i].blockno == was[i].blockno
         && (was[i].valid ==> now[i].valid)
  }

  lemma RoomForSecond(was: seq<Buf>, now: seq<Buf>, x: nat, a: nat, b: nat, j: nat)
    requires Fetched(was, now, x, a) && a != b && |was| == NBUF
    requires AllFree(was) || (ReadIn(was, j, b) && was[j].refcnt > 0)
    ensures Cached(now, ROOTDEV, b) || SomeFree(now)
  {
    if AllFree(was) {
      var i := if x == 0 then 1 else 0;
      assert now[i].refcnt == 0;
    } else {
      assert IsFor(now, j, ROOTDEV, b);
    }
  }

  /** With no buffer locked, a block that is not pinned reads as it is on disk. */
  lemma UnpinnedIsOnDisk(disk: Disk, bufs: seq<Buf>, pinned: set<nat>, x: nat)
    requires x < |disk| && NoneLocked(bufs)
    requires forall i | 0 <= i < |bufs| :: BufferOk(disk, i in pinned, bufs[i])
    requires forall i: nat | i in pinned :: !ReadIn(bufs, i, x)
    ensures Contents(disk, bufs, x) == disk[x]
  {
  }

  class Cache {
    var disk: Disk
    ghost var trace: seq<Disk>      // every state the disk has been in, oldest first
    var bufs: seq<Buf>
    var next: seq<nat>
    var prev: seq<nat>
    ghost var order: seq<nat>       // the buffers from head.next to head.prev
    ghost var moved: seq<nat>       // when each buffer was last moved to the front
    ghost var clock: nat
    ghost var pinned: set<nat>      // the buffers the log holds a reference to

    ghost predicate RingValid()
      reads this
    {
      && |bufs| == |order| == |moved| == NBUF
      && RingOf(next, prev, NBUF, order)
      && (forall i | 0 <= i < NBUF :: moved[i] < clock)
      && (forall i, j | 0 <= i < j < NBUF :: moved[order[i]] > moved[order[j]])
    }

    ghost predicate Valid()
      reads this
    {
      && RingValid()
      && (forall i | 0 <= i < NBUF :: BufferOk(disk, i in pinned, bufs[i]))
      && OneBufferEach(bufs)
      && trace != [] && trace[|trace|-1] == disk
      && (forall b | 0 <= b < |disk| :: |disk[b]| == WORDS)
    }

    /** Nobody holds the lock of a buffer for the block: bget will not wait for it. */
    ghost predicate Unlocked(blockno: nat)
      reads this
    {
      forall i: nat :: IsFor(bufs, i, ROOTDEV, blockno) ==> !bufs[i].locked
    }

    /** bget() finds a buffer: otherwise it panics with "no buffers". */
    ghost predicate HasRoom(blockno: nat)
      reads this
    {
      Cached(bufs, ROOTDEV, blockno) || exists i :: 0 <= i < |bufs| && bufs[i].refcnt == 0
    }

    constructor (d: Disk)
      requires forall b | 0 <= b < |d| :: |d[b]| == WORDS
      ensures Valid() && disk == d && trace == [d] && pinned == {}
      ensures forall i | 0 <= i < NBUF :: bufs[i].refcnt == 0 && !bufs[i].locked && !bufs[i].valid
    {
      disk, trace, pinned := d, [d], {};
      bufs := seq(NBUF, _ => Buf(0, 0, false, 0, false, []));
      var nx: seq<nat>, pv: seq<nat> := seq(NBUF + 1, _ => NBUF), seq(NBUF + 1, _ => NBUF);
      ghost var ord: seq<nat> := [];
      ghost var mv: seq<nat> := [];
      var b: nat := 0;
      while b < NBUF
        invariant 0 <= b <= NBUF
        invariant RingOf(nx, pv, NBUF, ord) && |ord| == |mv| == b
        invariant forall i | 0 <= i < b :: ord[i] == b - 1 - i && mv[i] == i
      {
        PushedFront(nx, pv, NBUF, ord, b);
        nx := nx[b := nx[NBUF]];
        pv := pv[b := NBUF];
        pv := pv[nx[NBUF] := b];
        nx := nx[NBUF := b];
        ord, mv := [b] + ord, mv + [b];
        b := b + 1;
      }
      next, prev, order, moved, clock := nx, pv, ord, mv, NBUF;
    }

    /** Every buffer is somewhere on the ring. */
    lemma Position(i: nat) returns (k: nat)
      requires RingValid() && i < NBUF
      ensures k < NBUF && order[k] == i
    {
      DistinctCovers(order, NBUF, i);
      k :| k < NBUF && order[k] == i;
    }

    lemma NotOnRing(dev: nat, blockno: nat)
      requires RingValid()
      requires forall j | 0 <= j < NBUF :: !IsFor(bufs, order[j], dev, blockno)
      ensures !Cached(bufs, dev, blockno)
    {
      forall i: nat | i < NBUF ensures !IsFor(bufs, i, dev, blockno) {
        var k := Position(i);
      }
    }

    /** The unreferenced buffer furthest from the front is the one moved there longest ago. */
    lemma OldestIsLast(k: nat)
      requires RingValid() && k < NBUF
      requires forall j | k < j < NBUF :: bufs[order[j]].refcnt != 0
      ensures forall i | 0 <= i < NBUF && i != order[k] && bufs[i].refcnt == 0 :: moved[order[k]] < moved[i]
    {
      forall i | 0 <= i < NBUF && i != order[k] && bufs[i].refcnt == 0 ensures moved[order[k]] < moved[i] {
        var j := Position(i);
        assert j < k;
      }
    }

    /** bget()'s first scan, from the most recently used buffer on. */
    method FindCached(dev: nat, blockno: nat) returns (b: nat)
      requires Valid() && dev != 0
      ensures b < NBUF ==> IsFor(bufs, b, dev, blockno)
      ensures b >= NBUF ==> b == NBUF && !Cached(bufs, dev, blockno)
    {
      b := next[NBUF];
      ghost var k := 0;
      assert At(order, NBUF, 0) == NBUF;
      while b != NBUF
        invariant 0 <= k <= NBUF && b == At(order, NBUF, k + 1)
        invariant forall j | 0 <= j < k :: !IsFor(bufs, order[j], dev, blockno)
        decreases NBUF - k
      {
        if bufs[b].dev == dev && bufs[b].blockno == blockno {
          return;
        }
        b, k := next[b], k + 1;
      }
      NotOnRing(dev, blockno);
    }

    /** bget()'s second scan, from the least recently used buffer on. */
    method FindVictim() returns (b: nat)
      requires Valid()
      requires exists i :: 0 <= i < NBUF && bufs[i].refcnt == 0
      ensures b < NBUF && bufs[b].refcnt == 0
      ensures forall i | 0 <= i < NBUF && i != b && bufs[i].refcnt == 0 :: moved[b] < moved[i]
    {
      b := prev[NBUF];
      assert At(order, NBUF, NBUF + 1) == NBUF;
      ghost var k := NBUF;
      while b != NBUF
        invariant 0 <= k <= NBUF && b == At(order, NBUF, k)
        invariant forall j | k <= j < NBUF :: bufs[order[j]].refcnt != 0
        decreases k
      {
        if bufs[b].refcnt == 0 {
          OldestIsLast(k - 1);
          return;
        }
        b, k := prev[b], k - 1;
      }
      ghost var i :| 0 <= i < NBUF && bufs[i].refcnt == 0;
      ghost var j := Position(i);
      assert false;
    }

    method Bget(dev: nat, blockno: nat) returns (b: nat)
      requires Valid() && dev == ROOTDEV
      requires HasRoom(blockno) && Unlocked(blockno)
      modifies this`bufs
      ensures Valid() && b < NBUF
      ensures old(Cached(bufs, dev, blockno)) ==>
                && old(IsFor(bufs, b, dev, blockno))
                && bufs == old(bufs)[b := old(bufs[b]).(refcnt := old(bufs[b].refcnt) + 1, locked := true)]
      ensures !old(Cached(bufs, dev, blockno)) ==>
                && old(bufs[b].refcnt) == 0
                && (forall i | 0 <= i < NBUF && i != b && old(bufs[i].refcnt) == 0 :: moved[b] < moved[i])
                && bufs == old(bufs)[b := Buf(dev, blockno, false, 1, true, old(bufs[b].data))]
    {
      b := FindCached(dev, blockno);
      if b != NBUF {
        OneBufferUpdate(bufs, b, bufs[b].(refcnt := bufs[b].refcnt + 1, locked := true));
        bufs := bufs[b := bufs[b].(refcnt := bufs[b].refcnt + 1, locked := true)];
        return;
      }
      b := FindVictim();
      OneBufferUpdate(bufs, b, Buf(dev, blockno, false, 1, true, bufs[b].data));
      bufs := bufs[b := bufs[b].(dev := dev, blockno := blockno, valid := false, refcnt := 1, locked := true)];
    }

    method Bread(dev: nat, blockno: nat) returns (b: nat)
      requires Valid() && dev == ROOTDEV && blockno < |disk|
      requires HasRoom(blockno) && Unlocked(blockno)
      modifies this`bufs
      ensures Valid() && b < NBUF && Fetched(old(bufs), bufs, b, blockno)
      ensures bufs[b].data == old(Contents(disk, bufs, blockno))
      ensures b in pinned || bufs[b].data == disk[blockno]
      ensures forall x | 0 <= x < |disk| :: Contents(disk, bufs, x) == old(Contents(disk, bufs, x))
    {
      ghost var was := bufs;
      b := Bget(dev, blockno);
      if !bufs[b].valid {
        bufs := bufs[b := bufs[b].(data := disk[blockno], valid := true)];
      }
      assert bufs == was[b := bufs[b]];
      OneBufferUpdate(was, b, bufs[b]);
      ContentsUpdate(disk, was, b, bufs[b], blockno);
      forall x | 0 <= x < |disk| ensures Contents(disk, bufs, x) == Contents(disk, was, x) {
        ContentsUpdate(disk, was, b, bufs[b], x);
        assert x == blockno && !ReadIn(was, b, x) ==> forall i: nat :: !ReadIn(was, i, x);
      }
    }

    /** Client code storing into the data of a buffer it has locked. */
    method SetData(b: nat, data: Block)
      requires Valid() && b < NBUF && bufs[b].locked && bufs[b].valid && |data| == WORDS
      modifies this`bufs
      ensures Valid() && bufs == old(bufs)[b := old(bufs[b]).(data := data)]
      ensures forall x | 0 <= x < |disk| ::
                Contents(disk, bufs, x) == if x == bufs[b].blockno then data else old(Contents(disk, bufs, x))
    {
      ghost var was := bufs;
      bufs := bufs[b := bufs[b].(data := data)];
      OneBufferUpdate(was, b, bufs[b]);
      forall x | 0 <= x < |disk|
        ensures Contents(disk, bufs, x) == if x == bufs[b].blockno then data else Contents(disk, was, x)
      {
        ContentsUpdate(disk, was, b, bufs[b], x);
      }
    }

    method Bwrite(b: nat)
      requires Valid() && b < NBUF && bufs[b].locked && bufs[b].valid
      modifies this`disk, this`trace
      ensures Valid() && bufs[b].blockno < |disk|
      ensures disk == old(disk)[bufs[b].blockno := bufs[b].data] && trace == old(trace) + [disk]
      ensures forall x | 0 <= x < |disk| :: Contents(disk, bufs, x) == old(Contents(disk, bufs, x))
    {
      ghost var was := disk;
      disk := disk[bufs[b].blockno := bufs[b].data];
      trace := trace + [disk];
      assert ReadIn(bufs, b, bufs[b].blockno);
      forall i: nat | i < NBUF && bufs[i].valid && bufs[i].blockno == bufs[b].blockno ensures i == b {
        assert IsFor(bufs, i, ROOTDEV, bufs[b].blockno);
      }
      forall x | 0 <= x < |disk| ensures Contents(disk, bufs, x) == Contents(was, bufs, x) {
        ContentsWrite(was, bufs, bufs[b].blockno, bufs[b].data, x);
      }
    }

    /** The caller has logged what it changed, or changed nothing that is not on disk. */
    method Brelse(b: nat)
      requires Valid() && b < NBUF && bufs[b].locked
      requires b in pinned || (bufs[b].valid && bufs[b].blockno < |disk| ==> bufs[b].data == disk[bufs[b].blockno])
      modifies this`bufs, this`next, this`prev, this`order, this`moved, this`clock
      ensures Valid()
      ensures old(bufs[b].refcnt) > 0 && bufs == old(bufs)[b := old(bufs[b]).(refcnt := old(bufs[b].refcnt) - 1,
              locked := false)]
      ensures bufs[b].refcnt > 0 ==> order == old(order) && moved == old(moved)
      ensures bufs[b].refcnt == 0 ==>
                && order[0] == b && (forall i | 0 <= i < NBUF && i != b :: moved[i] == old(moved[i]) < moved[b])
      ensures forall x | 0 <= x < |disk| :: Contents(disk, bufs, x) == old(Contents(disk, bufs, x))
    {
      ghost var was := bufs;
      bufs := bufs[b := bufs[b].(refcnt := bufs[b].refcnt - 1, locked := false)];
      OneBufferUpdate(was, b, bufs[b]);
      if bufs[b].refcnt == 0 {
        MoveToFront(b);
      }
      forall x | 0 <= x < |disk| ensures Contents(disk, bufs, x) == Contents(disk, was, x) {
        ContentsUpdate(disk, was, b, bufs[b], x);
      }
    }

    /** The list part of brelse(). */
    method MoveToFront(b: nat)
      requires RingValid() && b < NBUF
      modifies this`next, this`prev, this`order, this`moved, this`clock
      ensures RingValid()
      ensures order[0] == b && forall i | 0 <= i < NBUF && i != b :: moved[i] == old(moved[i]) < moved[b]
    {
      ghost var k := Position(b);
      Unlinked(next, prev, NBUF, order, k);
      prev := prev[next[b] := prev[b]];
      next := next[prev[b] := next[b]];
      ghost var rest := Without(order, k);
      PushedFront(next, prev, NBUF, rest, b);
      next := next[b := next[NBUF]];
      prev := prev[b := NBUF];
      prev := prev[next[NBUF] := b];
      next := next[NBUF := b];
      order := [b] + rest;
      moved := moved[b := clock];
      clock := clock + 1;
    }

    method Bpin(b: nat)
      requires Valid() && b < NBUF && b !in pinned
      modifies this`bufs, this`pinned
      ensures Valid() && pinned == old(pinned) + {b}
      ensures bufs == old(bufs)[b := old(bufs[b]).(refcnt := old(bufs[b].refcnt) + 1)]
      ensures forall x | 0 <= x < |disk| :: Contents(disk, bufs, x) == old(Contents(disk, bufs, x))
    {
      ghost var was := bufs;
      bufs := bufs[b := bufs[b].(refcnt := bufs[b].refcnt + 1)];
      OneBufferUpdate(was, b, bufs[b]);
      pinned := pinned + {b};
      forall x | 0 <= x < |disk| ensures Contents(disk, bufs, x) == Contents(disk, was, x) {
        ContentsUpdate(disk, was, b, bufs[b], x);
      }
    }

    method Bunpin(b: nat)
      requires Valid() && b < NBUF && b in pinned && bufs[b].locked
      modifies this`bufs, this`pinned
      ensures Valid() && pinned == old(pinned) - {b}
      ensures old(bufs[b].refcnt) > 0 && bufs == old(bufs)[b := old(bufs[b]).(refcnt := old(bufs[b].refcnt) - 1)]
      ensures forall x | 0 <= x < |disk| :: Contents(disk, bufs, x) == old(Contents(disk, bufs, x))
    {
      ghost var was := bufs;
      bufs := bufs[b := bufs[b].(refcnt := bufs[b].refcnt - 1)];
      OneBufferUpdate(was, b, bufs[b]);
      pinned := pinned - {b};
      forall x | 0 <= x < |disk| ensures Contents(disk, bufs, x) == Contents(disk, was, x) {
        ContentsUpdate(disk, was, b, bufs[b], x);
      }
    }

    /** bread() two different blocks, first a then b.  The second is held already, in buffer j,
        unless every buffer is free. */
    method FetchPair(a: nat, b: nat, ghost j: nat) returns (x: nat, y: nat)
      requires Valid() && a != b && a < |disk| && b < |disk|
      requires NoneLocked(bufs) && SomeFree(bufs)
      requires AllFree(bufs) || (ReadIn(bufs, j, b) && bufs[j].refcnt > 0)
      modifies this`bufs
      ensures Valid() && x < NBUF && y < NBUF && x != y && Kept(old(bufs), bufs)
      ensures ReadIn(bufs, x, a) && ReadIn(bufs, y, b)
      ensures forall i | 0 <= i < NBUF :: bufs[i].locked <==> i == x || i == y
      ensures forall i | 0 <= i < NBUF :: bufs[i].refcnt == old(bufs[i].refcnt) + if i == x || i == y then 1 else 0
      ensures bufs[x].data == old(Contents(disk, bufs, a)) && bufs[y].data == old(Contents(disk, bufs, b))
      ensures (x in pinned || bufs[x].data == disk[a]) && (y in pinned || bufs[y].data == disk[b])
      ensures forall z | 0 <= z < |disk| :: Contents(disk, bufs, z) == old(Contents(disk, bufs, z))
    {
      ghost var was := bufs;
      x := Bread(ROOTDEV, a);
      RoomForSecond(was, bufs, x, a, b, j);
      y := Bread(ROOTDEV, b);
    }

    /** Copy between two held buffers, write the copy to disk, and give both back. */
    method CopyAndRelease(to: nat, from: nat, unpin: bool)
      requires Valid() && to < NBUF && from < NBUF && to != from
      requires bufs[to].locked && bufs[to].valid && bufs[from].locked && bufs[from].valid
      requires from in pinned || (bufs[from].blockno < |disk| ==> bufs[from].data == disk[bufs[from].blockno])
      requires unpin ==> to in pinned
      modifies this
      ensures Valid() && |disk| == |old(disk)| && bufs[to].blockno < |disk|
      ensures pinned == if unpin then old(pinned) - {to} else old(pinned)
      ensures disk == old(disk)[bufs[to].blockno := bufs[to].data] && trace == old(trace) + [disk]
      ensures old(bufs[to].refcnt) >= (if unpin then 2 else 1) && old(bufs[from].refcnt) >= 1
      ensures bufs == old(bufs)
                [to := old(bufs[to]).(data := old(bufs[from].data), locked := false,
                                      refcnt := old(bufs[to].refcnt) - if unpin then 2 else 1)]
                [from := old(bufs[from]).(locked := false, refcnt := old(bufs[from].refcnt) - 1)]
      ensures forall x | 0 <= x < |disk| ::
                Contents(disk, bufs, x) == if x == bufs[to].blockno then bufs[to].data else old(Contents(disk, bufs, x))
    {
      SetData(to, bufs[from].data);
      Bwrite(to);
      if unpin { Bunpin(to); }
      Brelse(from);
      Brelse(to);
    }

    /** The loop body of write_log(): block src, held in buffer j, is copied to block dst. */
    method CopyToLog(dst: nat, src: nat, ghost j: nat)
      requires Valid() && dst != src && dst < |disk| && src < |disk|
      requires NoneLocked(bufs) && SomeFree(bufs) && ReadIn(bufs, j, src) && bufs[j].refcnt > 0
      modifies this
      ensures Valid() && NoneLocked(bufs) && Kept(old(bufs), bufs) && pinned == old(pinned)
      ensures forall i | 0 <= i < NBUF :: old(bufs[i].refcnt) == bufs[i].refcnt
      ensures disk == old(disk)[dst := old(Contents(disk, bufs, src))] && trace == old(trace) + [disk]
      ensures forall x | 0 <= x < |disk| ::
                Contents(disk, bufs, x) == if x == dst then disk[dst] else old(Contents(disk, bufs, x))
    {
      var to, from := FetchPair(dst, src, j);
      CopyAndRelease(to, from, false);
    }

    /** The loop body of install_trans(): block src is copied to block dst, which is pinned in buffer j
        unless every buffer is free, and the pin is dropped. */
    method CopyHome(dst: nat, src: nat, unpin: bool, ghost j: nat)
      requires Valid() && dst != src && dst < |disk| && src < |disk|
      requires NoneLocked(bufs) && SomeFree(bufs)
      requires if unpin then ReadIn(bufs, j, dst) && j in pinned else AllFree(bufs)
      modifies this
      ensures Valid() && NoneLocked(bufs) && Kept(old(bufs), bufs)
      ensures pinned == if unpin then old(pinned) - {j} else old(pinned)
      ensures forall i | 0 <= i < NBUF ::
                old(bufs[i].refcnt) == bufs[i].refcnt + if unpin && i == j then 1 else 0
      ensures disk == old(disk)[dst := old(Contents(disk, bufs, src))] && trace == old(trace) + [disk]
      ensures forall x | 0 <= x < |disk| ::
                Contents(disk, bufs, x) == if x == dst then disk[dst] else old(Contents(disk, bufs, x))
    {
      var from, to := FetchPair(src, dst, j);
      assert unpin ==> IsFor(bufs, j, ROOTDEV, dst) && IsFor(bufs, to, ROOTDEV, dst);
      CopyAndRelease(to, from, unpin);
    }
  }
}
