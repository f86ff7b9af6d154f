/**
 The virtio disk driver: virtio_disk_rw, virtio_disk_intr and the descriptor allocator, with the
 device on the other side of the rings.

 The driver's code runs under vdisk_lock from one sleep to the next, and each driver method is one
 such stretch; the device's two methods may come between any of them.  The device reads only what
 the driver put in the descriptors, the command headers and the rings.
 */
module VirtioDisk {
  import opened Common

  const NUM: nat := 8
  const U16: nat := 0x1_0000
  const BSIZE: nat := 1024

  type Block = seq<nat>

  datatype Addr = Nowhere | Command(i: nat) | Contents(b: nat) | Status(i: nat)
  datatype Desc = Desc(addr: Addr, len: nat, hasNext: bool, deviceWrites: bool, next: nat)
  datatype Op = Op(write: bool, sector: nat)
  datatype Info = Info(b: Option<nat>, status: nat)

  const ZERO: Desc := Desc(Nowhere, 0, false, false, 0)

  /** What virtio_disk_rw was asked to do. */
  datatype Request = Request(b: nat, block: nat, write: bool)

  /** How far a request has come: in the avail ring, in the device, in the used ring, reported. */
  datatype Phase = Posted | Taken | Used | Seen

  /** The three descriptors of a request, found under the first. */
  datatype Chain = Chain(id: nat, mid: nat, last: nat, phase: Phase)

  /** The ring holds q, from position base on. */
  ghost predicate RingHolds(ring: seq<nat>, base: nat, q: seq<nat>) {
    |ring| == NUM && forall k: nat :: RingAt(ring, base, q, k)
  }

  predicate RingAt(ring: seq<nat>, base: nat, q: seq<nat>, k: nat)
    requires |ring| == NUM
  {
    k < |q| ==> ring[(base + k) % NUM] == q[k]
  }

  lemma RingPut(ring: seq<nat>, base: nat, q: seq<nat>, h: nat)
    requires RingHolds(ring, base, q) && |q| < NUM
    ensures RingHolds(ring[(base + |q|) % NUM := h], base, q + [h])
  {
    var r, p := ring[(base + |q|) % NUM := h], q + [h];
    forall k: nat ensures RingAt(r, base, p, k) {
      assert RingAt(ring, base, q, k);
      if k < |q| { Slots(base + k, base + |q|); }
    }
  }

  lemma RingTake(ring: seq<nat>, base: nat, q: seq<nat>)
    requires RingHolds(ring, base, q) && q != []
    ensures ring[base % NUM] == q[0] && RingHolds(ring, base + 1, q[1..])
  {
    var next, p := base + 1, q[1..];
    assert RingAt(ring, base, q, 0);
    forall k: nat ensures RingAt(ring, next, p, k) {
      assert RingAt(ring, base, q, k + 1);
    }
  }

  lemma Slots(a: nat, b: nat)
    requires a < b < a + NUM
    ensures a % NUM != b % NUM
  {
  }

  /** A 16-bit index that counts at most NUM ahead of another differs from it unless nothing is there. */
  lemma IndexTells(base: nat, n: nat)
    requires n <= NUM
    ensures (base + n) % U16 == base % U16 <==> n == 0
  {
  }

  lemma IndexWraps(n: nat)
    ensures n % U16 % NUM == n % NUM && (n % U16 + 1) % U16 == (n + 1) % U16
  {
  }

  ghost predicate AllBelow(s: seq<nat>, n: nat) { forall x <- s :: x < n }

  /** A queue of different heads fits the ring, and leaves room if one is not in it. */
  lemma FitsRing(q: seq<nat>, h: nat)
    requires Distinct(q) && AllBelow(q, NUM)
    ensures |q| <= NUM && (h < NUM && h !in q ==> |q| < NUM)
  {
    ImageSize(q);
    var got := set i | 0 <= i < |q| :: q[i];
    var room := if h < NUM && h !in q then Below(NUM) - {h} else Below(NUM);
    assert got <= room by {
      forall x | x in got ensures x in room { assert x in q; }
    }
    SubsetSize(got, room);
  }

  ghost predicate ThreeFree(free: seq<bool>) {
    exists i: nat, j: nat, k: nat :: AreFree(free, i, j, k)
  }

  predicate AreFree(free: seq<bool>, i: nat, j: nat, k: nat) {
    i < |free| && j < |free| && k < |free| && i != j && i != k && j != k && free[i] && free[j] && free[k]
  }

  /** was, with the descriptors in s taken. */
  ghost predicate FreeBut(free: seq<bool>, was: seq<bool>, s: seq<nat>) {
    |free| == |was| && forall x: nat | x < |free| :: free[x] <==> was[x] && x !in s
  }

  // ----- the state, and what is always true of it -------------------------------

  /** Everything: what the driver and the device hold and share, then the history. */
  datatype State = State(
    free: seq<bool>, desc: seq<Desc>, ops: seq<Op>, info: seq<Info>,
    availRing: seq<nat>, availIdx: nat, usedRing: seq<nat>, usedIdx: nat, seenIdx: nat, nextAvail: nat,
    busy: set<nat>, data: map<nat, Block>, blocks: seq<Block>, starved: set<nat>, waiting: set<nat>,
    h: History)

  datatype History = History(
    requests: seq<Request>,
    posted: seq<Block>,           // what the buffer of each held when it was posted
    moved: seq<Option<Block>>,    // what the device transferred for each
    chainOf: seq<nat>,            // the chain of each
    chains: map<nat, Chain>,      // by first descriptor
    owner: seq<Option<nat>>,      // the chain of each descriptor
    holder: map<nat, nat>,        // the chain of each buffer
    pending: seq<nat>,            // the heads in the avail ring
    done: seq<nat>,               // and in the used ring
    nTaken: nat,                  // how many have left each
    nSeen: nat)

  ghost predicate Sizes(s: State) {
    && |s.free| == |s.desc| == |s.ops| == |s.info| == |s.h.owner| == NUM
    && |s.h.requests| == |s.h.posted| == |s.h.moved| == |s.h.chainOf| && |s.blocks| <= 0x8000_0000
  }

  /** The heads between base and base + |q| are in the ring, and the two indices say so. */
  ghost predicate RingOk(ring: seq<nat>, from: nat, to: nat, base: nat, q: seq<nat>) {
    RingHolds(ring, base, q) && Distinct(q) && AllBelow(q, NUM) && from == base % U16 && to == (base + |q|) % U16
  }

  lemma RingNext(ring: seq<nat>, from: nat, to: nat, base: nat, q: seq<nat>)
    requires RingOk(ring, from, to, base, q) && q != []
    ensures RingOk(ring, (base + 1) % U16, to, base + 1, q[1..]) && ring[base % NUM] == q[0]
  {
    RingTake(ring, base, q);
    assert forall x <- q[1..] :: x in q;
  }

  lemma RingMore(ring: seq<nat>, from: nat, to: nat, base: nat, q: seq<nat>, h: nat)
    requires RingOk(ring, from, to, base, q) && h < NUM && h !in q
    ensures RingOk(ring[(base + |q|) % NUM := h], from, (base + |q| + 1) % U16, base, q + [h])
  {
    FitsRing(q, h);
    RingPut(ring, base, q, h);
  }

  ghost predicate Rings(s: State) {
    && RingOk(s.availRing, s.nextAvail, s.availIdx, s.h.nTaken, s.h.pending)
    && RingOk(s.usedRing, s.seenIdx, s.usedIdx, s.h.nSeen, s.h.done)
  }

  /** A descriptor is free and zero, or part of one chain. */
  ghost predicate DescOk(s: State, i: nat)
    requires Sizes(s)
  {
    i < NUM ==> if s.free[i] then s.h.owner[i] == None && s.desc[i] == ZERO
                else s.h.owner[i].Some? && PartOf(s.h.chains, i, s.h.owner[i].value)
  }

  ghost predicate PartOf(chains: map<nat, Chain>, i: nat, h: nat) {
    h in chains && (i == h || i == chains[h].mid || i == chains[h].last)
  }

  ghost predicate ChainOk(s: State, h: nat)
    requires Sizes(s)
  {
    && (h in s.h.chains ==>
          && s.h.chains[h].id < |s.h.requests| && s.h.chainOf[s.h.chains[h].id] == h
          && Formatted(s, h, s.h.chains[h]) && Underway(s, h, s.h.chains[h]))
    && (h in s.h.pending <==> h in s.h.chains && s.h.chains[h].phase == Posted)
    && (h in s.h.done <==> h in s.h.chains && s.h.chains[h].phase == Used)
  }

  /** The chain has its descriptors to itself, and they say what the request asks for. */
  ghost predicate Formatted(s: State, h: nat, c: Chain)
    requires Sizes(s) && c.id < |s.h.requests|
  {
    var r := s.h.requests[c.id];
    && h < NUM && c.mid < NUM && c.last < NUM && h != c.mid && h != c.last && c.mid != c.last
    && !s.free[h] && !s.free[c.mid] && !s.free[c.last]
    && s.h.owner[h] == s.h.owner[c.mid] == s.h.owner[c.last] == Some(h)
    && s.desc[h] == Desc(Command(h), 16, true, false, c.mid)
    && s.desc[c.mid] == Desc(Contents(r.b), BSIZE, true, !r.write, c.last)
    && s.desc[c.last] == Desc(Status(h), 1, false, true, 0)
    && s.ops[h] == Op(r.write, r.block * 2) && r.block < |s.blocks|
    && s.info[h].b == Some(r.b) && r.b in s.data && r.b in s.h.holder && s.h.holder[r.b] == h
  }

  /** Until the device is done the buffer is as posted and nothing has moved; from then on it holds what did. */
  ghost predicate Underway(s: State, h: nat, c: Chain)
    requires Sizes(s) && c.id < |s.h.requests| && h < NUM
  {
    var b := s.h.requests[c.id].b;
    && (b in s.busy <==> c.phase != Seen)
    && if c.phase == Posted || c.phase == Taken then
      s.info[h].status == 0xff && s.h.moved[c.id] == None && b in s.data && s.data[b] == s.h.posted[c.id]
       else s.info[h].status == 0 && b in s.data && s.h.moved[c.id] == Some(s.data[b])
  }

  /** A request the device has not served is in one of the chains. */
  ghost predicate RequestOk(s: State, id: nat)
    requires Sizes(s)
  {
    id < |s.h.requests| && s.h.moved[id] == None ==>
      s.h.chainOf[id] in s.h.chains && s.h.chains[s.h.chainOf[id]].id == id
  }

  ghost predicate BufOk(s: State, b: nat)
    requires Sizes(s)
  {
    && (b in s.h.holder ==> Uses(s.h, s.h.holder[b], b))
    && (b in s.busy ==> b in s.h.holder) && (b in s.waiting ==> b in s.busy)
  }

  ghost predicate Uses(h: History, head: nat, b: nat) {
    head in h.chains && h.chains[head].id < |h.requests| && h.requests[h.chains[head].id].b == b
  }

  ghost predicate Inv(s: State) {
    && Sizes(s) && Rings(s) && (s.starved != {} ==> !ThreeFree(s.free))
    && (forall i: nat :: DescOk(s, i)) && (forall h: nat :: ChainOk(s, h))
    && (forall id: nat :: RequestOk(s, id)) && (forall b: nat :: BufOk(s, b))
  }

  lemma StarvedKeeps(s: State, starved: set<nat>)
    requires Inv(s) && !ThreeFree(s.free)
    ensures Inv(s.(starved := starved))
  {
    var t := s.(starved := starved);
    forall i: nat ensures DescOk(t, i) { assert DescOk(s, i); }
    forall h: nat ensures ChainOk(t, h) { assert ChainOk(s, h); }
    forall id: nat ensures RequestOk(t, id) { assert RequestOk(s, id); }
    forall b: nat ensures BufOk(t, b) { assert BufOk(s, b); }
  }

  lemma WaitingKeeps(s: State, b: nat)
    requires Inv(s) && b in s.busy
    ensures Inv(s.(waiting := s.waiting + {b}))
  {
    var t := s.(waiting := s.waiting + {b});
    forall i: nat ensures DescOk(t, i) { assert DescOk(s, i); }
    forall h: nat ensures ChainOk(t, h) { assert ChainOk(s, h); }
    forall id: nat ensures RequestOk(t, id) { assert RequestOk(s, id); }
    forall x: nat ensures BufOk(t, x) { assert BufOk(s, x); }
  }

  /** The holder of a buffer that is in no request may store into it. */
  lemma StoreKeeps(s: State, b: nat, block: Block)
    requires Inv(s) && b in s.data && b !in s.h.holder
    ensures Inv(s.(data := s.data[b := block]))
  {
    var t := s.(data := s.data[b := block]);
    forall i: nat ensures DescOk(t, i) { assert DescOk(s, i); }
    forall h: nat ensures ChainOk(t, h) { assert ChainOk(s, h); }
    forall id: nat ensures RequestOk(t, id) { assert RequestOk(s, id); }
    forall x: nat ensures BufOk(t, x) { assert BufOk(s, x); }
  }

  // ----- a request is posted -----------------------------------------------------------

  lemma FreeAreZero(s: State)
    requires Inv(s)
    ensures forall x: nat | x < NUM && s.free[x] :: s.desc[x] == ZERO
  {
    forall x: nat | x < NUM && s.free[x] ensures s.desc[x] == ZERO { assert DescOk(s, x); }
  }

  lemma NoThree(free: seq<bool>, got: seq<nat>)
    requires |got| < 3 && forall x: nat | x < |free| && free[x] :: x in got
    ensures !ThreeFree(free)
  {
    assert forall i: nat, j: nat, k: nat | AreFree(free, i, j, k) :: i in got && j in got && k in got;
  }

  lemma Taken3(free: seq<bool>, was: seq<bool>, i: nat, m: nat, l: nat)
    requires FreeBut(free, was, [i, m, l]) && AreFree(was, i, m, l)
    ensures free == was[i := false][m := false][l := false]
  {
  }

  /** The state after virtio_disk_rw has posted r on descriptors h, m and l. */
  ghost function Post(s: State, r: Request, h: nat, m: nat, l: nat): State
    requires Sizes(s) && |s.availRing| == NUM && h < NUM && m < NUM && l < NUM && r.b in s.data
  {
    s.(free := s.free[h := false][m := false][l := false],
       desc := s.desc[h := Desc(Command(h), 16, true, false, m)][m := Desc(Contents(r.b), BSIZE, true, !r.write,
           l)][l := Desc(Status(h), 1, false, true, 0)],
       ops := s.ops[h := Op(r.write, r.block * 2)],
       info := s.info[h := Info(Some(r.b), 0xff)],
       availRing := s.availRing[(s.h.nTaken + |s.h.pending|) % NUM := h],
       availIdx := (s.h.nTaken + |s.h.pending| + 1) % U16,
       busy := s.busy + {r.b},
       h := s.h.(requests := s.h.requests + [r], posted := s.h.posted + [s.data[r.b]], moved := s.h.moved +
                 [None], chainOf := s.h.chainOf + [h],
                 chains := s.h.chains[h := Chain(|s.h.requests|, m, l, Posted)],
                 owner := s.h.owner[h := Some(h)][m := Some(h)][l := Some(h)],
                 holder := s.h.holder[r.b := h], pending := s.h.pending + [h]))
  }

  ghost predicate CanPost(s: State, r: Request, h: nat, m: nat, l: nat) {
    Inv(s) && AreFree(s.free, h, m, l) && r.b in s.data && r.b !in s.h.holder && r.block < |s.blocks|
  }

  lemma PostKeeps(s: State, r: Request, h: nat, m: nat, l: nat)
    requires CanPost(s, r, h, m, l)
    ensures Inv(Post(s, r, h, m, l))
  {
    var t := Post(s, r, h, m, l);
    PostRings(s, r, h, m, l);
    assert !ThreeFree(s.free) ==> !ThreeFree(t.free) by {
      assert forall i: nat, j: nat, k: nat | AreFree(t.free, i, j, k) :: AreFree(s.free, i, j, k);
    }
    assert DescOk(s, h) && DescOk(s, m) && DescOk(s, l) && ChainOk(s, h);
    forall i: nat ensures DescOk(t, i) { assert DescOk(s, i); }
    forall x: nat ensures ChainOk(t, x) { PostChain(s, r, h, m, l, x); }
    forall id: nat ensures RequestOk(t, id) { assert RequestOk(s, id); }
    forall b: nat ensures BufOk(t, b) { assert BufOk(s, b); }
  }

  /** The state that posting leads to, field by field. */
  lemma PostOf(s: State, r: Request, i: nat, m: nat, l: nat) returns (t: State)
    requires CanPost(s, r, i, m, l)
    ensures t == Post(s, r, i, m, l) && Inv(t)
    ensures s.availIdx == (s.h.nTaken + |s.h.pending|) % U16
    ensures t == s.(free := s.free[i := false][m := false][l := false], desc := t.desc,
                    ops := s.ops[i := Op(r.write, r.block * 2)],
                    info := s.info[i := Info(Some(r.b), 0xff)],
                      availRing := s.availRing[(s.h.nTaken + |s.h.pending|) % NUM := i],
                    availIdx := (s.h.nTaken + |s.h.pending| + 1) % U16, busy := s.busy + {r.b}, h := t.h)
  {
    PostKeeps(s, r, i, m, l);
    t := Post(s, r, i, m, l);
  }

  lemma PostRings(s: State, r: Request, h: nat, m: nat, l: nat)
    requires CanPost(s, r, h, m, l)
    ensures h !in s.h.chains && Rings(Post(s, r, h, m, l))
  {
    assert DescOk(s, h) && ChainOk(s, h);
    RingMore(s.availRing, s.nextAvail, s.availIdx, s.h.nTaken, s.h.pending, h);
  }

  lemma PostChain(s: State, r: Request, h: nat, m: nat, l: nat, x: nat)
    requires CanPost(s, r, h, m, l) && h !in s.h.chains
    ensures ChainOk(Post(s, r, h, m, l), x)
  {
    assert DescOk(s, h) && DescOk(s, m) && DescOk(s, l) && ChainOk(s, x);
    if x in s.h.chains { PostOthers(s, r, h, m, l, x); }
  }

  lemma PostOthers(s: State, r: Request, h: nat, m: nat, l: nat, x: nat)
    requires CanPost(s, r, h, m, l) && x != h && x in s.h.chains && ChainOk(s, x)
    ensures ChainOk(Post(s, r, h, m, l), x)
  {
    var c, t := s.h.chains[x], Post(s, r, h, m, l);
    assert c.mid !in {h, m, l} && c.last !in {h, m, l} && x !in {h, m, l};
    assert Formatted(t, x, c);
  }

  // ----- the device ------------------------------------------------------------------------

  ghost function Moved(h: History, x: nat, phase: Phase): map<nat, Chain>
    requires x in h.chains
  {
    h.chains[x := h.chains[x].(phase := phase)]
  }

  /** The device takes the next head from the avail ring. */
  ghost function Fetch(s: State): State
    requires s.h.pending != [] && s.h.pending[0] in s.h.chains
  {
    s.(nextAvail := (s.h.nTaken + 1) % U16,
       h := s.h.(nTaken := s.h.nTaken + 1, pending := s.h.pending[1..], chains := Moved(s.h, s.h.pending[0], Taken)))
  }

  lemma FetchKeeps(s: State)
    requires Inv(s) && s.h.pending != []
    ensures s.h.pending[0] in s.h.chains && Inv(Fetch(s))
  {
    var h := s.h.pending[0];
    assert ChainOk(s, h);
    var t := Fetch(s);
    RingNext(s.availRing, s.nextAvail, s.availIdx, s.h.nTaken, s.h.pending);
    forall i: nat ensures DescOk(t, i) { assert DescOk(s, i); }
    forall x: nat ensures ChainOk(t, x) { assert ChainOk(s, x); HeadLeaves(s.h.pending, x); }
    forall id: nat ensures RequestOk(t, id) { assert RequestOk(s, id); }
    forall b: nat ensures BufOk(t, b) { assert BufOk(s, b); }
  }

  lemma HeadLeaves(q: seq<nat>, x: nat)
    requires Distinct(q) && q != []
    ensures x in q[1..] <==> x in q && x != q[0]
  {
  }

  /** The device does what request x asks, and puts its head in the used ring. */
  ghost function Serve(s: State, x: nat): State
    requires Inv(s) && x in s.h.chains
  {
    assert ChainOk(s, x);
    var id := s.h.chains[x].id;
    var r := s.h.requests[id];
    var block := if r.write then s.data[r.b] else s.blocks[r.block];
    s.(data := if r.write then s.data else s.data[r.b := block], blocks := if r.write then s.blocks[r.block := block]
       else s.blocks,
       info := s.info[x := s.info[x].(status := 0)],
       usedRing := s.usedRing[(s.h.nSeen + |s.h.done|) % NUM := x], usedIdx := (s.h.nSeen + |s.h.done| + 1) % U16,
       h := s.h.(moved := s.h.moved[id := Some(block)], done := s.h.done + [x], chains := Moved(s.h, x, Used)))
  }

  lemma ServeKeeps(s: State, x: nat)
    requires Inv(s) && x in s.h.chains && s.h.chains[x].phase == Taken
    ensures Inv(Serve(s, x))
  {
    assert ChainOk(s, x);
    var t := Serve(s, x);
    RingMore(s.usedRing, s.seenIdx, s.usedIdx, s.h.nSeen, s.h.done, x);
    forall i: nat ensures DescOk(t, i) { assert DescOk(s, i); }
    forall y: nat ensures ChainOk(t, y) { assert ChainOk(s, y); }
    forall id: nat ensures RequestOk(t, id) { assert RequestOk(s, id); }
    forall b: nat ensures BufOk(t, b) { assert BufOk(s, b); }
  }

  /** What the device finds in the descriptors of chain x, and the state that serving it leads to. */
  lemma ServeOf(s: State, x: nat) returns (t: State, r: Request)
    requires Inv(s) && x in s.h.chains && s.h.chains[x].phase == Taken
    ensures |s.desc| == |s.ops| == |s.info| == |s.usedRing| == NUM && x < NUM && s.desc[x].addr == Command(x) &&
            s.desc[x].next < NUM
    ensures var d := s.desc[s.desc[x].next]; d.addr == Contents(r.b) && d.next < NUM && s.desc[d.next].addr == Status(x)
    ensures s.ops[x] == Op(r.write, r.block * 2) && r.b in s.data && r.block < |s.blocks|
    ensures s.usedIdx == (s.h.nSeen + |s.h.done|) % U16 && t == Serve(s, x) && Inv(t)
    ensures t == s.(data := if r.write then s.data else s.data[r.b := s.blocks[r.block]],
                    blocks := if r.write then s.blocks[r.block := s.data[r.b]] else s.blocks,
                    info := s.info[x := s.info[x].(status := 0)],
                    usedRing := s.usedRing[(s.h.nSeen + |s.h.done|) % NUM := x],
                      usedIdx := (s.h.nSeen + |s.h.done| + 1) % U16, h := t.h)
  {
    ServeKeeps(s, x);
    assert ChainOk(s, x);
    t, r := Serve(s, x), s.h.requests[s.h.chains[x].id];
  }

  // ----- virtio_disk_intr ------------------------------------------------------------------

  /** The interrupt handler reports the next head of the used ring. */
  ghost function See(s: State): State
    requires Inv(s) && s.h.done != []
  {
    var x := s.h.done[0];
    assert ChainOk(s, x);
    var b := BufOf(s.h, x);
    s.(seenIdx := (s.h.nSeen + 1) % U16, busy := s.busy - {b}, waiting := s.waiting - {b},
       h := s.h.(nSeen := s.h.nSeen + 1, done := s.h.done[1..], chains := Moved(s.h, x, Seen)))
  }

  lemma SeeKeeps(s: State)
    requires Inv(s) && s.h.done != []
    ensures Inv(See(s))
  {
    var x := s.h.done[0];
    assert ChainOk(s, x);
    var t := See(s);
    RingNext(s.usedRing, s.seenIdx, s.usedIdx, s.h.nSeen, s.h.done);
    forall i: nat ensures DescOk(t, i) { assert DescOk(s, i); }
    forall y: nat ensures ChainOk(t, y) { assert ChainOk(s, y); HeadLeaves(s.h.done, y); }
    forall id: nat ensures RequestOk(t, id) { assert RequestOk(s, id); }
    forall b: nat ensures BufOk(t, b) { assert BufOk(s, b); }
  }

  /** What the handler finds in the used ring is a served chain, with its buffer recorded. */
  lemma NextUsed(s: State)
    requires Inv(s) && s.seenIdx != s.usedIdx
    ensures s.h.done != [] && s.usedRing[s.h.nSeen % NUM] == s.h.done[0] < NUM
    ensures s.info[s.h.done[0]] == Info(Some(BufOf(s.h, s.h.done[0])), 0)
  {
    FitsRing(s.h.done, 0);
    IndexTells(s.h.nSeen, |s.h.done|);
    RingNext(s.usedRing, s.seenIdx, s.usedIdx, s.h.nSeen, s.h.done);
    assert ChainOk(s, s.h.done[0]);
  }

  ghost function Reported(c: Chain): Chain {
    if c.phase == Used then c.(phase := Seen) else c
  }

  /** old, with some more of its used chains reported. */
  ghost predicate Reports(was: State, s: State) {
    && s == was.(seenIdx := s.seenIdx, busy := s.busy, waiting := was.waiting * s.busy,
                 h := was.h.(nSeen := s.h.nSeen, done := s.h.done, chains := s.h.chains))
    && s.h.nSeen + |s.h.done| == was.h.nSeen + |was.h.done|
    && s.h.chains.Keys == was.h.chains.Keys && forall x: nat :: ReportsChain(was, s, x)
  }

  ghost predicate ReportsChain(was: State, s: State, x: nat) {
    x in s.h.chains && x in was.h.chains ==> Reported(s.h.chains[x]) == Reported(was.h.chains[x])
  }

  lemma ReportsNone(s: State)
    requires Inv(s)
    ensures Reports(s, s)
  {
    assert s.waiting * s.busy == s.waiting by {
      assert forall b <- s.waiting :: BufOk(s, b);
    }
  }

  lemma ReportsMore(was: State, s: State)
    requires Inv(s) && Reports(was, s) && s.h.done != []
    ensures Reports(was, See(s))
  {
    var t, x := See(s), s.h.done[0];
    assert ChainOk(s, x);
    assert t.waiting == was.waiting * t.busy;
    assert t.h.chains.Keys == s.h.chains.Keys;
    forall y: nat ensures ReportsChain(was, t, y) { assert ReportsChain(was, s, y); }
  }

  lemma ReportsAll(was: State, s: State, x: nat)
    requires Inv(s) && Reports(was, s) && s.h.done == [] && x in s.h.chains
    ensures s.h.chains[x] == Reported(was.h.chains[x])
  {
    assert ChainOk(s, x) && ReportsChain(was, s, x);
  }

  // ----- a request is over -------------------------------------------------------------------

  /** virtio_disk_rw returns: the chain is freed. */
  ghost function Retire(s: State, x: nat): State
    requires Inv(s) && x in s.h.chains
  {
    assert ChainOk(s, x);
    var c := s.h.chains[x];
    s.(free := s.free[x := true][c.mid := true][c.last := true],
       desc := s.desc[x := ZERO][c.mid := ZERO][c.last := ZERO],
       info := s.info[x := s.info[x].(b := None)], starved := {},
       h := s.h.(chains := s.h.chains - {x}, holder := s.h.holder - {s.h.requests[c.id].b},
                 owner := s.h.owner[x := None][c.mid := None][c.last := None]))
  }

  lemma RetireOthers(s: State, x: nat, y: nat)
    requires Inv(s) && x in s.h.chains && y in s.h.chains && x != y
    ensures Sizes(Retire(s, x)) && ChainOk(Retire(s, x), y)
  {
    var c, d, t := s.h.chains[x], s.h.chains[y], Retire(s, x);
    assert ChainOk(s, x) && ChainOk(s, y);
    assert d.mid !in {x, c.mid, c.last} && d.last !in {x, c.mid, c.last} && y !in {x, c.mid, c.last};
    assert Formatted(t, y, d);
  }

  lemma RetireKeeps(s: State, x: nat)
    requires Inv(s) && x in s.h.chains && s.h.chains[x].phase == Seen
    ensures Inv(Retire(s, x))
  {
    assert ChainOk(s, x);
    var t := Retire(s, x);
    forall i: nat ensures DescOk(t, i) { assert DescOk(s, i); }
    forall y: nat ensures ChainOk(t, y) {
      assert ChainOk(s, y);
      if y != x && y in s.h.chains { RetireOthers(s, x, y); }
    }
    forall id: nat ensures RequestOk(t, id) { assert RequestOk(s, id); }
    forall b: nat ensures BufOk(t, b) { assert BufOk(s, b); }
  }

  lemma BusyUntilSeen(s: State, x: nat)
    requires Inv(s) && x in s.h.chains
    ensures x < |s.info| && s.info[x].b == Some(BufOf(s.h, x)) &&
            (BufOf(s.h, x) in s.busy <==> s.h.chains[x].phase != Seen)
  {
    assert ChainOk(s, x);
  }

  /** What free_chain() finds, and the state that retiring chain x leads to. */
  lemma RetireOf(s: State, x: nat) returns (t: State, c: Chain)
    requires Inv(s) && x in s.h.chains && s.h.chains[x].phase == Seen
    ensures |s.free| == |s.desc| == |s.info| == NUM && x < NUM && c.mid < NUM && c.last < NUM && x != c.mid &&
            x != c.last && c.mid != c.last
    ensures !s.free[x] && !s.free[c.mid] && !s.free[c.last]
    ensures s.desc[x].hasNext && s.desc[x].next == c.mid && s.desc[c.mid].hasNext && s.desc[c.mid].next == c.last &&
            !s.desc[c.last].hasNext
    ensures t == Retire(s, x) && Inv(t)
    ensures t == s.(free := s.free[x := true][c.mid := true][c.last := true],
                    desc := s.desc[x := ZERO][c.mid := ZERO][c.last := ZERO],
                    info := s.info[x := s.info[x].(b := None)], starved := {}, h := t.h)
  {
    RetireKeeps(s, x);
    assert ChainOk(s, x);
    t, c := Retire(s, x), s.h.chains[x];
  }

  // ----- whole runs ----------------------------------------------------------------------------

  /** The stretches of the driver, the acts of the device, and stores of clients, in any order. */
  datatype Event =
    | Stores(b: nat, block: Block)
    | Posts(r: Request, i: nat, m: nat, l: nat)
    | Starves(who: set<nat>)
    | Fetches
    | Serves(x: nat)
    | Sees
    | Waits(b: nat)
    | Retires(x: nat)

  ghost predicate Enabled(s: State, e: Event) {
    match e
    case Stores(b, _) => b in s.data && b !in s.h.holder
    case Posts(r, i, m, l) => CanPost(s, r, i, m, l)
    case Starves(_) => !ThreeFree(s.free)
    case Fetches => s.h.pending != [] && s.h.pending[0] in s.h.chains
    case Serves(x) => x in s.h.chains && s.h.chains[x].phase == Taken
    case Sees => s.h.done != []
    case Waits(b) => b in s.busy
    case Retires(x) => x in s.h.chains && s.h.chains[x].phase == Seen
  }

  ghost function Next(s: State, e: Event): State
    requires Inv(s) && Enabled(s, e)
  {
    match e
    case Stores(b, block) => s.(data := s.data[b := block])
    case Posts(r, i, m, l) => Post(s, r, i, m, l)
    case Starves(who) => s.(starved := who)
    case Fetches => Fetch(s)
    case Serves(x) => Serve(s, x)
    case Sees => See(s)
    case Waits(b) => s.(waiting := s.waiting + {b})
    case Retires(x) => Retire(s, x)
  }

  lemma NextKeeps(s: State, e: Event)
    requires Inv(s) && Enabled(s, e)
    ensures Inv(Next(s, e))
  {
    match e
    case Stores(b, block) => StoreKeeps(s, b, block);
    case Posts(r, i, m, l) => PostKeeps(s, r, i, m, l);
    case Starves(who) => StarvedKeeps(s, who);
    case Fetches => FetchKeeps(s);
    case Serves(x) => ServeKeeps(s, x);
    case Sees => SeeKeeps(s);
    case Waits(b) => WaitingKeeps(s, b);
    case Retires(x) => RetireKeeps(s, x);
  }

  ghost predicate Goes(s: State, e: Event, t: State) {
    Inv(s) ==> Enabled(s, e) && t == Next(s, e)
  }

  /** A run from a state in which nothing was asked yet. */
  ghost predicate Run(states: seq<State>, events: seq<Event>) {
    && |states| == |events| + 1 && Inv(states[0]) && states[0].h.requests == []
    && forall k: nat | k < |events| :: Goes(states[k], events[k], states[k + 1])
  }

  lemma {:induction false} RunKeeps(states: seq<State>, events: seq<Event>, k: nat)
    requires Run(states, events) && k < |states|
    ensures Inv(states[k])
  {
    if k > 0 {
      RunKeeps(states, events, k - 1);
      assert Goes(states[k - 1], events[k - 1], states[k]);
      NextKeeps(states[k - 1], events[k - 1]);
    }
  }

  // ----- what becomes of a request --------------------------------------------------------------

  /** The event posts request id. */
  ghost predicate PostsId(s: State, e: Event, id: nat) { e.Posts? && |s.h.requests| == id }

  /** The event serves request id. */
  ghost predicate ServesId(s: State, e: Event, id: nat) {
    e.Serves? && e.x in s.h.chains && s.h.chains[e.x].id == id
  }

  /** The head that the interrupt handler reads next in the used ring. */
  ghost function UsedHead(s: State): nat
    requires |s.usedRing| == NUM
  {
    s.usedRing[s.seenIdx % NUM]
  }

  /** The event reports request id: it is on the chain that the handler reads in the used ring. */
  ghost predicate SeesId(s: State, e: Event, id: nat) {
    e.Sees? && |s.usedRing| == NUM && UsedHead(s) in s.h.chains && s.h.chains[UsedHead(s)].id == id
  }

  /** How far request id has come: posted, served, reported. */
  ghost function Rank(s: State, id: nat): nat
    requires Sizes(s)
  {
    if id >= |s.h.requests| then 0
    else if s.h.moved[id] == None then 1
    else if Used3(s.h, s.h.chainOf[id], id) then 2
    else 3
  }

  ghost predicate Used3(h: History, x: nat, id: nat) {
    x in h.chains && h.chains[x].id == id && h.chains[x].phase == Used
  }

  /** The handler reads the head of the oldest completion that it has not reported. */
  lemma UsedHeadIsNext(s: State)
    requires Inv(s) && s.h.done != []
    ensures UsedHead(s) == s.h.done[0] && s.h.done[0] in s.h.chains && s.h.chains[s.h.done[0]].phase == Used
    ensures s.h.chains[s.h.done[0]].id < |s.h.requests| && s.h.chainOf[s.h.chains[s.h.done[0]].id] == s.h.done[0]
  {
    RingNext(s.usedRing, s.seenIdx, s.usedIdx, s.h.nSeen, s.h.done);
    IndexWraps(s.h.nSeen);
    assert ChainOk(s, s.h.done[0]);
  }

  /** Each step takes a request one further exactly if it posts, serves or reports it. */
  ghost predicate RankStep(s: State, e: Event, t: State, id: nat)
    requires Sizes(s) && Sizes(t)
  {
    && (PostsId(s, e, id) <==> Rank(s, id) == 0 && Rank(t, id) == 1)
    && (ServesId(s, e, id) <==> Rank(s, id) == 1 && Rank(t, id) == 2)
    && (SeesId(s, e, id) <==> Rank(s, id) == 2 && Rank(t, id) == 3)
    && (Rank(t, id) == Rank(s, id) || Rank(t, id) == Rank(s, id) + 1)
  }

  lemma PostRank(s: State, e: Event, id: nat)
    requires Inv(s) && Enabled(s, e) && e.Posts?
    ensures Sizes(Next(s, e)) && RankStep(s, e, Next(s, e), id)
  {
    assert DescOk(s, e.i) && ChainOk(s, e.i);
    if id < |s.h.requests| { assert Next(s, e).h.chainOf[id] == s.h.chainOf[id]; }
  }

  lemma ServeRank(s: State, e: Event, id: nat)
    requires Inv(s) && Enabled(s, e) && e.Serves?
    ensures Sizes(Next(s, e)) && RankStep(s, e, Next(s, e), id)
  {
    assert ChainOk(s, e.x);
    if id < |s.h.requests| { assert ChainOk(s, s.h.chainOf[id]); }
  }

  lemma SeeRank(s: State, e: Event, id: nat)
    requires Inv(s) && Enabled(s, e) && e.Sees?
    ensures Sizes(Next(s, e)) && RankStep(s, e, Next(s, e), id)
  {
    UsedHeadIsNext(s);
    assert ChainOk(s, s.h.done[0]);
  }

  lemma RetireRank(s: State, e: Event, id: nat)
    requires Inv(s) && Enabled(s, e) && e.Retires?
    ensures Sizes(Next(s, e)) && RankStep(s, e, Next(s, e), id)
  {
    assert ChainOk(s, e.x);
  }

  lemma FetchRank(s: State, e: Event, id: nat)
    requires Inv(s) && Enabled(s, e) && e.Fetches?
    ensures Sizes(Next(s, e)) && RankStep(s, e, Next(s, e), id)
  {
    assert ChainOk(s, s.h.pending[0]);
  }

  lemma StepRank(s: State, e: Event, id: nat)
    requires Inv(s) && Enabled(s, e)
    ensures Sizes(Next(s, e)) && RankStep(s, e, Next(s, e), id)
  {
    match e
    case Posts(_, _, _, _) => PostRank(s, e, id);
    case Serves(_) => ServeRank(s, e, id);
    case Sees => SeeRank(s, e, id);
    case Retires(_) => RetireRank(s, e, id);
    case Fetches => FetchRank(s, e, id);
    case Stores(_, _) =>
    case Starves(_) =>
    case Waits(_) =>
  }

  lemma RunStep(states: seq<State>, events: seq<Event>, k: nat, id: nat)
    requires Run(states, events) && k < |events|
    ensures Inv(states[k]) && Inv(states[k + 1]) && Enabled(states[k], events[k]) &&
            states[k + 1] == Next(states[k], events[k])
    ensures RankStep(states[k], events[k], states[k + 1], id)
  {
    RunKeeps(states, events, k);
    RunKeeps(states, events, k + 1);
    assert Goes(states[k], events[k], states[k + 1]);
    StepRank(states[k], events[k], id);
  }

  lemma {:induction false} RankGrows(states: seq<State>, events: seq<Event>, i: nat, j: nat, id: nat)
    requires Run(states, events) && i <= j < |states|
    ensures Inv(states[i]) && Inv(states[j]) && Rank(states[i], id) <= Rank(states[j], id)
  {
    RunKeeps(states, events, i);
    RunKeeps(states, events, j);
    if i < j {
      RankGrows(states, events, i, j - 1, id);
      RunStep(states, events, j - 1, id);
    }
  }

  /** Step k takes request id from rank n to the next. */
  ghost predicate Raises(states: seq<State>, k: nat, id: nat, n: nat) {
    k + 1 < |states| && Sizes(states[k]) && Sizes(states[k + 1]) && Rank(states[k], id) == n &&
      Rank(states[k + 1], id) == n + 1
  }

  lemma {:induction false} RaisedBefore(states: seq<State>, events: seq<Event>, k: nat, id: nat, n: nat)
    returns (i: nat)
    requires Run(states, events) && k < |states| && Inv(states[k]) && n < Rank(states[k], id)
    ensures i < k && Raises(states, i, id, n)
  {
    RunStep(states, events, k - 1, id);
    if Rank(states[k - 1], id) == n {
      i := k - 1;
    } else {
      i := RaisedBefore(states, events, k - 1, id, n);
    }
  }

  lemma RaisedOnce(states: seq<State>, events: seq<Event>, i: nat, j: nat, id: nat, n: nat)
    requires Run(states, events) && Raises(states, i, id, n) && Raises(states, j, id, n)
    ensures i == j
  {
    if i < j { RankGrows(states, events, i + 1, j, id); }
    if j < i { RankGrows(states, events, j + 1, i, id); }
  }

  /** A request is raised to one rank before it is raised to a higher one. */
  lemma RaisedInOrder(states: seq<State>, events: seq<Event>, i: nat, j: nat, id: nat, m: nat, n: nat)
    requires Run(states, events) && Raises(states, i, id, m) && Raises(states, j, id, n) && m < n
    ensures i < j
  {
    if j <= i { RankGrows(states, events, j, i, id); }
  }

  /** Exactly one step of the run posts request id, one serves it and one reports it: p, i and j, in this order. */
  ghost predicate OnceEach(states: seq<State>, events: seq<Event>, id: nat, p: nat, i: nat, j: nat) {
    && |states| == |events| + 1 && p < i < j < |events|
    && (forall q: nat | q < |events| :: PostsId(states[q], events[q], id) <==> q == p)
    && (forall q: nat | q < |events| :: ServesId(states[q], events[q], id) <==> q == i)
    && (forall q: nat | q < |events| :: SeesId(states[q], events[q], id) <==> q == j)
  }

  lemma ReportedOnce(states: seq<State>, events: seq<Event>, k: nat, id: nat) returns (p: nat, i: nat, j: nat)
    requires Run(states, events) && k < |states| && Inv(states[k]) && Rank(states[k], id) == 3
    ensures j < k && OnceEach(states, events, id, p, i, j)
  {
    p := RaisedBefore(states, events, k, id, 0);
    i := RaisedBefore(states, events, k, id, 1);
    j := RaisedBefore(states, events, k, id, 2);
    RaisedInOrder(states, events, p, i, id, 0, 1);
    RaisedInOrder(states, events, i, j, id, 1, 2);
    forall q: nat | q < |events|
      ensures PostsId(states[q], events[q], id) <==> q == p
      ensures ServesId(states[q], events[q], id) <==> q == i
      ensures SeesId(states[q], events[q], id) <==> q == j
    {
      RunStep(states, events, q, id);
      if PostsId(states[q], events[q], id) { RaisedOnce(states, events, p, q, id, 0); }
      if ServesId(states[q], events[q], id) { RaisedOnce(states, events, i, q, id, 1); }
      if SeesId(states[q], events[q], id) { RaisedOnce(states, events, j, q, id, 2); }
    }
  }

  // ----- the block that is moved ------------------------------------------------------------------

  /** A step leaves the requests and what was posted as they are, and moves a block only for one that it serves. */
  lemma StepMoves(s: State, e: Event, id: nat)
    requires Inv(s) && Enabled(s, e)
    ensures s.h.requests <= Next(s, e).h.requests && s.h.posted <= Next(s, e).h.posted &&
            |s.h.moved| <= |Next(s, e).h.moved|
    ensures id < |s.h.moved| && s.h.moved[id] != None ==> Next(s, e).h.moved[id] == s.h.moved[id]
  {
    if e.Serves? { assert ChainOk(s, e.x); }
  }

  /** A block once moved stays the one recorded, and so does what was asked for and posted. */
  lemma {:induction false} HistoryStays(states: seq<State>, events: seq<Event>, i: nat, j: nat, id: nat)
    requires Run(states, events) && i <= j < |states|
    ensures states[i].h.requests <= states[j].h.requests && states[i].h.posted <= states[j].h.posted
    ensures |states[i].h.moved| <= |states[j].h.moved|
    ensures id < |states[i].h.moved| && states[i].h.moved[id] != None ==> states[j].h.moved[id] == states[i].h.moved[id]
  {
    if i < j {
      HistoryStays(states, events, i, j - 1, id);
      RunStep(states, events, j - 1, id);
      StepMoves(states[j - 1], events[j - 1], id);
    }
  }

  /** What posting request id records. */
  lemma PostRecords(s: State, e: Event, id: nat)
    requires Inv(s) && Enabled(s, e) && PostsId(s, e, id)
    ensures id < |Next(s, e).h.requests| == |Next(s, e).h.posted| && Next(s, e).h.requests[id] == e.r
    ensures e.r.b in s.data && Next(s, e).h.posted[id] == s.data[e.r.b]
  {
  }

  /** What serving it does: to the disk the block that was posted, or to the buffer the disk's. */
  lemma ServeMoves(s: State, e: Event, id: nat)
    requires Inv(s) && Enabled(s, e) && ServesId(s, e, id)
    ensures id < |s.h.requests| == |s.h.posted| && s.h.requests[id].block < |s.blocks|
    ensures var r := s.h.requests[id]; var t := Next(s, e);
            && id < |t.h.moved| && t.h.moved[id] == Some(if r.write then s.h.posted[id] else s.blocks[r.block])
            && t.blocks == if r.write then s.blocks[r.block := s.h.posted[id]] else s.blocks
  {
    assert ChainOk(s, e.x);
  }

  /** What reporting it does: the flag of its buffer is cleared, and no other. */
  lemma SeeClears(s: State, e: Event, id: nat)
    requires Inv(s) && Enabled(s, e) && SeesId(s, e, id)
    ensures id < |s.h.requests| && s.h.requests[id].b in s.busy && Next(s, e).busy == s.busy - {s.h.requests[id].b}
  {
    UsedHeadIsNext(s);
    assert ChainOk(s, s.h.done[0]);
  }

  lemma RetiredRank(s: State, x: nat)
    requires Inv(s) && x in s.h.chains && s.h.chains[x].phase == Seen
    ensures var id := s.h.chains[x].id;
            id < |s.h.requests| && Rank(s, id) == 3 && s.h.requests[id].b in s.data &&
              s.h.moved[id] == Some(s.data[s.h.requests[id].b])
  {
    assert ChainOk(s, x);
  }

  /**
   When virtio_disk_rw returns, exactly one step p of the run has posted its request, one later step i has
   served it and one later still, j, has reported it, clearing the flag of its buffer and no other.  A write
   has put on the disk what the buffer held at p, and holds still; a read has put in the buffer, which still
   holds it, what the disk held at i.
   */
  lemma Delivered(states: seq<State>, events: seq<Event>, k: nat) returns (p: nat, i: nat, j: nat)
    requires Run(states, events) && k < |events| && Enabled(states[k], events[k]) && events[k].Retires?
    ensures states[k].h.chains[events[k].x].id < |states[k].h.requests|
    ensures var id := states[k].h.chains[events[k].x].id; var r := states[k].h.requests[id];
            && j < k && OnceEach(states, events, id, p, i, j)
            && events[p].r == r && r.b in states[p].data && r.block < |states[i].blocks|
            && r.b in states[j].busy && states[j + 1].busy == states[j].busy - {r.b}
            && r.b in states[k].data && states[k].data[r.b] == (if r.write then states[p].data[r.b]
                else states[i].blocks[r.block])
            && (r.write ==> states[i + 1].blocks == states[i].blocks[r.block := states[p].data[r.b]])
  {
    RunKeeps(states, events, k);
    RetiredRank(states[k], events[k].x);
    var id := states[k].h.chains[events[k].x].id;
    p, i, j := ReportedOnce(states, events, k, id);
    Recorded(states, events, p, i, k, id);
    RunStep(states, events, j, id);
    SeeClears(states[j], events[j], id);
    HistoryStays(states, events, j, k, id);
  }

  /** What steps p and i, which post and serve request id, leave recorded at k. */
  lemma Recorded(states: seq<State>, events: seq<Event>, p: nat, i: nat, k: nat, id: nat)
    requires Run(states, events) && p < i < k < |events| && PostsId(states[p], events[p], id) &&
             ServesId(states[i], events[i], id)
    ensures id < |states[k].h.requests| && id < |states[k].h.moved| && states[k].h.requests[id] == events[p].r
    ensures var r := events[p].r;
            && r.b in states[p].data && r.block < |states[i].blocks|
            && states[k].h.moved[id] == Some(if r.write then states[p].data[r.b] else states[i].blocks[r.block])
            && (r.write ==> states[i + 1].blocks == states[i].blocks[r.block := states[p].data[r.b]])
  {
    RunStep(states, events, p, id);
    RunStep(states, events, i, id);
    PostRecords(states[p], events[p], id);
    ServeMoves(states[i], events[i], id);
    HistoryStays(states, events, p + 1, i, id);
    HistoryStays(states, events, i, i + 1, id);
    HistoryStays(states, events, i + 1, k, id);
  }

  /** At most two requests can be under way: three would need nine descriptors. */
  lemma TwoAtATime(s: State, x: nat, y: nat, z: nat)
    requires Inv(s) && x in s.h.chains && y in s.h.chains && z in s.h.chains
    ensures x == y || x == z || y == z
  {
    if x != y && x != z && y != z {
      var c, d, e := s.h.chains[x], s.h.chains[y], s.h.chains[z];
      assert ChainOk(s, x) && ChainOk(s, y) && ChainOk(s, z);
      var q := [x, c.mid, c.last, y, d.mid, d.last, z, e.mid, e.last];
      assert Distinct(q) && AllBelow(q, NUM);
      FitsRing(q, 0);
    }
  }

  /** A process asleep for descriptors is one that some unfinished request will wake. */
  lemma StarvedForAReason(s: State)
    requires Inv(s) && s.starved != {}
    ensures s.h.chains != map[]
  {
    if s.h.chains == map[] {
      assert DescOk(s, 0) && DescOk(s, 1) && DescOk(s, 2);
      assert AreFree(s.free, 0, 1, 2);
    }
  }

  /** The buffer of the request on chain x. */
  ghost function BufOf(h: History, x: nat): nat {
    if x in h.chains && h.chains[x].id < |h.requests| then h.requests[h.chains[x].id].b else 0
  }

  // ----- the class -----------------------------------------------------------------------

  class Driver {
    // the driver's, and what it shares with the device
    var free: seq<bool>
    var desc: seq<Desc>
    var ops: seq<Op>
    var info: seq<Info>
    var availRing: seq<nat>
    var availIdx: nat             // uint16, as the other indices
    var usedRing: seq<nat>
    var usedIdx: nat              // used->idx, written by the device
    var seenIdx: nat              // disk.used_idx
    var busy: set<nat>            // buffers with b->disk == 1
    var data: map<nat, Block>     // b->data
    var starved: set<nat>         // processes asleep on &disk.free[0]
    var waiting: set<nat>         // buffers on which virtio_disk_rw sleeps
    // the device's own
    var nextAvail: nat
    var blocks: seq<Block>        // two 512-byte sectors each
    ghost var h: History

    ghost function Now(): State
      reads this
    {
      State(free, desc, ops, info, availRing, availIdx, usedRing, usedIdx, seenIdx, nextAvail, busy, data, blocks,
            starved, waiting, h)
    }

    ghost predicate Valid()
      reads this
    {
      Inv(Now())
    }

    constructor (contents: seq<Block>, buffers: map<nat, Block>)
      requires |contents| <= 0x8000_0000
      ensures Valid() && h.chains == map[] && h.requests == [] && blocks == contents && data == buffers
    {
      free, desc := seq(NUM, i => true), seq(NUM, i => ZERO);
      ops, info := seq(NUM, i => Op(false, 0)), seq(NUM, i => Info(None, 0));
      availRing, usedRing := seq(NUM, i => 0), seq(NUM, i => 0);
      availIdx, usedIdx, seenIdx, nextAvail := 0, 0, 0, 0;
      busy, starved, waiting, data, blocks := {}, {}, {}, buffers, contents;
      h := History([], [], [], [], map[], seq(NUM, i => None), map[], [], [], 0, 0);
    }

    // ----- descriptors --------------------------------------------------------------

    method AllocDesc() returns (r: Option<nat>)
      requires |free| == NUM
      modifies `free
      ensures |free| == NUM
      ensures r == None ==> free == old(free) && forall x: nat | x < NUM :: !free[x]
      ensures r != None ==> r.value < NUM && old(free)[r.value] && free == old(free)[r.value := false]
      ensures r != None ==> forall x: nat | x < r.value :: !old(free)[x]
    {
      var i: nat := 0;
      while i < NUM
        invariant i <= NUM && free == old(free) && forall x: nat | x < i :: !free[x]
      {
        if free[i] {
          free := free[i := false];
          return Some(i);
        }
        i := i + 1;
      }
      r := None;
    }

    method FreeDesc(i: nat)
      requires |free| == |desc| == NUM
      requires i < NUM && !free[i]
      modifies `free, `desc, `starved
      ensures desc == old(desc)[i := ZERO] && free == old(free)[i := true] && starved == {}
    {
      desc := desc[i := ZERO];
      free := free[i := true];
      starved := {};
    }

    /** Three descriptors or none; none exactly if fewer than three are free. */
    method Alloc3() returns (idx: Option<(nat, nat, nat)>)
      requires |free| == |desc| == NUM && forall x: nat | x < NUM && free[x] :: desc[x] == ZERO
      modifies `free, `desc, `starved
      ensures desc == old(desc) && starved <= old(starved)
      ensures idx == None ==> free == old(free) && !ThreeFree(free)
      ensures idx != None ==> var (i, j, k) := idx.value; AreFree(old(free), i, j, k) && starved == old(starved)
                                                          && free == old(free)[i := false][j := false][k := false]
    {
      var got: seq<nat> := [];
      while |got| < 3
        invariant |got| <= 3 && Distinct(got) && FreeBut(free, old(free), got) && desc == old(desc) &&
                  starved == old(starved)
        invariant forall x: nat | x < |got| :: got[x] < NUM && old(free)[got[x]]
      {
        var i := AllocDesc();
        if i == None {
          GiveBack(got, old(free));
          NoThree(free, got);
          return None;
        }
        got := got + [i.value];
      }
      assert got == [got[0], got[1], got[2]];
      Taken3(free, old(free), got[0], got[1], got[2]);
      idx := Some((got[0], got[1], got[2]));
    }

    method GiveBack(got: seq<nat>, ghost was: seq<bool>)
      requires |free| == |desc| == NUM && FreeBut(free, was, got) && Distinct(got)
      requires forall x: nat | x < |got| :: got[x] < NUM && was[got[x]] && desc[got[x]] == ZERO
      modifies `free, `desc, `starved
      ensures free == was && desc == old(desc) && starved <= old(starved)
    {
      var j: nat := 0;
      while j < |got|
        invariant j <= |got| && FreeBut(free, was, got[j..]) && desc == old(desc) && starved <= old(starved)
      {
        FreeDesc(got[j]);
        j := j + 1;
      }
    }

    // ----- virtio_disk_rw --------------------------------------------------------------

    /** virtio_disk_rw() by process pid up to its first wait for the device: None if it sleeps for
        descriptors, else the head of the chain it posted. */
    method Submit(pid: nat, b: nat, block: nat, write: bool) returns (head: Option<nat>, ghost m: nat, ghost l: nat)
      requires Valid() && block < |blocks| && b in data && b !in h.holder
      modifies this
      ensures Valid()
      ensures head == None <==> !ThreeFree(old(free))
      ensures head == None ==> pid in starved && Now() == old(Now()).(starved := starved)
      ensures head != None ==> CanPost(old(Now()), Request(b, block, write), head.value, m, l)
      ensures head != None ==> Now() == Post(old(Now()), Request(b, block, write), head.value, m, l)
    {
      ghost var s := Now();
      FreeAreZero(s);
      var idx := Alloc3();
      if idx == None {
        starved := starved + {pid};
        StarvedKeeps(s, starved);
        return None, 0, 0;
      }
      var (i, j, k) := idx.value;
      ghost var t := PostOf(s, Request(b, block, write), i, j, k);
      Format(b, block, write, i, j, k);
      h := t.h;
      return Some(i), j, k;
    }

    /** The descriptors are filled in and their head put in the avail ring. */
    method Format(b: nat, block: nat, write: bool, i: nat, m: nat, l: nat)
      requires |desc| == |ops| == |info| == |availRing| == NUM && i < NUM && m < NUM && l < NUM && i != m && i != l &&
               m != l
      requires block < 0x8000_0000 && availIdx == (h.nTaken + |h.pending|) % U16
      modifies `ops, `desc, `info, `busy, `availRing, `availIdx
      ensures ops == old(ops)[i := Op(write, block * 2)] && info == old(info)[i := Info(Some(b), 0xff)] &&
              busy == old(busy) + {b}
      ensures desc == old(desc)[i := Desc(Command(i), 16, true, false, m)][m := Desc(Contents(b), BSIZE, true, !write,
              l)]
                               [l := Desc(Status(i), 1, false, true, 0)]
      ensures availRing == old(availRing)[(h.nTaken + |h.pending|) % NUM := i] &&
              availIdx == (h.nTaken + |h.pending| + 1) % U16
    {
      ops := ops[i := Op(write, block * 2 % 0x1_0000_0000)];
      desc := desc[i := Desc(Command(i), 16, true, false, m)];
      desc := desc[m := Desc(Contents(b), BSIZE, true, !write, l)];
      info := info[i := info[i].(status := 0xff)];
      desc := desc[l := Desc(Status(i), 1, false, true, 0)];
      busy := busy + {b};
      info := info[i := info[i].(b := Some(b))];
      IndexWraps(h.nTaken + |h.pending|);
      availRing := availRing[availIdx % NUM := i];
      availIdx := (availIdx + 1) % U16;
    }

    /** virtio_disk_rw() from when it looks at b->disk: it sleeps again, or frees its chain and returns. */
    method Finish(head: nat) returns (over: bool)
      requires Valid() && head in h.chains
      modifies this
      ensures Valid() && (over <==> old(h.chains[head]).phase == Seen)
      ensures over ==> Now() == Retire(old(Now()), head)
      ensures !over ==> Now() == old(Now()).(waiting := old(waiting) + {BufOf(old(h), head)})
    {
      ghost var s := Now();
      BusyUntilSeen(s, head);
      var b := info[head].b.value;
      if b in busy {
        waiting := waiting + {b};
        WaitingKeeps(s, b);
        return false;
      }
      ghost var t, c := RetireOf(s, head);
      info := info[head := info[head].(b := None)];
      FreeChain(head, c.mid, c.last);
      h := t.h;
      over := true;
    }

    /** Follows the chain from its first descriptor, and frees exactly its three. */
    method FreeChain(head: nat, ghost m: nat, ghost l: nat)
      requires |free| == |desc| == NUM && head < NUM && m < NUM && l < NUM && head != m && head != l && m != l
      requires !free[head] && !free[m] && !free[l]
      requires desc[head].hasNext && desc[head].next == m && desc[m].hasNext && desc[m].next == l && !desc[l].hasNext
      modifies `free, `desc, `starved
      ensures free == old(free)[head := true][m := true][l := true]
      ensures desc == old(desc)[head := ZERO][m := ZERO][l := ZERO] && starved == {}
    {
      var i := head;
      ghost var left := 3;
      while true
        invariant 1 <= left <= 3 && i == (if left == 3 then head else if left == 2 then m else l)
        invariant free == (if left == 3 then old(free) else if left == 2 then old(free)[head := true]
                           else old(free)[head := true][m := true])
        invariant desc == (if left == 3 then old(desc) else if left == 2 then old(desc)[head := ZERO]
                           else old(desc)[head := ZERO][m := ZERO])
        decreases left
      {
        var flag, nxt := desc[i].hasNext, desc[i].next;
        FreeDesc(i);
        if !flag { break; }
        i := nxt;
        left := left - 1;
      }
    }

    // ----- the device --------------------------------------------------------------------

    /** The device takes the next request, if there is one. */
    method DeviceFetch() returns (head: Option<nat>)
      requires Valid()
      modifies `nextAvail, `h
      ensures Valid() && (head == None <==> old(h).pending == [])
      ensures head == None ==> h == old(h) && nextAvail == old(nextAvail)
      ensures head != None ==> head.value == old(h).pending[0] && head.value in old(h).chains &&
                               Now() == Fetch(old(Now()))
    {
      ghost var s := Now();
      FitsRing(h.pending, 0);
      IndexTells(h.nTaken, |h.pending|);
      if nextAvail == availIdx { return None; }
      FetchKeeps(s);
      RingNext(availRing, nextAvail, availIdx, h.nTaken, h.pending);
      IndexWraps(h.nTaken);
      head := Some(availRing[nextAvail % NUM]);
      nextAvail := (nextAvail + 1) % U16;
      h := Fetch(s).h;
    }

    /** The device carries out a request that it has taken: what the descriptors tell it to do is what
        virtio_disk_rw was asked for. */
    method DeviceServe(head: nat)
      requires Valid() && head in h.chains && h.chains[head].phase == Taken
      modifies `info, `data, `blocks, `usedRing, `usedIdx, `h
      ensures Valid() && Now() == Serve(old(Now()), head)
    {
      ghost var t, r := ServeOf(Now(), head);
      Transfer(head, r);
      h := t.h;
    }

    /** The transfer, as the descriptors from head on describe it. */
    method Transfer(head: nat, ghost r: Request)
      requires |desc| == |ops| == |info| == |usedRing| == NUM && head < NUM && desc[head].addr == Command(head) &&
               desc[head].next < NUM
      requires var d := desc[desc[head].next];
               d.addr == Contents(r.b) && d.next < NUM && desc[d.next].addr == Status(head)
      requires ops[head] == Op(r.write, r.block * 2) && r.b in data && r.block < |blocks|
      requires usedIdx == (h.nSeen + |h.done|) % U16
      modifies `info, `data, `blocks, `usedRing, `usedIdx
      ensures data == if r.write then old(data) else old(data)[r.b := old(blocks)[r.block]]
      ensures blocks == if r.write then old(blocks)[r.block := old(data)[r.b]] else old(blocks)
      ensures info == old(info)[head := old(info)[head].(status := 0)]
      ensures usedRing == old(usedRing)[(h.nSeen + |h.done|) % NUM := head] && usedIdx == (h.nSeen + |h.done| + 1) % U16
    {
      var op := ops[desc[head].addr.i];
      var d1 := desc[desc[head].next];
      var d2 := desc[d1.next];
      var b, block := d1.addr.b, op.sector / 2;
      if op.write {
        blocks := blocks[block := data[b]];
      } else {
        data := data[b := blocks[block]];
      }
      info := info[d2.addr.i := info[d2.addr.i].(status := 0)];
      IndexWraps(h.nSeen + |h.done|);
      usedRing := usedRing[usedIdx % NUM := head];
      usedIdx := (usedIdx + 1) % U16;
    }

    // ----- virtio_disk_intr --------------------------------------------------------------

    /** Reports every request in the used ring, each once; the status is never an error. */
    method Intr()
      requires Valid()
      modifies `seenIdx, `busy, `waiting, `h
      ensures Valid() && h.done == [] && Reports(old(Now()), Now())
      ensures forall x <- h.chains :: x in old(h.chains) && h.chains[x] == Reported(old(h.chains)[x])
    {
      ghost var s := Now();
      ReportsNone(s);
      while seenIdx != usedIdx
        invariant Valid() && Reports(s, Now())
        decreases |h.done|
      {
        ghost var t := Now();
        IntrOne();
        ReportsMore(s, t);
      }
      FitsRing(h.done, 0);
      IndexTells(h.nSeen, |h.done|);
      forall x | x in h.chains ensures x in s.h.chains && h.chains[x] == Reported(s.h.chains[x]) {
        ReportsAll(s, Now(), x);
      }
    }

    method IntrOne()
      requires Valid() && seenIdx != usedIdx
      modifies `seenIdx, `busy, `waiting, `h
      ensures Valid() && old(h).done != [] && Now() == See(old(Now()))
    {
      ghost var s := Now();
      NextUsed(s);
      SeeKeeps(s);
      IndexWraps(h.nSeen);
      var id := usedRing[seenIdx % NUM];
      assert info[id].status == 0;      // else panic
      var b := info[id].b.value;
      busy := busy - {b};
      waiting := waiting - {b};
      seenIdx := (seenIdx + 1) % U16;
      h := See(s).h;
    }
  }
}
