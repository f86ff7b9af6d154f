/**
 The user-level allocator: free() and malloc() on a circular free list kept in address order,
 where a freed block is merged with the free blocks on either side of it.

 Addresses and sizes are in header units.  What sbrk() returns is a parameter.
 */
module Malloc {
  import opened Common

  const HEADER: nat := 16              // sizeof(Header)
  const NALLOC: nat := 4096            // least number of units morecore() asks for
  const LIMIT: nat := 0x1_0000_0000    // sizes are 32-bit: the heap ends below this unit

  // ----- blocks tile the units obtained from sbrk ------------------------------

  /** Unit u belongs to the block that owner says. */
  predicate UnitOk(blocks: set<nat>, size: map<nat, nat>, owner: map<nat, nat>, u: nat) {
    u in owner ==> owner[u] in blocks && owner[u] in size && owner[u] <= u < owner[u] + size[owner[u]]
  }

  /** Block b owns unit u, if u is in its extent. */
  predicate BlockOk(blocks: set<nat>, size: map<nat, nat>, owner: map<nat, nat>, b: nat, u: nat) {
    b in blocks ==> b in size && size[b] > 0 && (b <= u < b + size[b] ==> u in owner && owner[u] == b)
  }

  /** The extents of the blocks are exactly the units that have an owner, each once. */
  ghost predicate Tiles(blocks: set<nat>, size: map<nat, nat>, owner: map<nat, nat>) {
    && (forall u: nat :: UnitOk(blocks, size, owner, u))
    && (forall b: nat, u: nat :: BlockOk(blocks, size, owner, b, u))
  }

  ghost function Reassign(owner: map<nat, nat>, x: nat, y: nat): (r: map<nat, nat>) {
    map u | u in owner :: if owner[u] == x then y else owner[u]
  }

  lemma BlocksDisjoint(blocks: set<nat>, size: map<nat, nat>, owner: map<nat, nat>, a: nat, b: nat)
    requires Tiles(blocks, size, owner) && a in blocks && b in blocks && a < b
    ensures a in size && a + size[a] <= b
  {
    assert BlockOk(blocks, size, owner, a, b) && BlockOk(blocks, size, owner, b, b);
  }

  lemma MergeTiles(blocks: set<nat>, size: map<nat, nat>, owner: map<nat, nat>, x: nat, y: nat)
    requires Tiles(blocks, size, owner) && x in blocks && y in blocks && x in size && y in size && x != y &&
             x + size[x] == y
    ensures Tiles(blocks - {y}, size[x := size[x] + size[y]], Reassign(owner, y, x))
  {
    var bs, sz, ow := blocks - {y}, size[x := size[x] + size[y]], Reassign(owner, y, x);
    assert BlockOk(blocks, size, owner, x, x) && BlockOk(blocks, size, owner, y, y);
    forall u: nat ensures UnitOk(bs, sz, ow, u) {
      assert UnitOk(blocks, size, owner, u);
    }
    forall b: nat, u: nat ensures BlockOk(bs, sz, ow, b, u) {
      assert BlockOk(blocks, size, owner, b, u) && BlockOk(blocks, size, owner, y, u);
    }
  }

  ghost function SplitOwner(owner: map<nat, nat>, x: nat, y: nat): (r: map<nat, nat>) {
    map u | u in owner :: if owner[u] == x && u >= y then y else owner[u]
  }

  /** The tail of block x, from y on, becomes a block of its own. */
  lemma SplitTiles(blocks: set<nat>, size: map<nat, nat>, owner: map<nat, nat>, x: nat, y: nat, m: nat)
    requires Tiles(blocks, size, owner) && x in blocks && x in size && 0 < m < size[x] && y == x + size[x] - m
    ensures y !in blocks && Tiles(blocks + {y}, size[x := size[x] - m][y := m], SplitOwner(owner, x, y))
  {
    var bs, sz, ow := blocks + {y}, size[x := size[x] - m][y := m], SplitOwner(owner, x, y);
    assert BlockOk(blocks, size, owner, x, y) && BlockOk(blocks, size, owner, y, y);
    forall u: nat ensures UnitOk(bs, sz, ow, u) {
      assert UnitOk(blocks, size, owner, u);
    }
    forall b: nat, u: nat ensures BlockOk(bs, sz, ow, b, u) {
      assert BlockOk(blocks, size, owner, b, u) && BlockOk(blocks, size, owner, x, u);
    }
  }

  /** The units of a block. */
  lemma {:induction false} Extent(a: nat, n: nat) returns (r: set<nat>)
    ensures |r| == n && forall u: nat :: u in r <==> a <= u < a + n
  {
    if n == 0 {
      r := {};
    } else {
      r := Extent(a, n - 1);
      r := r + {a + n - 1};
    }
  }

  lemma GrowTiles(blocks: set<nat>, size: map<nat, nat>, owner: map<nat, nat>, h: nat, n: nat, e: set<nat>)
    requires Tiles(blocks, size, owner) && n > 0 && e !! owner.Keys
    requires forall u: nat :: u in e <==> h <= u < h + n
    ensures h !in blocks && Tiles(blocks + {h}, size[h := n], owner + map u | u in e :: h)
  {
    var bs, sz, ow := blocks + {h}, size[h := n], owner + map u | u in e :: h;
    assert h in e && BlockOk(blocks, size, owner, h, h);
    forall u: nat ensures UnitOk(bs, sz, ow, u) {
      assert UnitOk(blocks, size, owner, u);
    }
    forall b: nat, u: nat ensures BlockOk(bs, sz, ow, b, u) {
      assert BlockOk(blocks, size, owner, b, u);
    }
  }

  /** The sizes of the blocks below top, added up. */
  ghost function Total(blocks: set<nat>, size: map<nat, nat>, top: nat): (n: nat)
  {
    if top == 0 then 0 else Total(blocks, size, top - 1) + if top - 1 in blocks && top - 1 in size then size[top - 1]
      else 0
  }

  ghost function OwnedBelow(owner: map<nat, nat>, top: nat): (r: set<nat>) { set u | u in owner && owner[u] < top }

  lemma DisjointSize(x: set<nat>, y: set<nat>, z: set<nat>)
    requires x !! y && z == x + y
    ensures |z| == |x| + |y|
  {
  }

  lemma OneMoreBlock(blocks: set<nat>, size: map<nat, nat>, owner: map<nat, nat>, b: nat, e: set<nat>)
    requires Tiles(blocks, size, owner) && b in blocks && b in size && forall u: nat :: u in e <==> b <= u < b + size[b]
    ensures OwnedBelow(owner, b) !! e && OwnedBelow(owner, b + 1) == OwnedBelow(owner, b) + e
  {
    forall u: nat
      ensures u in e ==> u in owner && owner[u] == b
      ensures u in OwnedBelow(owner, b + 1) <==> u in OwnedBelow(owner, b) || u in e
    {
      assert UnitOk(blocks, size, owner, u) && BlockOk(blocks, size, owner, b, u);
    }
  }

  lemma NoMoreBlock(blocks: set<nat>, size: map<nat, nat>, owner: map<nat, nat>, b: nat)
    requires Tiles(blocks, size, owner) && b !in blocks
    ensures OwnedBelow(owner, b + 1) == OwnedBelow(owner, b)
  {
    forall u: nat ensures u in OwnedBelow(owner, b + 1) <==> u in OwnedBelow(owner, b) {
      assert UnitOk(blocks, size, owner, u);
    }
  }

  lemma BlockAdds(blocks: set<nat>, size: map<nat, nat>, owner: map<nat, nat>, b: nat)
    requires Tiles(blocks, size, owner)
    ensures |OwnedBelow(owner, b + 1)| == |OwnedBelow(owner, b)| + if b in blocks && b in size then size[b] else 0
  {
    if b in blocks {
      assert BlockOk(blocks, size, owner, b, b);
      var e := Extent(b, size[b]);
      OneMoreBlock(blocks, size, owner, b, e);
      DisjointSize(OwnedBelow(owner, b), e, OwnedBelow(owner, b + 1));
    } else {
      NoMoreBlock(blocks, size, owner, b);
    }
  }

  lemma {:induction false} OwnedTotal(blocks: set<nat>, size: map<nat, nat>, owner: map<nat, nat>, top: nat)
    requires Tiles(blocks, size, owner)
    ensures |OwnedBelow(owner, top)| == Total(blocks, size, top)
  {
    if top == 0 {
      assert OwnedBelow(owner, 0) == {};
    } else {
      OwnedTotal(blocks, size, owner, top - 1);
      BlockAdds(blocks, size, owner, top - 1);
    }
  }

  /** The units obtained from sbrk are those of the blocks, free or live. */
  lemma UnitsConserved(blocks: set<nat>, size: map<nat, nat>, owner: map<nat, nat>, top: nat)
    requires Tiles(blocks, size, owner) && forall b | b in blocks :: b < top
    ensures |owner| == Total(blocks, size, top)
  {
    OwnedTotal(blocks, size, owner, top);
    forall u: nat ensures u in owner ==> u in OwnedBelow(owner, top) {
      assert UnitOk(blocks, size, owner, u);
    }
    assert OwnedBelow(owner, top) == owner.Keys;
  }

  // ----- the free list ------------------------------------------------------------

  function Succ(i: nat, n: nat): (j: nat) { if i + 1 < n then i + 1 else 0 }

  /** How many steps lead from index i to index j around a ring of n. */
  function Ahead(i: nat, j: nat, n: nat): (d: int) { if i <= j then j - i else j + n - i }

  predicate LinkOk(order: seq<nat>, ptr: map<nat, nat>, i: nat) {
    i < |order| ==> order[i] in ptr && ptr[order[i]] == order[Succ(i, |order|)]
  }

  /** ptr links the blocks of order into a ring. */
  ghost predicate Linked(order: seq<nat>, ptr: map<nat, nat>) { forall i: nat :: LinkOk(order, ptr, i) }

  predicate PairOk(order: seq<nat>, size: map<nat, nat>, lo: nat, hi: nat, i: nat, j: nat) {
    && (i < |order| ==> order[i] in size)
    && (i < j < |order| ==>
          && order[i] < order[j] && order[i] + size[order[i]] <= order[j]
          && (order[i] + size[order[i]] == order[j] ==> j == i + 1 && lo <= i < hi))
  }

  /** The blocks are in address order and disjoint, and only those at lo..hi may touch the next one. */
  ghost predicate Spaced(order: seq<nat>, size: map<nat, nat>, lo: nat, hi: nat) {
    forall i: nat, j: nat :: PairOk(order, size, lo, hi, i, j)
  }

  ghost predicate Rising(order: seq<nat>) { forall i: nat, j: nat | i < j < |order| :: order[i] < order[j] }

  lemma SameIndex(order: seq<nat>, size: map<nat, nat>, i: nat, j: nat)
    requires Spaced(order, size, 0, 0) && i < |order| && j < |order| && order[i] == order[j]
    ensures i == j
  {
    assert PairOk(order, size, 0, 0, i, j) && PairOk(order, size, 0, 0, j, i);
  }

  lemma SpacedRises(order: seq<nat>, size: map<nat, nat>, lo: nat, hi: nat)
    requires Spaced(order, size, lo, hi)
    ensures Rising(order)
  {
    forall i: nat, j: nat | i < j < |order| ensures order[i] < order[j] {
      assert PairOk(order, size, lo, hi, i, j);
    }
  }

  ghost predicate List(base: nat, order: seq<nat>, ptr: map<nat, nat>, size: map<nat, nat>, lo: nat, hi: nat) {
    && |order| > 0 && order[0] == base
    && Linked(order, ptr) && Spaced(order, size, lo, hi) && base in size && size[base] == 0
  }

  ghost function Inserted(order: seq<nat>, k: nat, b: nat): (r: seq<nat>)
    requires k < |order|
  {
    order[..k + 1] + [b] + order[k + 1..]
  }

  ghost function Removed(order: seq<nat>, k: nat): (r: seq<nat>)
    requires k < |order|
  {
    order[..k] + order[k + 1..]
  }

  lemma InsertLinked(order: seq<nat>, ptr: map<nat, nat>, k: nat, b: nat)
    requires Linked(order, ptr) && Rising(order) && k < |order| && b !in order && order[k] in ptr
    ensures Linked(Inserted(order, k, b), ptr[b := ptr[order[k]]][order[k] := b])
  {
    var r, t := Inserted(order, k, b), ptr[b := ptr[order[k]]][order[k] := b];
    assert LinkOk(order, ptr, k);
    forall i: nat ensures LinkOk(r, t, i) {
      if i < k {
        assert LinkOk(order, ptr, i);
      } else if i > k + 1 {
        assert LinkOk(order, ptr, i - 1);
      }
    }
  }

  lemma RemoveLinked(order: seq<nat>, ptr: map<nat, nat>, k: nat)
    requires Linked(order, ptr) && Rising(order) && k + 1 < |order| && order[k + 1] in ptr
    ensures Linked(Removed(order, k + 1), ptr[order[k] := ptr[order[k + 1]]])
  {
    var r, t := Removed(order, k + 1), ptr[order[k] := ptr[order[k + 1]]];
    assert LinkOk(order, ptr, k + 1);
    forall i: nat ensures LinkOk(r, t, i) {
      if i < k {
        assert LinkOk(order, ptr, i);
      } else if i > k {
        assert LinkOk(order, ptr, i + 1);
      }
    }
  }

  lemma InsertSpaced(order: seq<nat>, size: map<nat, nat>, k: nat, b: nat)
    requires Spaced(order, size, 0, 0) && k < |order| && b in size && size[b] > 0 && order[k] in size
    requires order[k] < b && order[k] + size[order[k]] <= b && (k + 1 < |order| ==> b + size[b] <= order[k + 1])
    ensures Spaced(Inserted(order, k, b), size, k, k + 2)
  {
    var r, hi := Inserted(order, k, b), k + 2;
    forall i: nat, j: nat ensures PairOk(r, size, k, hi, i, j) {
      var x := if i <= k then i else i - 1;
      var y := if j <= k then j else j - 1;
      assert PairOk(order, size, 0, 0, x, y) && PairOk(order, size, 0, 0, x, k) && PairOk(order, size, 0, 0, k + 1, y);
    }
  }

  lemma MergeSpaced(order: seq<nat>, size: map<nat, nat>, lo: nat, i: nat)
    requires lo <= i && i + 1 < |order| && Spaced(order, size, lo, i + 1) && order[i] in size && order[i + 1] in size
    requires order[i] + size[order[i]] == order[i + 1]
    ensures Spaced(Removed(order, i + 1), size[order[i] := size[order[i]] + size[order[i + 1]]], lo, i)
  {
    var r, t := Removed(order, i + 1), size[order[i] := size[order[i]] + size[order[i + 1]]];
    SpacedRises(order, size, lo, i + 1);
    forall x: nat, y: nat ensures PairOk(r, t, lo, i, x, y) {
      var u := if x <= i then x else x + 1;
      var v := if y <= i then y else y + 1;
      assert PairOk(order, size, lo, i + 1, u, v) && PairOk(order, size, lo, i + 1, i + 1, v);
    }
  }

  /** blocks are the live ones and the free ones, all above base. */
  ghost predicate Blocks(base: nat, order: seq<nat>, size: map<nat, nat>, live: map<nat, nat>, blocks: set<nat>) {
    forall a: nat :: MemberOk(base, order, size, live, blocks, a)
  }

  ghost predicate MemberOk(base: nat, order: seq<nat>, size: map<nat, nat>, live: map<nat, nat>, blocks: set<nat>,
                           a: nat) {
    && (a in blocks <==> a in live || (a in order && a != base))
    && (a in live ==> a !in order && a in size && size[a] == live[a])
    && (a in blocks ==> base < a && a in size && a + size[a] <= LIMIT)
  }

  ghost predicate Ok(base: nat, order: seq<nat>, ptr: map<nat, nat>, size: map<nat, nat>, live: map<nat, nat>,
                     blocks: set<nat>, owner: map<nat, nat>, lo: nat, hi: nat) {
    List(base, order, ptr, size, lo, hi) && Blocks(base, order, size, live, blocks) && Tiles(blocks, size, owner)
  }

  lemma InsertBlocks(base: nat, order: seq<nat>, size: map<nat, nat>, live: map<nat, nat>, blocks: set<nat>, k: nat,
                     b: nat)
    requires Blocks(base, order, size, live, blocks) && b in live && k < |order|
    ensures Blocks(base, Inserted(order, k, b), size, live - {b}, blocks)
  {
    assert order == order[..k + 1] + order[k + 1..];
    assert MemberOk(base, order, size, live, blocks, b);
    forall a: nat ensures MemberOk(base, Inserted(order, k, b), size, live - {b}, blocks, a) {
      assert MemberOk(base, order, size, live, blocks, a);
    }
  }

  lemma RemovedMembers(order: seq<nat>, k: nat, a: nat)
    requires k < |order| && Rising(order)
    ensures a in Removed(order, k) <==> a in order && a != order[k]
  {
    assert order == order[..k] + [order[k]] + order[k + 1..];
  }

  lemma MergeBlocks(base: nat, order: seq<nat>, size: map<nat, nat>, live: map<nat, nat>, blocks: set<nat>, i: nat,
                    n: nat)
    requires Blocks(base, order, size, live, blocks) && i + 1 < |order| && order[0] == base && Rising(order)
    requires order[i] != base ==> order[i] + n <= LIMIT
    ensures Blocks(base, Removed(order, i + 1), size[order[i] := n], live, blocks - {order[i + 1]})
  {
    var x, y := order[i], order[i + 1];
    assert x in order && y in order;
    var rest, sz, bs := Removed(order, i + 1), size[x := n], blocks - {y};
    forall a: nat ensures MemberOk(base, rest, sz, live, bs, a) {
      RemovedMembers(order, i + 1, a);
      assert MemberOk(base, order, size, live, blocks, a);
    }
  }

  lemma InsertOk(base: nat, order: seq<nat>, ptr: map<nat, nat>, size: map<nat, nat>, live: map<nat, nat>,
                 blocks: set<nat>, owner: map<nat, nat>, k: nat, b: nat)
    requires Ok(base, order, ptr, size, live, blocks, owner, 0, 0) && b in live && k < |order| && order[k] in ptr
    requires order[k] < b && (k + 1 < |order| ==> b < order[k + 1])
    ensures Ok(base, Inserted(order, k, b), ptr[b := ptr[order[k]]][order[k] := b], size, live - {b}, blocks, owner, k,
               k + 2)
    ensures ptr[order[k]] == if k + 1 < |order| then order[k + 1] else base
  {
    SpacedRises(order, size, 0, 0);
    assert LinkOk(order, ptr, k) && PairOk(order, size, 0, 0, k, k);
    assert BlockOk(blocks, size, owner, b, b) && MemberOk(base, order, size, live, blocks, b);
    if k > 0 {
      assert MemberOk(base, order, size, live, blocks, order[k]);
      BlocksDisjoint(blocks, size, owner, order[k], b);
    }
    if k + 1 < |order| {
      assert MemberOk(base, order, size, live, blocks, order[k + 1]);
      BlocksDisjoint(blocks, size, owner, b, order[k + 1]);
    }
    assert Succ(k, |order|) == if k + 1 < |order| then k + 1 else 0;
    InsertSpaced(order, size, k, b);
    InsertLinked(order, ptr, k, b);
    InsertBlocks(base, order, size, live, blocks, k, b);
  }

  lemma ApartOk(base: nat, order: seq<nat>, ptr: map<nat, nat>, size: map<nat, nat>, live: map<nat, nat>,
                blocks: set<nat>, owner: map<nat, nat>, lo: nat, i: nat)
    requires lo <= i < |order| && Ok(base, order, ptr, size, live, blocks, owner, lo, i + 1) && order[i] in size
    requires i + 1 < |order| ==> order[i] + size[order[i]] != order[i + 1]
    ensures Ok(base, order, ptr, size, live, blocks, owner, lo, i)
  {
    forall x: nat, y: nat ensures PairOk(order, size, lo, i, x, y) {
      assert PairOk(order, size, lo, i + 1, x, y);
    }
  }

  /** No two blocks of the list touch. */
  lemma TightOk(base: nat, order: seq<nat>, ptr: map<nat, nat>, size: map<nat, nat>, live: map<nat, nat>,
                blocks: set<nat>, owner: map<nat, nat>, k: nat)
    requires Ok(base, order, ptr, size, live, blocks, owner, k, k)
    ensures Ok(base, order, ptr, size, live, blocks, owner, 0, 0)
  {
    forall x: nat, y: nat ensures PairOk(order, size, 0, 0, x, y) {
      assert PairOk(order, size, k, k, x, y);
    }
  }

  lemma MergeOk(base: nat, order: seq<nat>, ptr: map<nat, nat>, size: map<nat, nat>, live: map<nat, nat>,
                blocks: set<nat>, owner: map<nat, nat>, lo: nat, i: nat)
    requires lo <= i && i + 1 < |order| && Ok(base, order, ptr, size, live, blocks, owner, lo, i + 1)
    requires order[i] in size && order[i + 1] in size && order[i + 1] in ptr &&
             order[i] + size[order[i]] == order[i + 1]
    ensures Ok(base, Removed(order, i + 1), ptr[order[i] := ptr[order[i + 1]]],
               size[order[i] := size[order[i]] + size[order[i + 1]]],
               live, blocks - {order[i + 1]}, Reassign(owner, order[i + 1], order[i]), lo, i)
  {
    var x, y := order[i], order[i + 1];
    assert MemberOk(base, order, size, live, blocks, x) && MemberOk(base, order, size, live, blocks, y);
    SpacedRises(order, size, lo, i + 1);
    assert order[0] == base && base < y;
    MergeSpaced(order, size, lo, i);
    RemoveLinked(order, ptr, i);
    MergeBlocks(base, order, size, live, blocks, i, size[x] + size[y]);
    MergeTiles(blocks, size, owner, x, y);
  }

  lemma ReplaceNext(order: seq<nat>, k: nat, b: nat)
    requires k + 1 < |order|
    ensures Removed(Inserted(order, k, b), k + 2) == order[k + 1 := b]
    ensures Inserted(order, k, b)[k] == order[k] && Inserted(order, k, b)[k + 1] == b &&
            Inserted(order, k, b)[k + 2] == order[k + 1]
  {
  }

  lemma RelinkNext(ptr: map<nat, nat>, a: nat, b: nat, x: nat, y: nat)
    requires a != b
    ensures ptr[b := x][a := b][b := y] == ptr[b := y][a := b]
  {
  }

  /** b becomes free, and takes in the free block right after it. */
  lemma JoinNextOk(base: nat, order: seq<nat>, ptr: map<nat, nat>, size: map<nat, nat>, live: map<nat, nat>,
                   blocks: set<nat>, owner: map<nat, nat>, k: nat, b: nat)
    requires Ok(base, order, ptr, size, live, blocks, owner, 0, 0) && b in live && k + 1 < |order|
    requires order[k] < b < order[k + 1] && b in size && b + size[b] == order[k + 1]
    requires order[k + 1] in size && order[k + 1] in ptr && order[k] in ptr
    ensures Ok(base, order[k + 1 := b], ptr[b := ptr[order[k + 1]]][order[k] := b],
               size[b := size[b] + size[order[k + 1]]],
               live - {b}, blocks - {order[k + 1]}, Reassign(owner, order[k + 1], b), k, k + 1)
  {
    var next, one, two := order[k + 1], Inserted(order, k, b), ptr[b := ptr[order[k]]][order[k] := b];
    InsertOk(base, order, ptr, size, live, blocks, owner, k, b);
    ReplaceNext(order, k, b);
    assert two[next] == ptr[next];
    MergeOk(base, one, two, size, live - {b}, blocks, owner, k, k + 1);
    RelinkNext(ptr, order[k], b, ptr[order[k]], ptr[next]);
  }

  lemma RemoveSpaced(order: seq<nat>, size: map<nat, nat>, i: nat)
    requires Spaced(order, size, 0, 0) && i < |order|
    ensures Spaced(Removed(order, i), size, 0, 0)
  {
    var r := Removed(order, i);
    forall x: nat, y: nat ensures PairOk(r, size, 0, 0, x, y) {
      assert PairOk(order, size, 0, 0, if x < i then x else x + 1, if y < i then y else y + 1);
    }
  }

  /** A block that shrinks keeps its distance. */
  lemma ShrinkSpaced(order: seq<nat>, size: map<nat, nat>, small: map<nat, nat>)
    requires Spaced(order, size, 0, 0)
    requires forall a: nat | a in order && a in size :: a in small && small[a] <= size[a]
    ensures Spaced(order, small, 0, 0)
  {
    forall x: nat, y: nat ensures PairOk(order, small, 0, 0, x, y) {
      assert PairOk(order, size, 0, 0, x, y);
    }
  }

  /** malloc() takes a whole free block off the list. */
  lemma UnlinkOk(base: nat, order: seq<nat>, ptr: map<nat, nat>, size: map<nat, nat>, live: map<nat, nat>,
                 blocks: set<nat>, owner: map<nat, nat>, i: nat)
    requires Ok(base, order, ptr, size, live, blocks, owner, 0, 0) && 0 < i < |order| && order[i] in size &&
             order[i] in ptr
    ensures order[i] !in live
    ensures Ok(base, Removed(order, i), ptr[order[i - 1] := ptr[order[i]]], size, live[order[i] := size[order[i]]],
               blocks, owner, 0, 0)
  {
    var p, rest := order[i], Removed(order, i);
    SpacedRises(order, size, 0, 0);
    RemoveSpaced(order, size, i);
    RemoveLinked(order, ptr, i - 1);
    assert MemberOk(base, order, size, live, blocks, p);
    var lv := live[p := size[p]];
    forall a: nat ensures MemberOk(base, rest, size, lv, blocks, a) {
      RemovedMembers(order, i, a);
      assert MemberOk(base, order, size, live, blocks, a);
    }
  }

  /** malloc() takes the tail of a free block. */
  lemma CarveOk(base: nat, order: seq<nat>, ptr: map<nat, nat>, size: map<nat, nat>, live: map<nat, nat>,
                blocks: set<nat>, owner: map<nat, nat>, i: nat, y: nat, m: nat)
    requires Ok(base, order, ptr, size, live, blocks, owner, 0, 0) && i < |order| && order[i] in size
    requires 0 < m < size[order[i]] && y == order[i] + size[order[i]] - m
    ensures y !in live
    ensures Ok(base, order, ptr, size[order[i] := size[order[i]] - m][y := m], live[y := m],
               blocks + {y}, SplitOwner(owner, order[i], y), 0, 0)
  {
    var p := order[i];
    assert MemberOk(base, order, size, live, blocks, p) && MemberOk(base, order, size, live, blocks, y);
    SplitTiles(blocks, size, owner, p, y, m);
    assert y !in order;
    var sz, lv, bs := size[p := size[p] - m][y := m], live[y := m], blocks + {y};
    ShrinkSpaced(order, size, sz);
    forall a: nat ensures MemberOk(base, order, sz, lv, bs, a) {
      assert MemberOk(base, order, size, live, blocks, a);
    }
  }

  /** A fresh region from sbrk, handed out whole. */
  lemma GrowOk(base: nat, order: seq<nat>, ptr: map<nat, nat>, size: map<nat, nat>, live: map<nat, nat>,
               blocks: set<nat>, owner: map<nat, nat>, h: nat, n: nat, e: set<nat>)
    requires Ok(base, order, ptr, size, live, blocks, owner, 0, 0) && base < h && n > 0 && h + n <= LIMIT
    requires e !! owner.Keys && forall u: nat :: u in e <==> h <= u < h + n
    ensures h !in live && h !in order
    ensures Ok(base, order, ptr, size[h := n], live[h := n], blocks + {h}, owner + map u | u in e :: h, 0, 0)
  {
    assert MemberOk(base, order, size, live, blocks, h);
    GrowTiles(blocks, size, owner, h, n, e);
    assert order[0] in order && h !in order;
    ShrinkSpaced(order, size, size[h := n]);
    var sz, lv, bs := size[h := n], live[h := n], blocks + {h};
    forall a: nat ensures MemberOk(base, order, sz, lv, bs, a) {
      assert MemberOk(base, order, size, live, blocks, a);
    }
  }

  /** The n units from b on lie within one free block. */
  ghost predicate InFree(order: seq<nat>, size: map<nat, nat>, b: nat, n: nat) {
    exists i: nat | i < |order| :: Covers(order, size, i, b, n)
  }

  predicate Big(order: seq<nat>, size: map<nat, nat>, j: nat, n: nat)
    requires j < |order|
  {
    order[j] in size && size[order[j]] >= n
  }

  predicate Covers(order: seq<nat>, size: map<nat, nat>, i: nat, b: nat, n: nat)
    requires i < |order|
  {
    order[i] in size && order[i] <= b && b + n <= order[i] + size[order[i]]
  }

  /** The block of order that comes before b. */
  lemma {:induction false} Gap(order: seq<nat>, b: nat) returns (k: nat)
    requires |order| > 0 && order[0] < b && b !in order && Rising(order)
    ensures k < |order| && order[k] < b && (k + 1 < |order| ==> b < order[k + 1])
  {
    if order[|order| - 1] < b {
      k := |order| - 1;
    } else {
      k := Gap(order[..|order| - 1], b);
    }
  }

  /** The search of malloc() is past index h; what it looks for, if anywhere, is on the way to index f. */
  ghost predicate Search(order: seq<nat>, size: map<nat, nat>, f: nat, h: nat, n: nat) {
    && f < |order| && h < |order|
    && forall j: nat | j < |order| && Big(order, size, j, n) ::
         Ahead(Succ(h, |order|), j, |order|) <= Ahead(Succ(h, |order|), f, |order|)
  }

  lemma StartSearch(order: seq<nat>, size: map<nat, nat>, f: nat, n: nat)
    requires f < |order|
    ensures Search(order, size, f, f, n)
  {
  }

  lemma NextSearch(order: seq<nat>, size: map<nat, nat>, f: nat, h: nat, n: nat)
    requires Search(order, size, f, h, n) && Succ(h, |order|) != f && !Big(order, size, Succ(h, |order|), n)
    ensures Search(order, size, f, Succ(h, |order|), n)
    ensures Ahead(Succ(Succ(h, |order|), |order|), f, |order|) < Ahead(Succ(h, |order|), f, |order|)
  {
  }

  lemma EndSearch(order: seq<nat>, size: map<nat, nat>, f: nat, h: nat, n: nat)
    requires Search(order, size, f, h, n) && Succ(h, |order|) == f && !Big(order, size, f, n)
    ensures forall j: nat | j < |order| :: !Big(order, size, j, n)
  {
  }

  /** The units with an owner have become those of before and the n from h on. */
  ghost predicate Grown(before: map<nat, nat>, after: map<nat, nat>, h: nat, n: nat) {
    forall u: nat :: u in after <==> u in before || h <= u < h + n
  }

  const NULL: nat := 0

  /** The units of a request: whole headers, and one for the header itself. */
  function Units(nbytes: nat): (n: nat)
    ensures n > 0 && nbytes <= (n - 1) * HEADER < nbytes + HEADER
  {
    (nbytes + HEADER - 1) / HEADER + 1
  }

  function CoreUnits(nu: nat): (n: nat) { if nu < NALLOC then NALLOC else nu }

  /** sbrk() fails or returns n fresh units above the static data, below the limit; and its
      argument, a signed int, can hold their size in bytes. */
  predicate SbrkOk(base: nat, have: set<nat>, n: nat, brk: Option<nat>) {
    && n * HEADER < 0x8000_0000
    && (brk.Some? ==> base < brk.value && brk.value + n <= LIMIT && forall u | u in have ::
        !(brk.value <= u < brk.value + n))
  }

  class Heap {
    const base: nat              // &base
    var freep: nat
    var ptr: map<nat, nat>       // s.ptr of every header
    var size: map<nat, nat>      // s.size of every header

    ghost var order: seq<nat>        // the free list, from base
    ghost var live: map<nat, nat>    // blocks handed out and not freed, with their sizes
    ghost var blocks: set<nat>
    ghost var owner: map<nat, nat>   // the block of each unit obtained from sbrk

    ghost predicate Valid()
      reads this
    {
      base > 0 &&
      if freep == NULL then order == [] && live == map[] && blocks == {} && owner == map[]
      else freep in order && Ok(base, order, ptr, size, live, blocks, owner, 0, 0)
    }

    constructor (base: nat)
      requires base > 0
      ensures Valid() && freep == NULL
    {
      this.base, freep, ptr, size := base, NULL, map[], map[];
      order, live, blocks, owner := [], map[], {}, map[];
    }

    /** The loop of free(): the free block after which bp belongs. */
    method FindGap(bp: nat) returns (p: nat, ghost k: nat)
      requires freep in order && List(base, order, ptr, size, 0, 0) && base < bp && bp !in order
      ensures k < |order| && p == order[k] && base <= p < bp && (k + 1 < |order| ==> bp < order[k + 1])
    {
      SpacedRises(order, size, 0, 0);
      k := Gap(order, bp);
      p := freep;
      ghost var i: nat :| i < |order| && order[i] == p;
      while !(bp > p && bp < ptr[p])
        invariant i < |order| && p == order[i] && LinkOk(order, ptr, i)
        decreases Ahead(i, k, |order|)
      {
        if p >= ptr[p] && (bp > p || bp < ptr[p]) { break; }
        p := ptr[p];
        i := Succ(i, |order|);
      }
      assert i == k;
    }

    ghost predicate Consistent(ptr: map<nat, nat>, lo: nat, hi: nat)
      reads this
    {
      Ok(base, order, ptr, size, live, blocks, owner, lo, hi)
    }

    /** The first half of free(): bp becomes free, and is merged with the block after it. */
    method AttachRight(bp: nat, p: nat, ghost k: nat)
      requires Consistent(ptr, 0, 0) && bp in live
      requires k < |order| && p == order[k] && p < bp && (k + 1 < |order| ==> bp < order[k + 1])
      modifies this`ptr, this`size, this`order, this`live, this`blocks, this`owner
      ensures Consistent(ptr[p := bp], k, k + 1)
      ensures k + 1 < |order| && order[k] == p && order[k + 1] == bp && bp in ptr && bp in size
      ensures live == old(live) - {bp} && owner.Keys == old(owner.Keys) && size[bp] >= old(live)[bp]
    {
      assert MemberOk(base, order, size, live, blocks, bp);
      assert LinkOk(order, ptr, k) && LinkOk(order, ptr, k + 1) && PairOk(order, size, 0, 0, k + 1, k + 1);
      InsertOk(base, order, ptr, size, live, blocks, owner, k, bp);
      if bp + size[bp] == ptr[p] {
        JoinNextOk(base, order, ptr, size, live, blocks, owner, k, bp);
        order, live, blocks, owner := order[k + 1 := bp], live - {bp}, blocks - {ptr[p]}, Reassign(owner, ptr[p], bp);
        size := size[bp := size[bp] + size[ptr[p]]];
        ptr := ptr[bp := ptr[ptr[p]]];
      } else {
        ApartOk(base, Inserted(order, k, bp), ptr[bp := ptr[p]][p := bp], size, live - {bp}, blocks, owner, k, k + 1);
        order, live := Inserted(order, k, bp), live - {bp};
        ptr := ptr[bp := ptr[p]];
      }
    }

    /** The second half: bp is merged into p, the block before it, or linked after it. */
    method AttachLeft(bp: nat, p: nat, ghost k: nat)
      requires Consistent(ptr[p := bp], k, k + 1)
      requires k + 1 < |order| && order[k] == p && order[k + 1] == bp && p != bp && bp in ptr && bp in size
      modifies this`ptr, this`size, this`order, this`blocks, this`owner
      ensures Consistent(ptr, 0, 0) && p in order
      ensures owner.Keys == old(owner.Keys) && InFree(order, size, bp, old(size)[bp])
    {
      assert PairOk(order, size, k, k + 1, k, k) && PairOk(order, size, k, k + 1, k + 1, k + 1);
      if p + size[p] == bp {
        MergeOk(base, order, ptr[p := bp], size, live, blocks, owner, k, k);
        assert ptr[p := bp][p := ptr[bp]] == ptr[p := ptr[bp]];
        order, blocks, owner := Removed(order, k + 1), blocks - {bp}, Reassign(owner, bp, p);
        size := size[p := size[p] + size[bp]];
        ptr := ptr[p := ptr[bp]];
        TightOk(base, order, ptr, size, live, blocks, owner, k);
        assert Covers(order, size, k, bp, old(size)[bp]);
      } else {
        ApartOk(base, order, ptr[p := bp], size, live, blocks, owner, k, k);
        ptr := ptr[p := bp];
        TightOk(base, order, ptr, size, live, blocks, owner, k);
        assert Covers(order, size, k + 1, bp, old(size)[bp]);
      }
    }

    /** free(). */
    method Free(ap: nat)
      requires Valid() && ap > 0 && ap - 1 in live
      modifies this
      ensures Valid() && freep != NULL
      ensures live == old(live) - {ap - 1} && owner.Keys == old(owner.Keys)
      ensures InFree(order, size, ap - 1, old(live)[ap - 1])
    {
      var bp := ap - 1;
      assert MemberOk(base, order, size, live, blocks, bp);
      var p, k := FindGap(bp);
      AttachRight(bp, p, k);
      ghost var n := size[bp];
      AttachLeft(bp, p, k);
      freep := p;
      ghost var i: nat :| i < |order| && Covers(order, size, i, bp, n);
      assert Covers(order, size, i, bp, old(live)[bp]);
    }

    /** The region that sbrk() returned becomes one block, as if it had been handed out. */
    method Adopt(hp: nat, n: nat)
      requires Valid() && freep != NULL && n > 0 && SbrkOk(base, owner.Keys, n, Some(hp))
      modifies this`size, this`live, this`blocks, this`owner
      ensures Valid() && hp !in old(live) && live == old(live)[hp := n]
      ensures Grown(old(owner), owner, hp, n)
    {
      ghost var e := Extent(hp, n);
      GrowOk(base, order, ptr, size, live, blocks, owner, hp, n, e);
      size := size[hp := n];
      live, blocks, owner := live[hp := n], blocks + {hp}, owner + map u | u in e :: hp;
    }

    /** morecore(), where sbrk() returns brk. */
    method MoreCore(nu: nat, brk: Option<nat>) returns (r: nat)
      requires Valid() && freep != NULL && SbrkOk(base, owner.Keys, CoreUnits(nu), brk)
      modifies this
      ensures Valid() && freep != NULL
      ensures brk.None? ==> r == NULL && unchanged(this)
      ensures brk.Some? ==> r == freep && live == old(live) && InFree(order, size, brk.value, CoreUnits(nu))
      ensures brk.Some? ==> Grown(old(owner), owner, brk.value, CoreUnits(nu))
    {
      var n := if nu < NALLOC then NALLOC else nu;
      if brk.None? { return NULL; }
      var hp := brk.value;
      Adopt(hp, n);
      assert live - {hp} == old(live);
      Free(hp + 1);
      r := freep;
    }

    /** malloc() takes nunits from the free block p, which follows prevp: all of it, or its tail. */
    method Take(p: nat, prevp: nat, nunits: nat, ghost i: nat) returns (a: nat)
      requires Valid() && freep != NULL && 0 < i < |order| && p == order[i] && prevp == order[i - 1]
      requires p in size && 0 < nunits <= size[p]
      modifies this
      ensures Valid() && freep == prevp
      ensures a !in old(live) && live == old(live)[a := nunits] && owner.Keys == old(owner.Keys)
      ensures p <= a && a + nunits == p + old(size)[p]
    {
      assert LinkOk(order, ptr, i) && PairOk(order, size, 0, 0, 0, i - 1) && prevp >= base;
      if size[p] == nunits {
        UnlinkOk(base, order, ptr, size, live, blocks, owner, i);
        assert Removed(order, i)[i - 1] == prevp;
        order, live := Removed(order, i), live[p := nunits];
        ptr := ptr[prevp := ptr[p]];
        a := p;
      } else {
        CarveOk(base, order, ptr, size, live, blocks, owner, i, p + size[p] - nunits, nunits);
        a := p + size[p] - nunits;
        live, blocks, owner := live[a := nunits], blocks + {a}, SplitOwner(owner, p, a);
        size := size[p := size[p] - nunits];
        size := size[a := nunits];
      }
      freep := prevp;
    }

    /** The first call of malloc() starts the free list with base alone. */
    method Initialize()
      requires Valid()
      modifies this
      ensures Valid() && freep != NULL && live == old(live) && owner == old(owner)
      ensures if old(freep) == NULL then order == [base] && size[base] == 0
              else order == old(order) && size == old(size) && freep == old(freep)
    {
      if freep == NULL {
        ptr, size := ptr[base := base], size[base := 0];
        freep := base;
        order := [base];
        forall i: nat ensures LinkOk(order, ptr, i) {}
        forall i: nat, j: nat ensures PairOk(order, size, 0, 0, i, j) {}
        forall a: nat ensures MemberOk(base, order, size, live, blocks, a) {}
        forall u: nat ensures UnitOk(blocks, size, owner, u) {}
        forall b: nat, u: nat ensures BlockOk(blocks, size, owner, b, u) {}
      }
    }

    /** Some free block of the list holds n units. */
    ghost predicate Enough(n: nat)
      reads this
    {
      exists j: nat | j < |order| :: Big(order, size, j, n)
    }

    lemma FreepIndex() returns (f: nat)
      requires Valid() && freep != NULL
      ensures f < |order| && order[f] == freep && LinkOk(order, ptr, f)
    {
      f :| f < |order| && order[f] == freep;
      assert LinkOk(order, ptr, f);
    }

    lemma GrewEnough(nunits: nat, hp: nat)
      requires InFree(order, size, hp, CoreUnits(nunits))
      ensures Enough(nunits)
    {
      var j: nat :| j < |order| && Covers(order, size, j, hp, CoreUnits(nunits));
      assert Big(order, size, j, nunits);
    }

    /** malloc(), where sbrk(), if it is called, returns brk. */
    method Alloc(nbytes: nat, brk: Option<nat>) returns (r: nat)
      requires Valid() && SbrkOk(base, owner.Keys, CoreUnits(Units(nbytes)), brk)
      modifies this
      ensures Valid()
      ensures r == NULL ==> brk.None? && !old(Enough(Units(nbytes))) && live == old(live) && owner == old(owner)
      ensures r != NULL ==> r - 1 !in old(live) && live == old(live)[r - 1 := Units(nbytes)]
      ensures r != NULL && old(Enough(Units(nbytes))) ==> owner.Keys == old(owner.Keys)
      ensures r != NULL && !old(Enough(Units(nbytes))) ==>
              brk.Some? && Grown(old(owner), owner, brk.value, CoreUnits(Units(nbytes)))
    {
      var nunits := (nbytes + HEADER - 1) / HEADER + 1;
      Initialize();
      ghost var had := Enough(nunits);
      ghost var f := FreepIndex();
      var prevp := freep;
      var p := ptr[prevp];
      ghost var h, grown := f, false;
      StartSearch(order, size, f, nunits);
      while true
        invariant Valid() && freep != NULL && live == old(live)
        invariant Search(order, size, f, h, nunits) && freep == order[f] && prevp == order[h] &&
                  p == order[Succ(h, |order|)]
        invariant !grown ==> owner == old(owner) && had == Enough(nunits)
        invariant grown ==> !had && Enough(nunits) && brk.Some? && Grown(old(owner), owner, brk.value,
                  CoreUnits(nunits))
        decreases !grown, Ahead(Succ(h, |order|), f, |order|)
      {
        assert LinkOk(order, ptr, Succ(h, |order|)) && PairOk(order, size, 0, 0, Succ(h, |order|), 0);
        if size[p] >= nunits {
          assert Big(order, size, Succ(h, |order|), nunits);
          p := Take(p, prevp, nunits, Succ(h, |order|));
          return p + 1;
        }
        if p == freep {
          SameIndex(order, size, f, Succ(h, |order|));
          EndSearch(order, size, f, h, nunits);
          p := MoreCore(nunits, brk);
          if p == NULL { return NULL; }
          f := FreepIndex();
          h, grown := f, true;
          StartSearch(order, size, f, nunits);
          GrewEnough(nunits, brk.value);
        } else {
          NextSearch(order, size, f, h, nunits);
          h := Succ(h, |order|);
        }
        prevp := p;
        p := ptr[p];
      }
    }

    /** The free list is a ring in address order whose blocks never touch. */
    lemma RingInOrder()
      requires Valid() && freep != NULL
      ensures |order| > 0 && order[0] == base && freep in order
      ensures forall i: nat | i < |order| :: order[i] in ptr && ptr[order[i]] == order[Succ(i, |order|)]
      ensures forall i: nat, j: nat | i < j < |order| :: order[i] in size && order[i] + size[order[i]] < order[j]
    {
      forall i: nat | i < |order| ensures order[i] in ptr && ptr[order[i]] == order[Succ(i, |order|)] {
        assert LinkOk(order, ptr, i);
      }
      forall i: nat, j: nat | i < j < |order| ensures order[i] in size && order[i] + size[order[i]] < order[j] {
        assert PairOk(order, size, 0, 0, i, j);
      }
    }

    /** Live blocks overlap neither each other nor a free block, and keep their size. */
    lemma LiveApart(a: nat, b: nat)
      requires Valid() && freep != NULL && a in live && (b in live || (b in order && b != base)) && a != b
      ensures a in size && b in size && size[a] == live[a] && base < a
      ensures a + size[a] <= b || b + size[b] <= a
    {
      assert MemberOk(base, order, size, live, blocks, a) && MemberOk(base, order, size, live, blocks, b);
      if a < b {
        BlocksDisjoint(blocks, size, owner, a, b);
      } else {
        BlocksDisjoint(blocks, size, owner, b, a);
      }
    }

    /** Free and live units add up to the units obtained from sbrk(). */
    lemma Conserved(top: nat)
      requires Valid() && freep != NULL && top >= LIMIT
      ensures |owner| == Total(blocks, size, top)
      ensures forall a: nat :: a in blocks <==> a in live || (a in order && a != base)
    {
      forall a: nat ensures a in blocks ==> a < top ensures a in blocks <==> a in live || (a in order && a != base) {
        assert MemberOk(base, order, size, live, blocks, a) && BlockOk(blocks, size, owner, a, a);
      }
      UnitsConserved(blocks, size, owner, top);
    }
  }
}
