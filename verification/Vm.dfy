/**
 The page allocator, and what the kernel does with page tables: walk, mappages, uvmunmap, uvmalloc,
 uvmdealloc, freewalk, uvmfree, uvmcopy, the memory side of fork, copyin, copyout and copyinstr.
 */
module VirtualMemory {
  import opened PageTable

  class Vm {
    const lo: nat                      // the pages that kalloc() manages
    const hi: nat
    var tab: Tables                    // every page, as a table
    var dat: Bytes                     // every page, as bytes
    var free: seq<nat>                 // kmem.freelist
    ghost var owner: Owners
    ghost var roots: set<nat>

    ghost predicate Valid()
      reads this
    {
      Ok(lo, hi, tab, roots, owner, free) && (forall q | lo <= q < hi :: q in dat && |dat[q]| == PGSIZE)
    }

    /** kinit(): all the pages from lo to hi go to the free list. */
    constructor (lo: nat, hi: nat)
      requires 0 < lo <= hi
      ensures Valid() && this.lo == lo && this.hi == hi && roots == {} && |free| == hi - lo
      ensures forall i: nat | i < |free| :: free[i] == hi - 1 - i
    {
      this.lo, this.hi, free, roots := lo, hi, [], {};
      var pages := PagesBetween(lo, hi);
      tab := map q | q in pages :: ZeroTable();
      dat := map q | q in pages :: ZeroPage();
      owner := map q | q in pages :: Held;
      new;
      FreeRange();
    }

    method FreeRange()
      requires Valid() && lo <= hi && free == [] && roots == {} && forall q: nat | lo <= q < hi ::
               q in owner && owner[q] == Held
      modifies this
      ensures Valid() && roots == {} && |free| == hi - lo
      ensures forall i: nat | i < |free| :: free[i] == hi - 1 - i
    {
      var p := lo;
      while p + 1 <= hi
        invariant lo <= p <= hi && Valid() && roots == {} && |free| == p - lo
        invariant forall q: nat | p <= q < hi :: q in owner && owner[q] == Held
        invariant forall i: nat | i < |free| :: free[i] == p - 1 - i
      {
        KFree(p);
        p := p + 1;
      }
    }

    /** After any calls: every page is in exactly one place, and in one entry if it is a table or user memory; and
        their numbers add up. */
    lemma PagesPartitioned()
      requires Valid() && lo <= hi
      ensures forall q: nat | lo <= q < hi :: InOnePlace(tab, roots, owner, free, q)
      ensures forall s, t, q: nat | Points(tab, roots, s, q) && Points(tab, roots, t, q) :: s == t && lo <= q < hi
      ensures |free| + |roots| + |TablePages(lo, hi, tab, roots)| + |UserPages(lo, hi, tab, roots)| +
              |HeldPages(lo, hi, owner)| == hi - lo
    {
      forall q: nat | lo <= q < hi ensures InOnePlace(tab, roots, owner, free, q) {
        OnePlace(lo, hi, tab, roots, owner, free, q);
      }
      forall s, t, q: nat | Points(tab, roots, s, q) && Points(tab, roots, t, q) ensures s == t && lo <= q < hi {
        OnePointer(lo, hi, tab, roots, owner, free, s, t, q);
      }
      PagesAddUp(lo, hi, tab, roots, owner, free);
    }

    /** kalloc(): a page, filled with junk; 0 if there is none. */
    method KAlloc() returns (q: nat)
      requires Valid()
      modifies this
      ensures Valid() && roots == old(roots)
      ensures q == 0 <==> old(free) == []
      ensures q == 0 ==> unchanged(this)
      ensures q != 0 ==> q in old(owner) && old(owner)[q] == Free && owner == old(owner)[q := Held] &&
                         free == old(free)[1..]
      ensures q != 0 ==> Same(old(tab), tab, roots) && OnlyPage(old(dat), dat, q)
    {
      if free == [] { return 0; }
      q := free[0];
      AllocOk(lo, hi, tab, roots, owner, free);
      free := free[1..];
      owner := owner[q := Held];
      assert PageOk(lo, hi, tab, roots, owner, free, q);
      Fill(q, 5);
    }

    /** memset() of a page that is not a table. */
    method Fill(q: nat, x: Byte)
      requires Valid() && lo <= q < hi && NoTable(owner, q)
      modifies this`tab, this`dat
      ensures Valid() && Same(old(tab), tab, roots) && OnlyPage(old(dat), dat, q)
      ensures q in dat && |dat[q]| == PGSIZE && forall i | 0 <= i < PGSIZE :: dat[q][i] == x
    {
      assert PageOk(lo, hi, tab, roots, owner, free, q);
      var row := seq(ENTRIES, i => 0x0101_0101_0101_0101 * x);
      UnreadOk(lo, hi, tab, roots, owner, free, q, row);
      tab := tab[q := row];
      dat := dat[q := seq(PGSIZE, i => x)];
    }

    /** kfree(): the page is overwritten and put at the head of the free list. */
    method KFreeRaw(q: nat)
      modifies this`tab, this`dat, this`free
      ensures q in tab && |tab[q]| == ENTRIES && q in dat && |dat[q]| == PGSIZE
      ensures tab == old(tab)[q := tab[q]] && dat == old(dat)[q := dat[q]] && free == [q] + old(free)
    {
      tab := tab[q := seq(ENTRIES, i => 0x0101_0101_0101_0101)];
      dat := dat[q := seq(PGSIZE, i => 1)];
      free := [q] + free;
    }

    /** kfree() of a page that is held. */
    method KFree(q: nat)
      requires Valid() && q in owner && owner[q] == Held
      modifies this
      ensures Valid() && roots == old(roots)
      ensures owner == old(owner)[q := Free] && free == [q] + old(free) && Same(old(tab), tab, roots) &&
              OnlyPage(old(dat), dat, q)
    {
      assert PageOk(lo, hi, tab, roots, owner, free, q);
      KFreeRaw(q);
      UnreadOk(lo, hi, old(tab), roots, owner, old(free), q, tab[q]);
      ReleaseOk(lo, hi, tab, roots, owner, old(free), q);
      owner := owner[q := Free];
    }

    /** One level of walk(): the table that entry s of table p points to, made if alloc is set. */
    method WalkDown(p: nat, i: nat, alloc: bool, ghost s: Slot) returns (next: nat)
      requires Valid() && IsSlot(roots, s) && (s.Mid? || s.Low?) && p == Node(tab, Parent(s)) != 0 && i == Index(s)
      modifies this
      ensures Valid() && roots == old(roots) && next == Node(tab, s)
      ensures next == 0 ==> unchanged(this) && !(alloc && free != [])
      ensures |free| <= |old(free)| <= |free| + 1
      ensures !alloc ==> unchanged(this)
      ensures Frame(old(tab), tab, old(dat), dat, old(owner), owner, roots, s.r, 0, 0)
    {
      TableAt(lo, hi, tab, roots, owner, free, Parent(s));
      assert SlotOk(lo, hi, tab, roots, owner, s);
      var pte := tab[p][i];
      if Present(pte) {
        next := Target(pte);
      } else {
        if !alloc { return 0; }
        next := KAlloc();
        if next == 0 { return 0; }
        SameNode(old(tab), tab, roots, Parent(s));
        assert SameAt(old(tab), tab, s);
        AttachTable(lo, hi, tab, roots, owner, free, s, next);
        tab := Put(tab[next := ZeroTable()], p, i, MakePte(next, 0));
        owner := owner[next := By(s)];
      }
    }

    /** walk(): the level-0 table for page v, made if alloc is set; 0 if it is missing. */
    method Walk(root: nat, v: nat, alloc: bool) returns (p: nat)
      requires Valid() && root in roots && v < VPNS
      modifies this
      ensures Valid() && roots == old(roots) && p == Node(tab, Parent(Leaf(root, v)))
      ensures p == 0 && alloc ==> free == []
      ensures |free| <= |old(free)| <= |free| + (if p == 0 then 1 else 2)
      ensures !alloc ==> unchanged(this)
      ensures Frame(old(tab), tab, old(dat), dat, old(owner), owner, roots, root, 0, 0)
    {
      p := root;
      assert SlotOk(lo, hi, tab, roots, owner, Root(root));
      ghost var s := Root(root);
      var level := 2;
      while level > 0
        invariant 0 <= level <= 2 && Valid() && roots == old(roots) && p == Node(tab, s) != 0
        invariant s == if level == 2 then Root(root) else if level == 1 then Mid(root, v / 262144)
                  else Parent(Leaf(root, v))
        invariant Frame(old(tab), tab, old(dat), dat, old(owner), owner, roots, root, 0, 0)
        invariant (!alloc ==> unchanged(this)) && |free| <= |old(free)| <= |free| + (2 - level)
      {
        var i := if level == 2 then v / 262144 else v / 512 % 512;
        s := if level == 2 then Mid(root, i) else Low(root, v / 262144, i);
        ghost var t1, d1, o1 := tab, dat, owner;
        p := WalkDown(p, i, alloc, s);
        FrameTwice(old(tab), t1, tab, old(dat), d1, dat, old(owner), o1, owner, roots, root, 0, 0);
        if p == 0 {
          assert Node(tab, Parent(Leaf(root, v))) == 0;
          return 0;
        }
        level := level - 1;
      }
    }

    /** mappages() of one page. */
    method MapPage(root: nat, v: nat, q: nat, perm: nat) returns (r: int)
      requires Valid() && root in roots && v < VPNS && perm < 1024 && perm % 2 == 0 && Maps(perm) &&
               (v < TRAPFRAME || !User(perm))
      requires !Present(Entry(tab, Leaf(root, v))) && (q in owner ==> owner[q] == Held) &&
               (v < TRAPFRAME ==> q in owner)
      modifies this
      ensures Valid() && roots == old(roots) && (r == 0 || r == -1)
      ensures BytesBut(old(dat), dat, old(owner), root, 0, 0)
      ensures r == -1 ==> free == [] && Frame(old(tab), tab, old(dat), dat, old(owner), owner, roots, root, 0, 0)
      ensures r == 0 ==> MapState(old(tab), tab, old(dat), dat, old(owner), owner, roots, root, v, 1, q, perm)
      ensures |free| <= |old(free)| <= |free| + (if r == 0 then 2 else 1)
    {
      ghost var s := Leaf(root, v);
      var p := Walk(root, v, true);
      if p == 0 { return -1; }
      MapOne(lo, hi, old(tab), tab, old(dat), dat, old(owner), owner, roots, free, root, v, q, perm);
      tab := Put(tab, p, v % 512, MakePte(q, perm));
      owner := if v < TRAPFRAME then owner[q := By(s)] else owner;
      r := 0;
    }

    /** mappages() of n pages, to the pages from q on; m of them are mapped when it fails. */
    method MapPages(root: nat, v: nat, n: nat, q: nat, perm: nat) returns (r: int, ghost m: nat)
      requires Valid() && root in roots && 0 < n && v + n <= VPNS && perm < 1024 && perm % 2 == 0 && Maps(perm) &&
               (v + n <= TRAPFRAME || !User(perm))
      requires forall k: nat | k < n :: ReadyAt(tab, owner, root, v, q, k)
      modifies this
      ensures Valid() && roots == old(roots) && (if r == 0 then m == n else r == -1 && m < n && free == [])
      ensures MapState(old(tab), tab, old(dat), dat, old(owner), owner, roots, root, v, m, q, perm)
      ensures |free| <= |old(free)| <= |free| + 2 * m + (if r == 0 then 0 else 1)
    {
      var k: nat := 0;
      assert Lent(owner, q, 0) == owner;
      while k < n
        invariant k <= n && Valid() && roots == old(roots) && |free| <= |old(free)| <= |free| + 2 * k
        invariant MapState(old(tab), tab, old(dat), dat, old(owner), owner, roots, root, v, k, q, perm)
      {
        StillReady(old(tab), tab, old(dat), dat, old(owner), owner, roots, root, v, k, q, perm);
        r := MapNext(root, v, k, q, perm, old(tab), old(dat), old(owner));
        if r != 0 { return -1, k; }
        k := k + 1;
      }
      return 0, k;
    }

    /** One round of the loop, which has come from tables t0, bytes d0 and owners o0. */
    method MapNext(root: nat, v: nat, k: nat, q: nat, perm: nat, ghost t0: Tables, ghost d0: Bytes, ghost o0: Owners)
      returns (r: int)
      requires Valid() && root in roots && v + k < VPNS && perm < 1024 && perm % 2 == 0 && Maps(perm) &&
               (v + k < TRAPFRAME || !User(perm))
      requires ReadyAt(tab, owner, root, v, q, k) && MapState(t0, tab, d0, dat, o0, owner, roots, root, v, k, q, perm)
      modifies this
      ensures Valid() && roots == old(roots) && (r == 0 || (r == -1 && free == []))
      ensures r == 0 ==> MapState(t0, tab, d0, dat, o0, owner, roots, root, v, k + 1, q, perm)
      ensures r != 0 ==> MapState(t0, tab, d0, dat, o0, owner, roots, root, v, k, q, perm)
      ensures |free| <= |old(free)| <= |free| + (if r == 0 then 2 else 1)
    {
      ghost var t1, d1, o1 := tab, dat, owner;
      r := MapPage(root, v + k, q + k, perm);
      if r != 0 {
        MapFails(t0, t1, tab, d0, d1, dat, o0, o1, owner, roots, root, v, k, q, perm);
      } else {
        MapGoesOn(t0, t1, tab, d0, d1, dat, o0, o1, owner, roots, root, v, k, q, perm);
      }
    }

    /** uvmunmap() of one page.  The entry is cleared before its page is freed: nothing looks at it in between. */
    method UnmapPage(root: nat, v: nat, doFree: bool)
      requires Valid() && root in roots && v < VPNS && Present(Entry(tab, Leaf(root, v))) && (doFree ==> v < TRAPFRAME)
      modifies this
      ensures Valid() && roots == old(roots) && !Present(Entry(tab, Leaf(root, v)))
      ensures LeavesBut(old(tab), tab, roots, root, v, 1)
      ensures doFree || TRAPFRAME <= v ==> Frame(old(tab), tab, old(dat), dat, old(owner), owner, roots, root, v, 1)
      ensures !doFree ==> dat == old(dat) && Withheld(old(owner), owner, root, v, 1)
      ensures free == (if doFree then [Target(old(Entry(tab, Leaf(root, v))))] else []) + old(free)
    {
      ghost var s := Leaf(root, v);
      var p := Walk(root, v, false);
      LeafPut(lo, hi, tab, roots, owner, free, s, 0);
      var pte := tab[p][v % 512];
      ghost var tab' := Put(tab, p, v % 512, 0);
      DetachOk(lo, hi, tab, roots, owner, free, tab', s);
      LeafCleared(tab, tab', roots, root, v);
      WithheldOne(lo, hi, tab, roots, owner, free, root, v);
      tab := Put(tab, p, v % 512, 0);
      if v < TRAPFRAME { owner := owner[Target(pte) := Held]; }
      if doFree {
        ghost var t1 := tab;
        KFree(Target(pte));
        LeavesAgain(old(tab), t1, tab, roots, root, v);
        assert SameAt(t1, tab, s);
      }
      if doFree || TRAPFRAME <= v {
        forall q | q in old(owner) ensures HandsAt(old(owner), owner, root, v, 1, q) {}
      }
    }

    /** uvmunmap() of n pages, which are mapped.  User memory is freed if asked to, and else left to the caller. */
    method UvmUnmap(root: nat, v: nat, n: nat, doFree: bool)
      requires Valid() && root in roots && v + n <= VPNS && (doFree ==> v + n <= TRAPFRAME)
      requires forall x: nat | v <= x < v + n :: Present(Entry(tab, Leaf(root, x)))
      modifies this
      ensures Valid() && roots == old(roots) && forall x: nat | v <= x < v + n :: !Present(Entry(tab, Leaf(root, x)))
      ensures |free| == |old(free)| + if doFree then n else 0
      ensures LeavesBut(old(tab), tab, roots, root, v, n)
      ensures doFree || TRAPFRAME <= v ==> Frame(old(tab), tab, old(dat), dat, old(owner), owner, roots, root, v, n)
      ensures !doFree ==> dat == old(dat) && Withheld(old(owner), owner, root, v, n)
    {
      var a := v;
      while a < v + n
        invariant v <= a <= v + n && Valid() && roots == old(roots)
        invariant |free| == |old(free)| + if doFree then a - v else 0
        invariant forall x: nat | v <= x < a :: !Present(Entry(tab, Leaf(root, x)))
        invariant forall x: nat | a <= x < v + n :: Present(Entry(tab, Leaf(root, x)))
        invariant LeavesBut(old(tab), tab, roots, root, v, n)
        invariant doFree || TRAPFRAME <= v ==> Frame(old(tab), tab, old(dat), dat, old(owner), owner, roots, root, v, n)
        invariant !doFree ==> dat == old(dat) && Withheld(old(owner), owner, root, v, a - v)
      {
        ghost var t1, d1, o1 := tab, dat, owner;
        UnmapPage(root, a, doFree);
        forall x: nat | v <= x < v + n && x != a ensures SameAt(t1, tab, Leaf(root, x)) {
          assert !InRange(Leaf(root, x), root, a, 1);
        }
        LeavesMore(old(tab), t1, tab, roots, root, v, n, a);
        if doFree || TRAPFRAME <= v {
          FrameWider(t1, tab, d1, dat, o1, owner, roots, root, a, 1, v, n);
          FrameTwice(old(tab), t1, tab, old(dat), d1, dat, old(owner), o1, owner, roots, root, v, n);
        }
        if !doFree { WithheldMore(old(owner), o1, owner, root, v, a - v); }
        a := a + 1;
      }
    }

    /** uvmcreate(): an empty page table; 0 if there is no page for it. */
    method UvmCreate() returns (r: nat)
      requires Valid()
      modifies this
      ensures Valid()
      ensures r == 0 ==> unchanged(this) && free == []
      ensures |free| + 1 >= |old(free)|
      ensures r != 0 ==> r !in old(roots) && roots == old(roots) + {r} && r in old(owner) && old(owner)[r] == Free &&
                         owner == old(owner)[r := By(Root(r))]
      ensures r != 0 ==> Same(old(tab), tab, old(roots)) && OnlyPage(old(dat), dat, r)
      ensures r != 0 ==> forall t | IsSlot(roots, t) && t.r == r :: !Present(Entry(tab, t))
    {
      r := KAlloc();
      if r == 0 { return; }
      ghost var t1 := tab;
      NewRootOk(lo, hi, tab, roots, owner, free, r);
      tab := tab[r := ZeroTable()];
      forall t | IsSlot(roots, t) ensures SameAt(old(tab), tab, t) {
        assert SameAt(old(tab), t1, t) && SameAt(t1, tab, t);
      }
      roots, owner := roots + {r}, owner[r := By(Root(r))];
    }

    /** The loop of freewalk(), on the table at slot s: whatever it points to is freed, and its entries are cleared. */
    method FreeChildren(page: nat, ghost s: Slot)
      requires Valid() && IsSlot(roots, s) && !s.Leaf? && page == Node(tab, s) != 0 && NoLeaf(tab, roots, s)
      modifies this
      ensures Valid() && roots == old(roots) && page == Node(tab, s) && page in owner && owner[page] == By(s)
      ensures forall i: nat :: !Present(Word(tab, page, i))
      ensures SameOutside(old(tab), tab, roots, s) && FreedBelow(old(owner), owner, s, false)
      ensures OnlyFreed(old(tab), tab, old(dat), dat, old(owner), owner, page)
      decreases 3 - Depth(s), 2
    {
      var i: nat := 0;
      while i < ENTRIES
        invariant i <= ENTRIES && Valid() && roots == old(roots) && page == Node(tab, s) && NoLeaf(tab, roots, s)
        invariant forall k: nat | k < i :: !Present(Word(tab, page, k))
        invariant SameOutside(old(tab), tab, roots, s) && FreedBelow(old(owner), owner, s, false)
        invariant OnlyFreed(old(tab), tab, old(dat), dat, old(owner), owner, page)
      {
        FreeNext(page, i, s, old(tab), old(dat), old(owner));
        i := i + 1;
      }
      TableAt(lo, hi, tab, roots, owner, free, s);
    }

    /** One round of the loop, which has come from tables t0, bytes d0 and owners o0. */
    method FreeNext(page: nat, i: nat, ghost s: Slot, ghost t0: Tables, ghost d0: Bytes, ghost o0: Owners)
      requires Valid() && IsSlot(roots, s) && !s.Leaf? && page == Node(tab, s) != 0 && NoLeaf(tab, roots, s) &&
               i < ENTRIES
      requires SameOutside(t0, tab, roots, s) && FreedBelow(o0, owner, s, false) &&
               OnlyFreed(t0, tab, d0, dat, o0, owner, page)
      modifies this
      ensures Valid() && roots == old(roots) && page == Node(tab, s) && NoLeaf(tab, roots, s)
      ensures !Present(Word(tab, page, i)) && forall k: nat | k != i :: Word(tab, page, k) == Word(old(tab), page, k)
      ensures SameOutside(t0, tab, roots, s) && FreedBelow(o0, owner, s, false) &&
              OnlyFreed(t0, tab, d0, dat, o0, owner, page)
      decreases 3 - Depth(s), 1
    {
      ghost var c := Child(s, i);
      ChildOf(s, i);
      TableAt(lo, hi, tab, roots, owner, free, s);
      assert SlotOk(lo, hi, tab, roots, owner, c);
      var pte := tab[page][i];
      if Present(pte) && !Maps(pte) {
        ghost var t1, o1, d1 := tab, owner, dat;
        FreeEntry(page, i, s, c);
        ChildFreed(t0, t1, tab, roots, s, c, i, page);
        FreedTwice(t0, t1, tab, d0, d1, dat, o0, o1, owner, s, c, page);
      } else if Present(pte) {
        assert false;
      }
    }

    /** Entry i of the table at slot s, which points to a table: that table is freed, and the entry cleared. */
    method FreeEntry(page: nat, i: nat, ghost s: Slot, ghost c: Slot)
      requires Valid() && IsSlot(roots, s) && IsSlot(roots, c) && Parent(c) == s && c != s && i == Index(c) &&
               (c.Mid? || c.Low?)
      requires page == Node(tab, s) != 0 && NoLeaf(tab, roots, s) && Present(Entry(tab, c))
      modifies this
      ensures Valid() && roots == old(roots) && HoldsAt(owner, page, s) && Word(tab, page, i) == 0
      ensures forall k: nat | k != i :: Word(tab, page, k) == Word(old(tab), page, k)
      ensures SameOutside(old(tab), tab, roots, c) && FreedBelow(old(owner), owner, c, true)
      ensures OnlyFreed(old(tab), tab, old(dat), dat, old(owner), owner, page)
      decreases 3 - Depth(s), 0
    {
      TableAt(lo, hi, tab, roots, owner, free, s);
      NoLeafBelow(tab, roots, s, c);
      FreeWalk(Target(tab[page][i]), c);
      KeptHere(old(owner), owner, c, page, s);
      assert tab[page] == old(tab)[page];
      tab := Put(tab, page, i, 0);
    }

    /** freewalk() of the table at slot s.  The entry that points to it is still there, for the caller to
        clear: what is promised is promised of the page table without it. */
    method FreeWalk(page: nat, ghost s: Slot)
      requires Valid() && IsSlot(roots, s) && (s.Mid? || s.Low?) && Present(Entry(tab, s)) &&
               page == Target(Entry(tab, s)) && NoLeaf(tab, roots, s)
      modifies this
      ensures roots == old(roots) && Node(old(tab), Parent(s)) in tab && Index(s) < |tab[Node(old(tab), Parent(s))]|
      ensures Ok(lo, hi, Put(tab, Node(old(tab), Parent(s)), Index(s), 0), roots, owner, free)
      ensures forall q | lo <= q < hi :: q in dat && |dat[q]| == PGSIZE
      ensures SameOutside(old(tab), Put(tab, Node(old(tab), Parent(s)), Index(s), 0), roots, s)
      ensures FreedBelow(old(owner), owner, s, true) && OnlyFreed(old(tab), tab, old(dat), dat, old(owner), owner, 0)
      decreases 3 - Depth(s), 3
    {
      assert SlotOk(lo, hi, tab, roots, owner, s);
      FreeChildren(page, s);
      ghost var t1, d1, o1, f1 := tab, dat, owner, free;
      assert PageOk(lo, hi, tab, roots, owner, free, page);
      ParentStays(old(tab), tab, roots, s);
      DetachTable(lo, hi, tab, roots, owner, free, s);
      KFreeRaw(page);
      FreedSelf(lo, hi, old(tab), t1, tab, old(dat), d1, dat, roots, old(owner), o1, f1, s, page);
      owner := owner[page := Free];
    }

    /** freewalk() of a whole page table, which has no mappings left. */
    method FreeRoot(root: nat)
      requires Valid() && root in roots && NoLeaf(tab, roots, Root(root))
      modifies this
      ensures Valid() && roots == old(roots) - {root}
      ensures Same(old(tab), tab, roots) && SameBytes(old(dat), dat, old(owner), owner)
      ensures Released(old(owner), owner, root)
    {
      assert SlotOk(lo, hi, tab, roots, owner, Root(root));
      FreeChildren(root, Root(root));
      ghost var t1 := tab;
      DropRootOk(lo, hi, tab, roots, owner, free, root);
      ghost var o1 := owner;
      roots, owner := roots - {root}, owner[root := Held];
      KFree(root);
      RootGone(lo, hi, old(tab), t1, tab, old(roots), roots, old(owner), o1, owner, old(free), free, root);
    }

    /** A new page with the given bytes is mapped at v: kalloc, memset or memmove, mappages.  If there is
        no page for it, or for the tables, nothing is mapped and the page is given back. */
    method AddPage(root: nat, v: nat, perm: nat, bytes: seq<Byte>) returns (ok: bool)
      requires Valid() && root in roots && v < TRAPFRAME && perm < 1024 && perm % 2 == 0 && Maps(perm) &&
               |bytes| == PGSIZE
      requires !Present(Entry(tab, Leaf(root, v)))
      modifies this
      ensures Valid() && roots == old(roots)
      ensures !ok ==> Frame(old(tab), tab, old(dat), dat, old(owner), owner, roots, root, 0, 0) && |old(free)| < 3
      ensures |free| + 3 >= |old(free)| && (ok ==> |free| < |old(free)|)
      ensures ok ==> Frame(old(tab), tab, old(dat), dat, old(owner), owner, roots, root, v, 1) &&
                     PageAt(tab, dat, owner, root, v, perm, bytes)
    {
      var q := KAlloc();
      if q == 0 {
        FrameSame(tab, dat, owner, roots, root);
        return false;
      }
      assert SameAt(old(tab), tab, Leaf(root, v));
      assert PageOk(lo, hi, tab, roots, owner, free, q);
      ghost var t1, d1, o1 := tab, dat, owner;
      dat := dat[q := bytes];
      ghost var d2 := dat;
      assert ReadyAt(tab, owner, root, v, q, 0);
      var r, m := MapPages(root, v, 1, q, perm);
      if r != 0 {
        NotAdded(old(tab), t1, tab, old(dat), d1, d2, dat, old(owner), o1, owner, roots, root, v, q, perm);
        ghost var t3, d3, o3 := tab, dat, owner;
        KFree(q);
        GivenBack(old(tab), t3, tab, old(dat), d3, dat, old(owner), o3, owner, roots, root, q);
        return false;
      }
      Added(old(tab), t1, tab, old(dat), d1, d2, dat, old(owner), o1, owner, roots, root, v, q, perm, bytes);
      ok := true;
    }

    /** uvmdealloc(): from oldsz bytes down to newsz. */
    method UvmDealloc(root: nat, oldsz: nat, newsz: nat) returns (sz: nat)
      requires Valid() && root in roots && Pages(oldsz) <= TRAPFRAME
      requires forall x: nat | Pages(newsz) <= x < Pages(oldsz) :: Present(Entry(tab, Leaf(root, x)))
      modifies this
      ensures Valid() && roots == old(roots) && sz == if newsz < oldsz then newsz else oldsz
      ensures forall x: nat | Pages(newsz) <= x < Pages(oldsz) :: !Present(Entry(tab, Leaf(root, x)))
      ensures Frame(old(tab), tab, old(dat), dat, old(owner), owner, roots, root, Pages(newsz), Span(newsz, oldsz))
    {
      FrameSame(tab, dat, owner, roots, root);
      FrameWider(tab, tab, dat, dat, owner, owner, roots, root, 0, 0, Pages(newsz), Span(newsz, oldsz));
      if newsz >= oldsz { return oldsz; }
      if Pages(newsz) < Pages(oldsz) {
        UvmUnmap(root, Pages(newsz), Pages(oldsz) - Pages(newsz), true);
      }
      sz := newsz;
    }

    /** One round of uvmalloc(), which has come from tables t0, bytes d0 and owners o0. */
    method AllocNext(root: nat, a: nat, perm: nat, ghost v: nat, ghost n: nat, ghost t0: Tables, ghost d0: Bytes,
                     ghost o0: Owners) returns (ok: bool)
      requires Valid() && root in roots && v <= a < v + n <= TRAPFRAME && perm < 1024 && perm % 2 == 0 && Maps(perm)
      requires Allocating(t0, tab, d0, dat, o0, owner, roots, root, v, n, a, perm)
      modifies this
      ensures Valid() && roots == old(roots) && |free| + 3 >= |old(free)|
      ensures if ok then |free| < |old(free)| else |old(free)| < 3
      ensures Allocating(t0, tab, d0, dat, o0, owner, roots, root, v, n, if ok then a + 1 else a, perm)
    {
      ghost var t1, d1, o1 := tab, dat, owner;
      ok := AddPage(root, a, perm, ZeroPage());
      if ok {
        AllocStep(t0, t1, tab, d0, d1, dat, o0, o1, owner, roots, root, v, n, a, perm);
      } else {
        AllocFails(t0, t1, tab, d0, d1, dat, o0, o1, owner, roots, root, v, n, a, perm);
      }
    }

    /** uvmalloc(): from oldsz bytes up to newsz, with new zeroed pages; 0, with no new page, if memory runs out, as
        it does before the trap frame is reached. */
    method UvmAlloc(root: nat, oldsz: nat, newsz: nat, xperm: nat) returns (sz: nat)
      requires Valid() && root in roots && xperm < 16 && xperm % 4 == 0
      requires newsz < oldsz || Pages(newsz) <= TRAPFRAME || Pages(oldsz) + |free| < TRAPFRAME
      requires forall x: nat | Pages(oldsz) <= x < Pages(newsz) && x < TRAPFRAME :: !Present(Entry(tab, Leaf(root, x)))
      modifies this
      ensures Valid() && roots == old(roots) && (if newsz < oldsz then sz == oldsz else sz == newsz || sz == 0)
      ensures newsz < oldsz ==> unchanged(this)
      ensures newsz >= oldsz && Pages(newsz) > TRAPFRAME ==> sz == 0
      ensures newsz >= oldsz && sz == newsz != 0 ==>
              ZeroPages(tab, dat, owner, root, Pages(oldsz), Pages(newsz), PTE_R + PTE_U + xperm)
      ensures newsz >= oldsz ==> Frame(old(tab), tab, old(dat), dat, old(owner), owner, roots, root, Pages(oldsz),
                                       Span(oldsz, newsz))
      ensures newsz > 0 && sz == 0 ==> Frame(old(tab), tab, old(dat), dat, old(owner), owner, roots, root, 0, 0)
      ensures newsz > 0 && sz == 0 ==> |old(free)| < 3 * Span(oldsz, newsz)
    {
      FrameSame(tab, dat, owner, roots, root);
      FrameWider(tab, tab, dat, dat, owner, owner, roots, root, 0, 0, Pages(oldsz), Span(oldsz, newsz));
      if newsz < oldsz { return oldsz; }
      sz := AllocRange(root, oldsz, newsz, xperm, Reach(oldsz, newsz));
      if Pages(newsz) > TRAPFRAME {
        FrameWider(old(tab), tab, old(dat), dat, old(owner), owner, roots, root, 0, 0, Pages(oldsz),
                   Span(oldsz, newsz));
      }
    }

    /** The loop of uvmalloc().  Below the trap frame, n pages are asked for. */
    method AllocRange(root: nat, oldsz: nat, newsz: nat, xperm: nat, ghost n: nat) returns (sz: nat)
      requires Valid() && root in roots && Pages(oldsz) <= TRAPFRAME && xperm < 16 && xperm % 4 == 0 && oldsz <= newsz
      requires Pages(newsz) <= TRAPFRAME || Pages(oldsz) + |free| < TRAPFRAME
      requires n == Reach(oldsz, newsz)
      requires forall x: nat | Pages(oldsz) <= x < Pages(oldsz) + n :: !Present(Entry(tab, Leaf(root, x)))
      modifies this
      ensures Valid() && roots == old(roots) && (sz == newsz || sz == 0) && (Pages(newsz) > TRAPFRAME ==> sz == 0)
      ensures sz == newsz != 0 ==>
              ZeroPages(tab, dat, owner, root, Pages(oldsz), Pages(newsz), PTE_R + PTE_U + xperm)
      ensures Frame(old(tab), tab, old(dat), dat, old(owner), owner, roots, root, Pages(oldsz), n)
      ensures newsz > 0 && sz == 0 ==> Frame(old(tab), tab, old(dat), dat, old(owner), owner, roots, root, 0, 0)
      ensures newsz > 0 && sz == 0 ==> |old(free)| < 3 * n
    {
      ghost var v, perm := Pages(oldsz), PTE_R + PTE_U + xperm;
      FrameSame(tab, dat, owner, roots, root);
      FrameWider(tab, tab, dat, dat, owner, owner, roots, root, 0, 0, v, n);
      var a := Pages(oldsz);
      while a * PGSIZE < newsz
        invariant v <= a <= v + n && Valid() && roots == old(roots) &&
                  |free| + (a - v) <= |old(free)| <= |free| + 3 * (a - v)
        invariant Allocating(old(tab), tab, old(dat), dat, old(owner), owner, roots, root, v, n, a, perm)
        decreases v + n - a
      {
        var ok := AllocNext(root, a, PTE_R + PTE_U + xperm, v, n, old(tab), old(dat), old(owner));
        if !ok {
          ghost var t2, d2, o2 := tab, dat, owner;
          var _ := UvmDealloc(root, a * PGSIZE, Pages(oldsz) * PGSIZE);
          Undone(lo, hi, old(tab), t2, tab, old(dat), d2, dat, old(owner), o2, owner, roots, old(free), free, root, v,
                 n, a);
          return 0;
        }
        a := a + 1;
      }
      sz := newsz;
    }

    /** One page of uvmcopy(). */
    method CopyPage(from: nat, to: nat, v: nat) returns (ok: bool, ghost pte: nat)
      requires Valid() && from in roots && to in roots && v < TRAPFRAME && Present(Entry(tab, Leaf(from, v))) &&
               !Present(Entry(tab, Leaf(to, v)))
      modifies this
      ensures Valid() && roots == old(roots) && pte == old(Entry(tab, Leaf(from, v))) && Target(pte) in old(dat)
      ensures !ok ==> Frame(old(tab), tab, old(dat), dat, old(owner), owner, roots, to, 0, 0) && |old(free)| < 3
      ensures |free| + 3 >= |old(free)|
      ensures ok ==> Frame(old(tab), tab, old(dat), dat, old(owner), owner, roots, to, v, 1) &&
                     PageAt(tab, dat, owner, to, v, Perm(pte), old(dat)[Target(pte)])
    {
      assert SlotOk(lo, hi, tab, roots, owner, Leaf(from, v));
      var p := Walk(from, v, false);
      TableAt(lo, hi, tab, roots, owner, free, Parent(Leaf(from, v)));
      var word := tab[p][v % 512];
      PermMaps(word);
      pte := word;
      ok := AddPage(to, v, Perm(word), dat[Target(word)]);
    }

    /** One round of uvmcopy(), which has come from tables t0, bytes d0 and owners o0. */
    method CopyNext(from: nat, to: nat, a: nat, ghost n: nat, ghost t0: Tables, ghost d0: Bytes, ghost o0: Owners)
      returns (ok: bool)
      requires Valid() && from in roots && to in roots && from != to && a < n <= TRAPFRAME
      requires Copying(t0, tab, d0, dat, o0, owner, roots, from, to, n, a)
      modifies this
      ensures Valid() && roots == old(roots) && |free| + 3 >= |old(free)| && (!ok ==> |old(free)| < 3)
      ensures Copying(t0, tab, d0, dat, o0, owner, roots, from, to, n, if ok then a + 1 else a)
    {
      ghost var t1, d1, o1, pte := tab, dat, owner, 0;
      ok, pte := CopyPage(from, to, a);
      CopyStep(lo, hi, t0, t1, tab, d0, d1, dat, o0, o1, owner, roots, from, to, n, a, ok, pte);
    }

    /** uvmcopy(): the pages of sz bytes, each copied to a page of its own with the same permissions;
        on failure no page is left. */
    method UvmCopy(from: nat, to: nat, sz: nat) returns (r: int)
      requires Valid() && from in roots && to in roots && from != to && Pages(sz) <= TRAPFRAME
      requires forall x: nat | x < Pages(sz) :: Present(Entry(tab, Leaf(from, x)))
      requires forall x: nat | x < Pages(sz) :: !Present(Entry(tab, Leaf(to, x)))
      modifies this
      ensures Valid() && roots == old(roots) && (r == 0 || r == -1)
      ensures r == 0 ==> Frame(old(tab), tab, old(dat), dat, old(owner), owner, roots, to, 0, Pages(sz)) &&
                         Copied(tab, dat, owner, from, to, Pages(sz))
      ensures r == -1 ==> Frame(old(tab), tab, old(dat), dat, old(owner), owner, roots, to, 0, 0) &&
                          |old(free)| < 3 * Pages(sz)
    {
      ghost var n := Pages(sz);
      FrameSame(tab, dat, owner, roots, to);
      FrameWider(tab, tab, dat, dat, owner, owner, roots, to, 0, 0, 0, n);
      var a: nat := 0;
      while a * PGSIZE < sz
        invariant a <= n && Valid() && roots == old(roots) && |free| + 3 * a >= |old(free)|
        invariant Copying(old(tab), tab, old(dat), dat, old(owner), owner, roots, from, to, n, a)
        decreases n - a
      {
        var ok := CopyNext(from, to, a, n, old(tab), old(dat), old(owner));
        if !ok {
          ghost var t2, d2, o2 := tab, dat, owner;
          UvmUnmap(to, 0, a, true);
          Undone(lo, hi, old(tab), t2, tab, old(dat), d2, dat, old(owner), o2, owner, roots, old(free), free, to, 0, n,
                 a);
          return -1;
        }
        a := a + 1;
      }
      r := 0;
    }

    /** uvmfree(): the user memory of sz bytes, which is all that is mapped, and the page table itself. */
    method UvmFree(root: nat, sz: nat)
      requires Valid() && root in roots && Pages(sz) <= TRAPFRAME && Space(tab, roots, root, Pages(sz), {})
      modifies this
      ensures Valid() && roots == old(roots) - {root} && LeavesBut(old(tab), tab, roots, root, 0, 0) &&
              UsedBytes(old(dat), dat, old(owner), owner)
      ensures Released(old(owner), owner, root)
    {
      FrameSame(tab, dat, owner, roots, root);
      FrameWider(tab, tab, dat, dat, owner, owner, roots, root, 0, 0, 0, Pages(sz));
      forall x: nat | x < Pages(sz) ensures Present(Entry(tab, Leaf(root, x))) {
        assert SpaceAt(tab, Pages(sz), {}, Leaf(root, x));
      }
      if sz > 0 { UvmUnmap(root, 0, Pages(sz), true); }
      ghost var t1, d1, o1 := tab, dat, owner;
      forall t | IsSlot(roots, t) && t.Leaf? && Below(t, Root(root)) ensures !Present(Entry(tab, t)) {
        assert t == Leaf(root, t.v) && SpaceAt(old(tab), Pages(sz), {}, t);
        if !InRange(t, root, 0, Pages(sz)) { assert SameAt(old(tab), tab, t); }
      }
      FreeRoot(root);
      AllReleased(old(tab), t1, tab, old(dat), d1, dat, old(owner), o1, owner, old(roots), roots, root, 0, Pages(sz));
    }

    /** proc_pagetable(): an empty page table with the trampoline page tramp, which is kernel text, and the
        trap frame page tf; 0, with every page given back, if memory runs out. */
    method ProcPageTable(tf: nat, tramp: nat) returns (r: nat)
      requires Valid() && tf in owner && owner[tf] == Held && tramp !in owner
      modifies this
      ensures Valid()
      ensures r == 0 ==> roots == old(roots) && owner == old(owner) && LeavesBut(old(tab), tab, roots, 0, 0, 0) &&
                         BytesBut(old(dat), dat, old(owner), 0, 0, 0)
      ensures r != 0 ==> r !in old(roots) && roots == old(roots) + {r} &&
                         Aside(old(tab), tab, old(dat), dat, old(owner), owner, old(roots), r)
      ensures r != 0 ==> Space(tab, roots, r, 0, {TRAMPOLINE, TRAPFRAME}) && |free| + 5 >= |old(free)|
      ensures r != 0 ==> TrapMaps(tab, r, tramp, tf)
      ensures r == 0 ==> |old(free)| < 5
    {
      r := UvmCreate();
      if r == 0 { return; }
      Created(lo, hi, old(free), old(tab), tab, old(dat), dat, old(owner), owner, old(roots), r);
      var e := MapTrap(r, TRAMPOLINE, tramp, PTE_R + PTE_X, {}, old(tab), old(dat), old(owner), old(roots));
      if e < 0 {
        Abandon(r, old(tab), old(dat), old(owner), old(roots));
        return 0;
      }
      assert TookAt(old(owner), owner, r, tf) && {} + {TRAMPOLINE} == {TRAMPOLINE};
      e := MapTrap(r, TRAPFRAME, tf, PTE_R + PTE_W, {TRAMPOLINE}, old(tab), old(dat), old(owner), old(roots));
      if e < 0 {
        ghost var t1, d1, o1 := tab, dat, owner;
        UnmapTrap(r, TRAMPOLINE, 0, {});
        AsideFrame(old(tab), t1, tab, old(dat), d1, dat, old(owner), o1, owner, old(roots), r, TRAMPOLINE, 1);
        Abandon(r, old(tab), old(dat), old(owner), old(roots));
        return 0;
      }
      assert {TRAMPOLINE} + {TRAPFRAME} == {TRAMPOLINE, TRAPFRAME};
    }

    /** mappages() of the trampoline or the trap frame, which the page table does not own. */
    method MapTrap(r: nat, v: nat, q: nat, perm: nat, ghost extra: set<nat>, ghost t0: Tables, ghost d0: Bytes,
                   ghost o0: Owners, ghost r0: set<nat>)
      returns (e: int)
      requires Valid() && r !in r0 && roots == r0 + {r} && (v == TRAPFRAME || v == TRAMPOLINE) && v !in extra &&
               (q in owner ==> owner[q] == Held)
      requires perm < 1024 && perm % 2 == 0 && Maps(perm) && !User(perm) && Space(tab, roots, r, 0, extra) &&
               Aside(t0, tab, d0, dat, o0, owner, r0, r)
      modifies this
      ensures Valid() && roots == old(roots) && (e == 0 || e == -1) && Aside(t0, tab, d0, dat, o0, owner, r0, r)
      ensures Space(tab, roots, r, 0, if e == 0 then extra + {v} else extra)
      ensures (if e == 0 then |free| + 2 >= |old(free)| && Entry(tab, Leaf(r, v)) == MakePte(q, perm)
               else |old(free)| < 2)
      ensures forall x | x in extra && x < VPNS && Present(old(Entry(tab, Leaf(r, x)))) ::
              Entry(tab, Leaf(r, x)) == old(Entry(tab, Leaf(r, x)))
    {
      ghost var t1, d1, o1 := tab, dat, owner;
      assert SpaceAt(tab, 0, extra, Leaf(r, v)) && ReadyAt(tab, owner, r, v, q, 0);
      ghost var m;
      e, m := MapPages(r, v, 1, q, perm);
      assert m == 1 ==> MappedAt(tab, r, v, q, perm, 0);
      forall x | x in extra && x < VPNS && Present(Entry(t1, Leaf(r, x)))
        ensures Entry(tab, Leaf(r, x)) == Entry(t1, Leaf(r, x)) {
        assert SameAt(t1, tab, Leaf(r, x));
      }
      AsideMapped(t0, t1, tab, d0, d1, dat, o0, o1, owner, r0, r, v, m, q, perm, extra);
    }

    /** uvmunmap() of the trampoline or the trap frame, which are not freed. */
    method UnmapTrap(r: nat, v: nat, ghost n: nat, ghost rest: set<nat>)
      requires Valid() && r in roots && (v == TRAPFRAME || v == TRAMPOLINE) && v !in rest && n <= TRAPFRAME
      requires Space(tab, roots, r, n, rest + {v})
      modifies this
      ensures Valid() && roots == old(roots) && Space(tab, roots, r, n, rest)
      ensures Frame(old(tab), tab, old(dat), dat, old(owner), owner, roots, r, v, 1)
    {
      assert SpaceAt(tab, n, rest + {v}, Leaf(r, v));
      UvmUnmap(r, v, 1, false);
      forall t | IsSlot(roots, t) && t.Leaf? && t.r == r ensures SpaceAt(tab, n, rest, t) {
        assert SpaceAt(old(tab), n, rest + {v}, t) && t == Leaf(r, t.v);
        if t.v != v { assert SameAt(old(tab), tab, t); }
      }
    }

    /** uvmfree() of a page table without user memory: everything is as it was before it was made. */
    method Abandon(r: nat, ghost t0: Tables, ghost d0: Bytes, ghost o0: Owners, ghost r0: set<nat>)
      requires Valid() && r !in r0 && roots == r0 + {r}
      requires Space(tab, roots, r, 0, {}) && Aside(t0, tab, d0, dat, o0, owner, r0, r)
      modifies this
      ensures Valid() && roots == r0 && owner == o0 && LeavesBut(t0, tab, r0, 0, 0, 0) && BytesBut(d0, dat, o0, 0, 0, 0)
    {
      ghost var t1, d1, o1 := tab, dat, owner;
      assert Pages(0) == 0;
      UvmFree(r, 0);
      assert roots == r0;
      Abandoned(t0, t1, tab, d0, d1, dat, o0, o1, owner, r0, r);
    }

    /** The memory side of fork(): a trap frame page, a page table, and a copy of the parent's memory.
        If it fails, every page is back where it was. */
    method ForkMemory(parent: nat, sz: nat, tramp: nat) returns (ok: bool, r: nat, tf: nat)
      requires Valid() && parent in roots && Pages(sz) <= TRAPFRAME && tramp !in owner &&
               Space(tab, roots, parent, Pages(sz), {TRAMPOLINE, TRAPFRAME})
      modifies this
      ensures Valid()
      ensures !ok ==> roots == old(roots) && owner == old(owner) && LeavesBut(old(tab), tab, roots, 0, 0, 0) &&
                      BytesBut(old(dat), dat, old(owner), 0, 0, 0)
      ensures ok ==> r !in old(roots) && roots == old(roots) + {r} && tf in old(owner) && old(owner)[tf] == Free
      ensures !ok ==> |old(free)| < 6 + 3 * Pages(sz)
      ensures ok ==> TrapMaps(tab, r, tramp, tf) && Space(tab, roots, r, Pages(sz), {TRAMPOLINE, TRAPFRAME})
      ensures ok ==> Forked(old(tab), tab, old(dat), dat, old(owner), owner, old(roots), r, tf) &&
                     Copied(tab, dat, owner, parent, r, Pages(sz))
    {
      tf := KAlloc();
      if tf == 0 {
        FrameSame(tab, dat, owner, roots, 0);
        return false, 0, 0;
      }
      ghost var t1, d1, o1 := tab, dat, owner;
      r := ProcPageTable(tf, tramp);
      if r == 0 {
        ghost var t2, d2, o2 := tab, dat, owner;
        KFree(tf);
        TrapframeBack(old(tab), t1, t2, tab, old(dat), d1, d2, dat, old(owner), o1, owner, roots, tf);
        return false, 0, 0;
      }
      CopyReady(old(tab), t1, tab, old(roots), roots, parent, r, Pages(sz));
      ghost var t2, d2, o2 := tab, dat, owner;
      var e := UvmCopy(parent, r, sz);
      if e < 0 {
        AsideFrame(t1, t2, tab, d1, d2, dat, o1, o2, owner, old(roots), r, 0, 0);
        SpaceStays(t2, tab, roots, r, 0, {TRAMPOLINE, TRAPFRAME});
        FreeNewProc(tf, r, t1, d1, o1, old(roots));
        AfterFork(old(tab), t1, tab, old(dat), d1, dat, old(owner), o1, owner, roots, tf);
        return false, 0, 0;
      }
      AsideFrame(t1, t2, tab, d1, d2, dat, o1, o2, owner, old(roots), r, 0, Pages(sz));
      AsideEarlier(old(tab), t1, tab, old(dat), d1, dat, old(owner), o1, owner, old(roots), r, tf);
      SpaceCopied(t2, tab, dat, owner, roots, parent, r, Pages(sz), {TRAMPOLINE, TRAPFRAME});
      ok := true;
    }

    /** freeproc() of a process that was made since tables t0, bytes d0 and owners o0, and has no user memory. */
    method FreeNewProc(tf: nat, r: nat, ghost t0: Tables, ghost d0: Bytes, ghost o0: Owners, ghost r0: set<nat>)
      requires Valid() && r !in r0 && roots == r0 + {r} && tf in o0 && o0[tf] == Held
      requires Space(tab, roots, r, 0, {TRAMPOLINE, TRAPFRAME}) && Aside(t0, tab, d0, dat, o0, owner, r0, r)
      modifies this
      ensures Valid() && roots == r0 && owner == o0[tf := Free] && LeavesBut(t0, tab, r0, 0, 0, 0) &&
              BytesBut(d0, dat, o0[tf := Free], 0, 0, 0)
    {
      ghost var t1, d1, o1 := tab, dat, owner;
      assert Pages(0) == 0 && TookAt(o0, owner, r, tf);
      FreeProcMemory(tf, r, 0);
      assert roots == r0;
      ProcAbandoned(t0, t1, tab, d0, d1, dat, o0, o1, owner, r0, r, tf);
    }

    /** freeproc(), the memory of it: the trap frame tf, and page table r with sz bytes of user memory. */
    method FreeProcMemory(tf: nat, r: nat, sz: nat)
      requires Valid() && r in roots && tf in owner && owner[tf] == Held && Pages(sz) <= TRAPFRAME
      requires Space(tab, roots, r, Pages(sz), {TRAMPOLINE, TRAPFRAME})
      modifies this
      ensures Valid() && roots == old(roots) - {r} && ProcFreed(old(owner), owner, r, tf)
      ensures LeavesBut(old(tab), tab, roots, r, 0, 0) && UsedBytes(old(dat), dat, old(owner), owner)
    {
      KFree(tf);
      ghost var t1, d1, o1 := tab, dat, owner;
      forall t | IsSlot(roots, t) && t.Leaf? && t.r == r ensures SpaceAt(tab, Pages(sz), {TRAMPOLINE, TRAPFRAME}, t) {
        assert SpaceAt(old(tab), Pages(sz), {TRAMPOLINE, TRAPFRAME}, t) && SameAt(old(tab), tab, t);
      }
      ProcFreePageTable(r, sz);
      TrapframeFreed(old(tab), t1, tab, old(dat), d1, dat, old(owner), o1, owner, old(roots), r, tf);
    }

    /** proc_freepagetable(). */
    method ProcFreePageTable(r: nat, sz: nat)
      requires Valid() && r in roots && Pages(sz) <= TRAPFRAME &&
               Space(tab, roots, r, Pages(sz), {TRAMPOLINE, TRAPFRAME})
      modifies this
      ensures Valid() && roots == old(roots) - {r} && Released(old(owner), owner, r)
      ensures LeavesBut(old(tab), tab, roots, r, 0, 0) && UsedBytes(old(dat), dat, old(owner), owner)
    {
      assert {TRAPFRAME} + {TRAMPOLINE} == {TRAMPOLINE, TRAPFRAME} && {} + {TRAPFRAME} == {TRAPFRAME};
      UnmapTrap(r, TRAMPOLINE, Pages(sz), {TRAPFRAME});
      ghost var t1, d1, o1 := tab, dat, owner;
      UnmapTrap(r, TRAPFRAME, Pages(sz), {});
      ghost var t2, d2, o2 := tab, dat, owner;
      UvmFree(r, sz);
      AllReleased(t1, t2, tab, d1, d2, dat, o1, o2, owner, old(roots), roots, r, TRAPFRAME, 1);
      AllReleased(old(tab), t1, tab, old(dat), d1, dat, old(owner), o1, owner, old(roots), roots, r, TRAMPOLINE, 1);
    }

    /** walkaddr(): the page that user page v is mapped to, 0 if it is not. */
    method WalkAddr(root: nat, v: nat) returns (q: nat)
      requires Valid() && root in roots
      modifies this
      ensures unchanged(this) && (q != 0 <==> Readable(tab, root, v))
      ensures q != 0 ==> q == Target(Entry(tab, Leaf(root, v))) && lo <= q < hi && q in owner &&
                         owner[q] == By(Leaf(root, v))
    {
      if v >= VPNS { return 0; }
      assert SlotOk(lo, hi, tab, roots, owner, Leaf(root, v));
      var p := Walk(root, v, false);
      if p == 0 { return 0; }
      TableAt(lo, hi, tab, roots, owner, free, Parent(Leaf(root, v)));
      var pte := tab[p][v % 512];
      if !Present(pte) { return 0; }
      if !User(pte) { return 0; }
      q := Target(pte);
    }

    /** copyin(): len bytes of user memory from srcva on, if all of them can be read. */
    method CopyIn(root: nat, srcva: nat, len: nat) returns (r: int, dst: seq<Byte>)
      requires Valid() && root in roots
      modifies this
      ensures unchanged(this) && (r == 0 || r == -1)
      ensures r == 0 <==> forall x: nat | srcva <= x < srcva + len :: CanRead(tab, root, x)
      ensures r == 0 ==> |dst| == len && Reads(tab, dat, root, srcva, dst)
    {
      dst := [];
      var va, left := srcva, len;
      while left > 0
        invariant unchanged(this) && 0 <= left <= len && (left > 0 ==> va == srcva + (len - left))
        invariant |dst| == len - left && Reads(tab, dat, root, srcva, dst)
      {
        var q := WalkAddr(root, va / PGSIZE);
        if q == 0 {
          assert !CanRead(tab, root, va);
          return -1, dst;
        }
        var n := if PGSIZE - va % PGSIZE > left then left else PGSIZE - va % PGSIZE;
        ReadsMore(tab, dat, root, srcva, dst, va, n, q);
        dst := dst + dat[q][va % PGSIZE..va % PGSIZE + n];
        left, va := left - n, va / PGSIZE * PGSIZE + PGSIZE;
      }
      ReadsAll(tab, dat, root, srcva, dst);
      r := 0;
    }

    /** copyout(): the bytes of src to user memory from dstva on; when it fails, the first w of them are there. */
    method CopyOut(root: nat, dstva: nat, src: seq<Byte>) returns (r: int, ghost w: nat)
      requires Valid() && root in roots
      modifies this
      ensures Valid() && tab == old(tab) && owner == old(owner) && roots == old(roots) && free == old(free)
      ensures w <= |src| && (if w == |src| then r == 0 else r == -1 && !CanWrite(tab, root, dstva + w))
      ensures AllWritable(tab, root, dstva, dstva + w)
      ensures WroteOut(tab, old(dat), dat, owner, roots, root, dstva, src[..w])
    {
      var va, done: nat := dstva, 0;
      assert src[..0] == [];
      while done < |src|
        invariant Valid() && tab == old(tab) && owner == old(owner) && roots == old(roots) && free == old(free)
        invariant done <= |src| && (done < |src| ==> va == dstva + done)
        invariant AllWritable(tab, root, dstva, dstva + done)
        invariant WroteOut(tab, old(dat), dat, owner, roots, root, dstva, src[..done])
      {
        var q := WalkWritable(root, va / PGSIZE);
        if q == 0 {
          assert !CanWrite(tab, root, va);
          return -1, done;
        }
        var n := if PGSIZE - va % PGSIZE > |src| - done then |src| - done else PGSIZE - va % PGSIZE;
        WritableMore(tab, root, dstva, va, n);
        assert src[..done] + src[done..done + n] == src[..done + n];
        PageEnds(va, n, |src| - done);
        WriteChunk(root, va, src[done..done + n], q, dstva, src[..done], old(dat));
        done, va := done + n, va / PGSIZE * PGSIZE + PGSIZE;
      }
      return 0, done;
    }

    /** The move of one chunk, after d has gone to user memory from dst on since the bytes were d0. */
    method WriteChunk(root: nat, va: nat, chunk: seq<Byte>, q: nat, ghost dst: nat, ghost d: seq<Byte>, ghost d0: Bytes)
      requires Valid() && root in roots && va == dst + |d| && va % PGSIZE + |chunk| <= PGSIZE && lo <= q < hi
      requires q == Target(Entry(tab, Leaf(root, va / PGSIZE))) && q in owner && owner[q] == By(Leaf(root, va / PGSIZE))
      requires WroteOut(tab, d0, dat, owner, roots, root, dst, d)
      modifies `dat
      ensures Valid() && WroteOut(tab, d0, dat, owner, roots, root, dst, d + chunk)
    {
      WroteMore(lo, hi, tab, d0, dat, owner, free, roots, root, dst, d, va, chunk, q);
      dat := dat[q := Patch(dat[q], va % PGSIZE, chunk)];
    }

    /** The checks of copyout() on user page v: the page to write to, 0 if there is none. */
    method WalkWritable(root: nat, v: nat) returns (q: nat)
      requires Valid() && root in roots
      modifies this
      ensures unchanged(this) && (q != 0 <==> Readable(tab, root, v) && Writable(Entry(tab, Leaf(root, v))))
      ensures q != 0 ==> q == Target(Entry(tab, Leaf(root, v))) && lo <= q < hi && q in owner &&
                         owner[q] == By(Leaf(root, v))
    {
      if v >= VPNS { return 0; }
      assert SlotOk(lo, hi, tab, roots, owner, Leaf(root, v));
      var p := Walk(root, v, false);
      if p == 0 { return 0; }
      TableAt(lo, hi, tab, roots, owner, free, Parent(Leaf(root, v)));
      var pte := tab[p][v % 512];
      if !Present(pte) || !User(pte) || !Writable(pte) { return 0; }
      q := Target(pte);
    }

    /** The inner loop of copyinstr(): how many bytes of b come before a zero. */
    static method Scan(b: seq<Byte>) returns (m: nat)
      ensures m <= |b| && NoZero(b[..m]) && (m < |b| ==> b[m] == 0)
    {
      m := 0;
      while m < |b|
        invariant m <= |b| && NoZero(b[..m])
      {
        if b[m] == 0 { break; }
        m := m + 1;
      }
    }

    /** copyinstr(): the user string at srcva, if its final zero comes within max bytes that can be read;
        dst is the string, which the source stores with its zero. */
    method CopyInStr(root: nat, srcva: nat, max: nat) returns (r: int, dst: seq<Byte>)
      requires Valid() && root in roots
      modifies this
      ensures unchanged(this) && (r == 0 || r == -1)
      ensures r == 0 ==> |dst| < max && IsString(tab, dat, root, srcva, dst)
      ensures r == -1 ==> forall b: seq<Byte> | |b| < max :: !IsString(tab, dat, root, srcva, b)
    {
      dst := [];
      var va, left := srcva, max;
      while left > 0
        invariant unchanged(this) && 0 <= left <= max && (left > 0 ==> va == srcva + (max - left))
        invariant |dst| == max - left && NoZero(dst) && Reads(tab, dat, root, srcva, dst)
      {
        var q := WalkAddr(root, va / PGSIZE);
        if q == 0 {
          Unterminated(tab, dat, root, srcva, dst, max, true);
          return -1, dst;
        }
        var n := if PGSIZE - va % PGSIZE > left then left else PGSIZE - va % PGSIZE;
        var m := Scan(dat[q][va % PGSIZE..va % PGSIZE + n]);
        assert dat[q][va % PGSIZE..va % PGSIZE + n][..m] == dat[q][va % PGSIZE..va % PGSIZE + m];
        ReadsMore(tab, dat, root, srcva, dst, va, m, q);
        dst := dst + dat[q][va % PGSIZE..va % PGSIZE + m];
        if m < n {
          ReadsZero(tab, dat, root, srcva, dst, va, m, q);
          return 0, dst;
        }
        left, va := left - m, va / PGSIZE * PGSIZE + PGSIZE;
      }
      Unterminated(tab, dat, root, srcva, dst, max, false);
      r := -1;
    }
  }
}
