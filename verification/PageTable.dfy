/**
 Sv39 page tables and the page allocator.

 Physical pages are numbered.  A page in use as a page-table page is read as 512 words, any other
 page as 4096 bytes; the proofs show that no page is ever in use as both.
 */
module PageTable {
  import opened Common

  const PGSIZE: nat := 4096
  const ENTRIES: nat := 512
  const MAXVA: nat := 0x40_0000_0000       // 1 << (9 + 9 + 9 + 12 - 1)
  const VPNS: nat := 0x400_0000            // MAXVA / PGSIZE
  const TRAMPOLINE: nat := 0x3FF_FFFF      // page numbers of the two pages that every user
  const TRAPFRAME: nat := 0x3FF_FFFE       // page table maps and does not own

  // ----- page-table entries -------------------------------------------------------

  const PTE_V: nat := 1
  const PTE_R: nat := 2
  const PTE_W: nat := 4
  const PTE_X: nat := 8
  const PTE_U: nat := 16

  predicate Present(pte: nat) { pte % 2 == 1 }
  predicate Writable(pte: nat) { pte / 4 % 2 == 1 }
  predicate User(pte: nat) { pte / 16 % 2 == 1 }
  predicate Maps(pte: nat) { pte / 2 % 8 != 0 }           // any of R, W, X: not a pointer to a table
  function Target(pte: nat): (q: nat) { pte / 1024 }      // PTE2PA, in pages
  function Flags(pte: nat): (f: nat) { pte % 1024 }
  function Follow(pte: nat): (q: nat) { if Present(pte) then Target(pte) else 0 }

  /** The permissions of an entry: its flags, without PTE_V. */
  function Perm(pte: nat): (perm: nat)
    ensures perm % 2 == 0 && perm < 1024 &&
            (Present(pte) ==> Flags(pte) == perm + 1 && pte == 1024 * Target(pte) + perm + 1)
  {
    assert pte == 1024 * (pte / 1024) + pte % 1024 && pte % 1024 % 2 == pte % 2;
    if Present(pte) then Flags(pte) - 1 else 0
  }

  lemma PermMaps(pte: nat)
    requires Present(pte)
    ensures Maps(Perm(pte)) == Maps(pte)
  {
    var t, f := pte / 1024, pte % 1024;
    assert pte == 1024 * t + f && pte / 2 == 512 * t + f / 2 && pte / 2 % 8 == f / 2 % 8;
    assert (f - 1) / 2 == f / 2;
  }

  lemma BitsRWX(q: nat, f: nat)
    requires f < 1024
    ensures (1024 * q + f) / 2 % 8 == f / 2 % 8
  {
    assert (1024 * q + f) / 2 == 8 * (64 * q) + f / 2;
  }

  lemma BitW(q: nat, f: nat)
    requires f < 1024
    ensures (1024 * q + f) / 4 % 2 == f / 4 % 2
  {
    assert (1024 * q + f) / 4 == 2 * (128 * q) + f / 4;
  }

  lemma BitU(q: nat, f: nat)
    requires f < 1024
    ensures (1024 * q + f) / 16 % 2 == f / 16 % 2
  {
    assert (1024 * q + f) / 16 == 2 * (32 * q) + f / 16;
  }

  lemma BitV(q: nat, f: nat)
    requires f < 1024
    ensures (1024 * q + f) % 2 == f % 2
  {
    assert (1024 * q + f) / 2 == 512 * q + f / 2;
  }

  lemma PteFields(q: nat, perm: nat, pte: nat)
    requires perm < 1024 && perm % 2 == 0 && pte == 1024 * q + (perm + 1)
    ensures Target(pte) == q && Flags(pte) == perm + 1
  {
  }

  lemma PteBits(q: nat, perm: nat, pte: nat)
    requires perm < 1024 && perm % 2 == 0 && pte == 1024 * q + (perm + 1)
    ensures Present(pte) && Maps(pte) == Maps(perm) && Writable(pte) == Writable(perm) && User(pte) == User(perm)
  {
    BitV(q, perm + 1);
    BitsRWX(q, perm + 1);
    BitW(q, perm + 1);
    BitU(q, perm + 1);
    SetV(perm);
  }

  lemma SetV(perm: nat)
    requires perm % 2 == 0
    ensures (perm + 1) / 2 == perm / 2 && (perm + 1) / 4 == perm / 4 && (perm + 1) / 16 == perm / 16
  {
  }

  /** PA2PTE(page q) | perm | PTE_V, for permissions without PTE_V. */
  function MakePte(q: nat, perm: nat): (pte: nat)
    requires perm < 1024 && perm % 2 == 0
    ensures Present(pte) && Target(pte) == q && Flags(pte) == perm + 1
    ensures Maps(pte) == Maps(perm) && Writable(pte) == Writable(perm) && User(pte) == User(perm)
  {
    var pte := 1024 * q + (perm + PTE_V);
    PteFields(q, perm, pte);
    PteBits(q, perm, pte);
    pte
  }

  // ----- places that hold an entry ---------------------------------------------------

  /** The tables of the page table with root page r, and its mappings. */
  datatype Slot = Root(r: nat) | Mid(r: nat, i: nat) | Low(r: nat, i: nat, j: nat) | Leaf(r: nat, v: nat)

  datatype Owner = Free | Held | By(s: Slot)

  type Tables = map<nat, seq<nat>>
  type Owners = map<nat, Owner>

  /** Word i of page q, 0 if there is none. */
  function Word(tab: Tables, q: nat, i: nat): (w: nat) { if q in tab && i < |tab[q]| then tab[q][i] else 0 }

  /** The table page at a slot, 0 if there is none. */
  function Node(tab: Tables, s: Slot): (q: nat) {
    match s
    case Root(r) => r
    case Mid(r, i) => Follow(Word(tab, r, i))
    case Low(r, i, j) => Follow(Word(tab, Follow(Word(tab, r, i)), j))
    case Leaf(r, v) => 0
  }

  /** The slot of the table that holds the entry of s. */
  function Parent(s: Slot): (p: Slot) {
    match s
    case Root(r) => s
    case Mid(r, i) => Root(r)
    case Low(r, i, j) => Mid(r, i)
    case Leaf(r, v) => Low(r, v / 262144, v / 512 % 512)
  }

  function Index(s: Slot): (i: nat) {
    match s
    case Root(r) => 0
    case Mid(r, i) => i
    case Low(r, i, j) => j
    case Leaf(r, v) => v % 512
  }

  function Depth(s: Slot): (d: nat) { if s.Root? then 0 else if s.Mid? then 1 else if s.Low? then 2 else 3 }

  /** The entry at a slot, 0 if the table that would hold it is missing. */
  function Entry(tab: Tables, s: Slot): (w: nat) {
    if s.Root? then 0 else Word(tab, Node(tab, Parent(s)), Index(s))
  }

  predicate IsSlot(roots: set<nat>, s: Slot) {
    s.r in roots &&
    match s
    case Root(r) => true
    case Mid(r, i) => i < ENTRIES
    case Low(r, i, j) => i < ENTRIES && j < ENTRIES
    case Leaf(r, v) => v < ENTRIES * ENTRIES * ENTRIES
  }

  /** The mappings of user memory own their pages; the trampoline and the trap frame belong to others. */
  predicate Owns(s: Slot) { s.Leaf? ==> s.v < TRAPFRAME }

  /** t lies in the part of the tree below s. */
  predicate Below(t: Slot, s: Slot) {
    t != s && (Parent(t) == s || Parent(Parent(t)) == s || Parent(Parent(Parent(t))) == s)
  }

  /** An entry that is valid points to a table, or maps a page, that is its own. */
  ghost predicate SlotOk(lo: nat, hi: nat, tab: Tables, roots: set<nat>, owner: Owners, s: Slot) {
    IsSlot(roots, s) ==>
      if s.Root? then lo <= s.r < hi && s.r in owner && owner[s.r] == By(s)
      else Present(Entry(tab, s)) ==>
             && (if s.Leaf? then Maps(Entry(tab, s)) && (Owns(s) || !User(Entry(tab, s)))
                 else Flags(Entry(tab, s)) == PTE_V)
             && (Owns(s) ==> lo <= Target(Entry(tab, s)) < hi && Target(Entry(tab, s)) in owner &&
                             owner[Target(Entry(tab, s))] == By(s))
  }

  /** Every page is free, or held by the kernel, or owned by the slot that points to it. */
  ghost predicate PageOk(lo: nat, hi: nat, tab: Tables, roots: set<nat>, owner: Owners, free: seq<nat>, q: nat) {
    && (lo <= q < hi <==> q in owner)
    && (q in owner ==> q in tab && |tab[q]| == ENTRIES) && (q in free <==> q in owner && owner[q] == Free)
    && (q in owner && owner[q].By? ==>
          var s := owner[q].s;
          IsSlot(roots, s) && if s.Root? then s.r == q
            else Owns(s) && Present(Entry(tab, s)) && Target(Entry(tab, s)) == q)
  }

  ghost predicate Ok(lo: nat, hi: nat, tab: Tables, roots: set<nat>, owner: Owners, free: seq<nat>) {
    && 0 < lo && 0 !in tab
    && (forall s :: SlotOk(lo, hi, tab, roots, owner, s))
    && (forall q: nat :: PageOk(lo, hi, tab, roots, owner, free, q))
    && (forall i: nat, j: nat | i < j < |free| :: free[i] != free[j])
  }

  // ----- where every page is ---------------------------------------------------------------

  /** The entry at slot s points to page q, as a table or as user memory. */
  ghost predicate Points(tab: Tables, roots: set<nat>, s: Slot, q: nat) {
    IsSlot(roots, s) && !s.Root? && Owns(s) && Present(Entry(tab, s)) && Target(Entry(tab, s)) == q
  }

  ghost predicate TablePage(tab: Tables, roots: set<nat>, q: nat) {
    exists s: Slot :: !s.Leaf? && Points(tab, roots, s, q)
  }

  ghost predicate UserPage(tab: Tables, roots: set<nat>, q: nat) {
    exists s: Slot :: s.Leaf? && Points(tab, roots, s, q)
  }

  ghost predicate HeldPage(owner: Owners, q: nat) { q in owner && owner[q] == Held }

  /** Page q is free, or a root, or a table below a root, or user memory, or held: one of them. */
  ghost predicate InOnePlace(tab: Tables, roots: set<nat>, owner: Owners, free: seq<nat>, q: nat) {
    var places := [q in free, q in roots, TablePage(tab, roots, q), UserPage(tab, roots, q), HeldPage(owner, q)];
    exists i: nat | i < 5 :: places[i] && forall j: nat | j < 5 && j != i :: !places[j]
  }

  /** A page is in two entries only if they are one. */
  lemma OnePointer(lo: nat, hi: nat, tab: Tables, roots: set<nat>, owner: Owners, free: seq<nat>, s: Slot, t: Slot,
                   q: nat)
    requires Ok(lo, hi, tab, roots, owner, free) && Points(tab, roots, s, q) && Points(tab, roots, t, q)
    ensures s == t && lo <= q < hi
  {
    assert SlotOk(lo, hi, tab, roots, owner, s) && SlotOk(lo, hi, tab, roots, owner, t);
  }

  /** The owner of a page says where it is. */
  lemma PlaceOf(lo: nat, hi: nat, tab: Tables, roots: set<nat>, owner: Owners, free: seq<nat>, q: nat)
    requires Ok(lo, hi, tab, roots, owner, free)
    ensures lo <= q < hi <==> q in owner
    ensures q in free <==> q in owner && owner[q] == Free
    ensures q in roots <==> q in owner && owner[q].By? && owner[q].s.Root?
    ensures TablePage(tab, roots, q) <==> q in owner && owner[q].By? && (owner[q].s.Mid? || owner[q].s.Low?)
    ensures UserPage(tab, roots, q) <==> q in owner && owner[q].By? && owner[q].s.Leaf?
  {
    assert PageOk(lo, hi, tab, roots, owner, free, q) && SlotOk(lo, hi, tab, roots, owner, Root(q));
    if q in owner && owner[q].By? && !owner[q].s.Root? { assert Points(tab, roots, owner[q].s, q); }
    forall s: Slot | Points(tab, roots, s, q) ensures q in owner && owner[q] == By(s) {
      assert SlotOk(lo, hi, tab, roots, owner, s);
    }
  }

  lemma OnePlace(lo: nat, hi: nat, tab: Tables, roots: set<nat>, owner: Owners, free: seq<nat>, q: nat)
    requires Ok(lo, hi, tab, roots, owner, free)
    ensures if lo <= q < hi then InOnePlace(tab, roots, owner, free, q)
            else q !in free && q !in roots && !TablePage(tab, roots, q) && !UserPage(tab, roots, q) &&
                 !HeldPage(owner, q)
  {
    PlaceOf(lo, hi, tab, roots, owner, free, q);
    if lo <= q < hi {
      var o := owner[q];
      var i: nat := if o == Free then 0 else if o == Held then 4 else if o.s.Root? then 1 else if o.s.Leaf? then 3
        else 2;
      var places := [q in free, q in roots, TablePage(tab, roots, q), UserPage(tab, roots, q), HeldPage(owner, q)];
      assert places[i] && forall j: nat | j < 5 && j != i :: !places[j];
    }
  }

  ghost function TablePages(lo: nat, hi: nat, tab: Tables, roots: set<nat>): (r: set<nat>) {
    set q | q in PagesBetween(lo, hi) && TablePage(tab, roots, q)
  }

  ghost function UserPages(lo: nat, hi: nat, tab: Tables, roots: set<nat>): (r: set<nat>) {
    set q | q in PagesBetween(lo, hi) && UserPage(tab, roots, q)
  }

  ghost function HeldPages(lo: nat, hi: nat, owner: Owners): (r: set<nat>) {
    set q | q in PagesBetween(lo, hi) && HeldPage(owner, q)
  }

  /** q is in all exactly if it is in one of the five sets, and never in two of them. */
  predicate Splits(a: set<nat>, b: set<nat>, c: set<nat>, d: set<nat>, e: set<nat>, all: set<nat>, q: nat) {
    && (q in all <==> q in a || q in b || q in c || q in d || q in e)
    && (q in a ==> q !in b) && (q in a || q in b ==> q !in c) && (q in a || q in b || q in c ==> q !in d)
    && (q in a || q in b || q in c || q in d ==> q !in e)
  }

  lemma Count5(a: set<nat>, b: set<nat>, c: set<nat>, d: set<nat>, e: set<nat>, all: set<nat>)
    requires forall q: nat :: Splits(a, b, c, d, e, all, q)
    ensures |a| + |b| + |c| + |d| + |e| == |all|
  {
    var ab := a + b;
    var abc := ab + c;
    var abcd := abc + d;
    forall q: nat
      ensures (q in abcd + e <==> q in all) && (q in a ==> q !in b) && (q in ab ==> q !in c) &&
              (q in abc ==> q !in d) && (q in abcd ==> q !in e) {
      assert Splits(a, b, c, d, e, all, q);
    }
    assert a !! b && ab !! c && abc !! d && abcd !! e && abcd + e == all;
  }

  /** Free pages, roots, tables, user pages and held pages add up to all there are. */
  lemma PagesAddUp(lo: nat, hi: nat, tab: Tables, roots: set<nat>, owner: Owners, free: seq<nat>)
    requires Ok(lo, hi, tab, roots, owner, free) && lo <= hi
    ensures |free| + |roots| + |TablePages(lo, hi, tab, roots)| + |UserPages(lo, hi, tab, roots)| +
            |HeldPages(lo, hi, owner)| == hi - lo
  {
    var f := set i | 0 <= i < |free| :: free[i];
    ImageSize(free);
    var t, u, h := TablePages(lo, hi, tab, roots), UserPages(lo, hi, tab, roots), HeldPages(lo, hi, owner);
    var all := PagesBetween(lo, hi);
    forall q: nat ensures Splits(f, roots, t, u, h, all, q) {
      PlaceOf(lo, hi, tab, roots, owner, free, q);
      assert q in f <==> q in free;
    }
    Count5(f, roots, t, u, h, all);
  }

  /** A table page belongs to its slot, and to no other. */
  lemma NodeOwned(lo: nat, hi: nat, tab: Tables, roots: set<nat>, owner: Owners, s: Slot)
    requires 0 < lo && 0 !in tab && (forall t :: SlotOk(lo, hi, tab, roots, owner, t)) && IsSlot(roots, s) &&
             Node(tab, s) != 0
    ensures lo <= Node(tab, s) < hi && Node(tab, s) in owner && owner[Node(tab, s)] == By(s)
  {
    assert SlotOk(lo, hi, tab, roots, owner, s);
    match s
    case Root(r) =>
    case Mid(r, i) => assert Entry(tab, s) == Word(tab, r, i);
    case Low(r, i, j) => assert Entry(tab, s) == Word(tab, Node(tab, Mid(r, i)), j);
    case Leaf(r, v) =>
  }

  /** Page q is no page table's table. */
  ghost predicate NoTable(owner: Owners, q: nat) { q !in owner || !owner[q].By? || owner[q].s.Leaf? }

  /** A word of the table at slot p changes, and so may page q, which is not a table: this is the
      business only of the entry that the word is, and of what lies below it. */
  ghost predicate Changed(tab: Tables, tab': Tables, owner: Owners, p: nat, i: nat, q: nat) {
    && NoTable(owner, q) && 0 !in tab'
    && forall x: nat, y: nat | x != q && (x != p || y != i) :: Word(tab', x, y) == Word(tab, x, y)
  }

  lemma Untouched(lo: nat, hi: nat, tab: Tables, roots: set<nat>, owner: Owners, tab': Tables, s: Slot, q: nat, t: Slot)
    requires 0 < lo && 0 !in tab && (forall u :: SlotOk(lo, hi, tab, roots, owner, u)) && IsSlot(roots, s) && !s.Root?
    requires Node(tab, Parent(s)) != 0 && Changed(tab, tab', owner, Node(tab, Parent(s)), Index(s), q)
    requires IsSlot(roots, t) && t != s && !Below(t, s)
    ensures Entry(tab', t) == Entry(tab, t) && Node(tab', t) == Node(tab, t)
    decreases Depth(t)
  {
    if !t.Root? {
      var p := Parent(t);
      assert IsSlot(roots, p);
      Untouched(lo, hi, tab, roots, owner, tab', s, q, p);
      if Node(tab, p) != 0 {
        NodeOwned(lo, hi, tab, roots, owner, p);
        NodeOwned(lo, hi, tab, roots, owner, Parent(s));
        SameEntry(s, t);
      }
    }
  }

  /** Two entries of one table with the same index are one entry. */
  lemma SameEntry(s: Slot, t: Slot)
    requires !s.Root? && !t.Root?
    ensures Parent(s) == Parent(t) && Index(s) == Index(t) ==> s == t
  {
    if s.Leaf? && t.Leaf? {
      VpnIndices(s.v);
      VpnIndices(t.v);
    }
  }

  /** The three indices of a page number determine it. */
  lemma VpnIndices(v: nat)
    ensures v == 262144 * (v / 262144) + 512 * (v / 512 % 512) + v % 512
  {
    var w := v / 512;
    assert v == 512 * w + v % 512 && w == 512 * (w / 512) + w % 512;
    assert w / 512 == v / 262144;
  }

  lemma VpnOf(a: nat, b: nat, i: nat)
    requires b < 512 && i < 512
    ensures var v := 262144 * a + 512 * b + i; v / 262144 == a && v / 512 % 512 == b && v % 512 == i
  {
    var v := 262144 * a + 512 * b + i;
    assert v == 512 * (512 * a + b) + i;
    assert v / 512 == 512 * a + b && v % 512 == i;
  }

  // ----- changes to the tree ----------------------------------------------------------

  function PagesBetween(lo: nat, hi: nat): (s: set<nat>)
    ensures |s| == (if lo <= hi then hi - lo else 0) && forall q: nat :: q in s <==> lo <= q < hi
    decreases hi
  {
    if hi <= lo then {} else PagesBetween(lo, hi - 1) + {hi - 1}
  }

  function ZeroTable(): (t: seq<nat>)
    ensures |t| == ENTRIES && forall i | 0 <= i < ENTRIES :: t[i] == 0
  {
    seq(ENTRIES, i => 0)
  }

  function Put(tab: Tables, p: nat, i: nat, w: nat): (r: Tables)
    requires p in tab && i < |tab[p]|
  {
    var row: seq<nat> := tab[p];
    var changed: seq<nat> := row[i := w];
    tab[p := changed]
  }

  /** Below a table that is missing, or has no valid entry, nothing is valid. */
  lemma NothingBelow(tab: Tables, s: Slot, t: Slot)
    requires 0 !in tab && Below(t, s) && forall i: nat :: !Present(Word(tab, Node(tab, s), i))
    ensures !Present(Entry(tab, t)) && (Node(tab, t) == 0 || t.Root?)
    decreases Depth(t)
  {
    if Parent(t) != s { NothingBelow(tab, s, Parent(t)); }
  }

  /** The tables of slot s, and the page where it will be. */
  lemma TableAt(lo: nat, hi: nat, tab: Tables, roots: set<nat>, owner: Owners, free: seq<nat>, s: Slot)
    requires Ok(lo, hi, tab, roots, owner, free) && IsSlot(roots, s) && Node(tab, s) != 0
    ensures Node(tab, s) in tab && |tab[Node(tab, s)]| == ENTRIES && Node(tab, s) in owner &&
            owner[Node(tab, s)] == By(s)
  {
    NodeOwned(lo, hi, tab, roots, owner, s);
    assert PageOk(lo, hi, tab, roots, owner, free, Node(tab, s));
  }

  /** An entry is as it was, or was not valid and still is not. */
  predicate SameAt(tab: Tables, tab': Tables, t: Slot) {
    Present(Entry(tab, t)) || Present(Entry(tab', t)) ==> Entry(tab', t) == Entry(tab, t)
  }

  ghost predicate SameBut(tab: Tables, tab': Tables, roots: set<nat>, s: Slot) {
    forall t | IsSlot(roots, t) && t != s :: SameAt(tab, tab', t)
  }

  predicate SameShape(tab: Tables, tab': Tables) {
    tab'.Keys == tab.Keys && forall x | x in tab :: |tab'[x]| == |tab[x]|
  }

  /** Slot s alone changes, and takes over page q, or none. */
  lemma AttachOk(lo: nat, hi: nat, tab: Tables, roots: set<nat>, owner: Owners, free: seq<nat>, tab': Tables, s: Slot,
                 q: nat)
    requires Ok(lo, hi, tab, roots, owner, free) && SameShape(tab, tab') && SameBut(tab, tab', roots, s) &&
             IsSlot(roots, s) && !s.Root?
    requires !Present(Entry(tab, s)) && Present(Entry(tab', s))
    requires if s.Leaf? then Maps(Entry(tab', s)) && (Owns(s) || !User(Entry(tab', s)))
             else Flags(Entry(tab', s)) == PTE_V
    requires Owns(s) ==> q in owner && owner[q] == Held && Target(Entry(tab', s)) == q
    ensures Ok(lo, hi, tab', roots, if Owns(s) then owner[q := By(s)] else owner, free)
  {
    var owner' := if Owns(s) then owner[q := By(s)] else owner;
    assert PageOk(lo, hi, tab, roots, owner, free, q);
    forall t ensures SlotOk(lo, hi, tab', roots, owner', t) {
      assert SlotOk(lo, hi, tab, roots, owner, t) && (IsSlot(roots, t) && t != s ==> SameAt(tab, tab', t));
    }
    forall x: nat ensures PageOk(lo, hi, tab', roots, owner', free, x) {
      assert PageOk(lo, hi, tab, roots, owner, free, x);
      if x in owner && owner[x].By? && owner[x].s != s { assert SameAt(tab, tab', owner[x].s); }
    }
  }

  /** Slot s alone changes, and gives up its page, if it has one. */
  lemma DetachOk(lo: nat, hi: nat, tab: Tables, roots: set<nat>, owner: Owners, free: seq<nat>, tab': Tables, s: Slot)
    requires Ok(lo, hi, tab, roots, owner, free) && SameShape(tab, tab') && SameBut(tab, tab', roots, s) &&
             IsSlot(roots, s) && !s.Root?
    requires Present(Entry(tab, s)) && !Present(Entry(tab', s))
    ensures Owns(s) ==> Target(Entry(tab, s)) in owner && owner[Target(Entry(tab, s))] == By(s)
    ensures Ok(lo, hi, tab', roots, if Owns(s) then owner[Target(Entry(tab, s)) := Held] else owner, free)
  {
    var q := Target(Entry(tab, s));
    var owner' := if Owns(s) then owner[q := Held] else owner;
    assert SlotOk(lo, hi, tab, roots, owner, s) && PageOk(lo, hi, tab, roots, owner, free, q);
    forall t ensures SlotOk(lo, hi, tab', roots, owner', t) {
      assert SlotOk(lo, hi, tab, roots, owner, t) && (IsSlot(roots, t) && t != s ==> SameAt(tab, tab', t));
    }
    forall x: nat ensures PageOk(lo, hi, tab', roots, owner', free, x) {
      assert PageOk(lo, hi, tab, roots, owner, free, x);
      if x in owner && owner[x].By? && owner[x].s != s { assert SameAt(tab, tab', owner[x].s); }
    }
  }

  /** An entry that is not valid becomes a pointer to the zeroed table q. */
  lemma AttachTable(lo: nat, hi: nat, tab: Tables, roots: set<nat>, owner: Owners, free: seq<nat>, s: Slot, q: nat)
    requires Ok(lo, hi, tab, roots, owner, free) && IsSlot(roots, s) && (s.Mid? || s.Low?) && q in owner &&
             owner[q] == Held
    requires Node(tab, Parent(s)) != 0 && !Present(Entry(tab, s))
    ensures Node(tab, Parent(s)) in tab && Index(s) < |tab[Node(tab, Parent(s))]| && Node(tab, Parent(s)) != q
    ensures var tab' := Put(tab[q := ZeroTable()], Node(tab, Parent(s)), Index(s), MakePte(q, 0));
            Ok(lo, hi, tab', roots, owner[q := By(s)], free) && Node(tab', s) == q && SameBut(tab, tab', roots, s)
  {
    var p := Node(tab, Parent(s));
    TableAt(lo, hi, tab, roots, owner, free, Parent(s));
    assert PageOk(lo, hi, tab, roots, owner, free, q);
    var tab' := Put(tab[q := ZeroTable()], p, Index(s), MakePte(q, 0));
    assert Changed(tab, tab', owner, p, Index(s), q);
    Untouched(lo, hi, tab, roots, owner, tab', s, q, Parent(s));
    forall t | IsSlot(roots, t) && t != s ensures SameAt(tab, tab', t) {
      if Below(t, s) {
        NothingBelow(tab, s, t);
        NothingBelow(tab', s, t);
      } else {
        Untouched(lo, hi, tab, roots, owner, tab', s, q, t);
      }
    }
    AttachOk(lo, hi, tab, roots, owner, free, tab', s, q);
  }

  /** A mapping appears, or changes, or goes: word w at leaf s. */
  lemma LeafPut(lo: nat, hi: nat, tab: Tables, roots: set<nat>, owner: Owners, free: seq<nat>, s: Slot, w: nat)
    requires Ok(lo, hi, tab, roots, owner, free) && IsSlot(roots, s) && s.Leaf? && Node(tab, Parent(s)) != 0
    ensures Node(tab, Parent(s)) in tab && Index(s) < |tab[Node(tab, Parent(s))]|
    ensures var tab' := Put(tab, Node(tab, Parent(s)), Index(s), w);
            SameShape(tab, tab') && SameBut(tab, tab', roots, s) && Entry(tab', s) == w &&
              Node(tab', Parent(s)) == Node(tab, Parent(s))
  {
    var p := Node(tab, Parent(s));
    TableAt(lo, hi, tab, roots, owner, free, Parent(s));
    assert PageOk(lo, hi, tab, roots, owner, free, 0);
    var tab' := Put(tab, p, Index(s), w);
    assert Changed(tab, tab', owner, p, Index(s), 0);
    Untouched(lo, hi, tab, roots, owner, tab', s, 0, Parent(s));
    forall t | IsSlot(roots, t) && t != s ensures SameAt(tab, tab', t) {
      Untouched(lo, hi, tab, roots, owner, tab', s, 0, t);
    }
  }

  /** A pointer to a table without valid entries is cleared. */
  lemma DetachTable(lo: nat, hi: nat, tab: Tables, roots: set<nat>, owner: Owners, free: seq<nat>, s: Slot)
    requires Ok(lo, hi, tab, roots, owner, free) && IsSlot(roots, s) && (s.Mid? || s.Low?) && Present(Entry(tab, s))
    requires forall i: nat :: !Present(Word(tab, Node(tab, s), i))
    ensures Node(tab, Parent(s)) in tab && Index(s) < |tab[Node(tab, Parent(s))]| && Node(tab, s) in owner
    ensures var tab' := Put(tab, Node(tab, Parent(s)), Index(s), 0);
            Ok(lo, hi, tab', roots, owner[Node(tab, s) := Held], free) && SameBut(tab, tab', roots, s)
  {
    var p := Node(tab, Parent(s));
    assert SlotOk(lo, hi, tab, roots, owner, s) && PageOk(lo, hi, tab, roots, owner, free, 0);
    TableAt(lo, hi, tab, roots, owner, free, Parent(s));
    var tab' := Put(tab, p, Index(s), 0);
    assert Changed(tab, tab', owner, p, Index(s), 0);
    Untouched(lo, hi, tab, roots, owner, tab', s, 0, Parent(s));
    forall t | IsSlot(roots, t) && t != s ensures SameAt(tab, tab', t) {
      if Below(t, s) {
        NothingBelow(tab, s, t);
        NothingBelow(tab', s, t);
      } else {
        Untouched(lo, hi, tab, roots, owner, tab', s, 0, t);
      }
    }
    DetachOk(lo, hi, tab, roots, owner, free, tab', s);
  }

  /** Page q is no table, so no entry is read from it. */
  lemma Unread(lo: nat, hi: nat, tab: Tables, roots: set<nat>, owner: Owners, q: nat, row: seq<nat>, t: Slot)
    requires 0 < lo && 0 !in tab && (forall u :: SlotOk(lo, hi, tab, roots, owner, u)) && q != 0 &&
             NoTable(owner, q) && IsSlot(roots, t)
    ensures Entry(tab[q := row], t) == Entry(tab, t) && Node(tab[q := row], t) == Node(tab, t)
    decreases Depth(t)
  {
    if !t.Root? {
      Unread(lo, hi, tab, roots, owner, q, row, Parent(t));
      if Node(tab, Parent(t)) != 0 { NodeOwned(lo, hi, tab, roots, owner, Parent(t)); }
    }
  }

  lemma UnreadOk(lo: nat, hi: nat, tab: Tables, roots: set<nat>, owner: Owners, free: seq<nat>, q: nat, row: seq<nat>)
    requires Ok(lo, hi, tab, roots, owner, free) && q in owner && NoTable(owner, q) && |row| == ENTRIES
    ensures Ok(lo, hi, tab[q := row], roots, owner, free) && Same(tab, tab[q := row], roots)
  {
    var tab' := tab[q := row];
    assert PageOk(lo, hi, tab, roots, owner, free, q);
    forall t | IsSlot(roots, t) ensures SameAt(tab, tab', t) && Entry(tab', t) == Entry(tab, t) {
      Unread(lo, hi, tab, roots, owner, q, row, t);
    }
    forall t ensures SlotOk(lo, hi, tab', roots, owner, t) {
      assert SlotOk(lo, hi, tab, roots, owner, t);
    }
    forall x: nat ensures PageOk(lo, hi, tab', roots, owner, free, x) {
      assert PageOk(lo, hi, tab, roots, owner, free, x);
    }
  }

  /** Every entry is as it was. */
  ghost predicate Same(tab: Tables, tab': Tables, roots: set<nat>) {
    forall t | IsSlot(roots, t) :: SameAt(tab, tab', t)
  }

  lemma AllocOk(lo: nat, hi: nat, tab: Tables, roots: set<nat>, owner: Owners, free: seq<nat>)
    requires Ok(lo, hi, tab, roots, owner, free) && free != []
    ensures free[0] != 0 && free[0] in owner && owner[free[0]] == Free &&
            Ok(lo, hi, tab, roots, owner[free[0] := Held], free[1..])
  {
    var q, rest := free[0], free[1..];
    var owner' := owner[q := Held];
    assert PageOk(lo, hi, tab, roots, owner, free, q);
    forall t ensures SlotOk(lo, hi, tab, roots, owner', t) {
      assert SlotOk(lo, hi, tab, roots, owner, t);
    }
    forall x: nat ensures PageOk(lo, hi, tab, roots, owner', rest, x) {
      assert PageOk(lo, hi, tab, roots, owner, free, x) && free == [q] + rest;
    }
  }

  lemma ReleaseOk(lo: nat, hi: nat, tab: Tables, roots: set<nat>, owner: Owners, free: seq<nat>, q: nat)
    requires Ok(lo, hi, tab, roots, owner, free) && q in owner && owner[q] == Held
    ensures Ok(lo, hi, tab, roots, owner[q := Free], [q] + free)
  {
    var owner', more := owner[q := Free], [q] + free;
    assert PageOk(lo, hi, tab, roots, owner, free, q);
    forall t ensures SlotOk(lo, hi, tab, roots, owner', t) {
      assert SlotOk(lo, hi, tab, roots, owner, t);
    }
    forall x: nat ensures PageOk(lo, hi, tab, roots, owner', more, x) {
      assert PageOk(lo, hi, tab, roots, owner, free, x);
    }
  }

  /** A held page, zeroed, becomes the root of an empty page table. */
  lemma NewRootOk(lo: nat, hi: nat, tab: Tables, roots: set<nat>, owner: Owners, free: seq<nat>, q: nat)
    requires Ok(lo, hi, tab, roots, owner, free) && q in owner && owner[q] == Held
    ensures q !in roots && Ok(lo, hi, tab[q := ZeroTable()], roots + {q}, owner[q := By(Root(q))], free)
    ensures forall t | IsSlot(roots + {q}, t) && t.r == q :: !Present(Entry(tab[q := ZeroTable()], t))
    ensures Same(tab, tab[q := ZeroTable()], roots)
  {
    var tab', roots', owner' := tab[q := ZeroTable()], roots + {q}, owner[q := By(Root(q))];
    assert SlotOk(lo, hi, tab, roots, owner, Root(q)) && PageOk(lo, hi, tab, roots, owner, free, q);
    UnreadOk(lo, hi, tab, roots, owner, free, q, ZeroTable());
    forall t | IsSlot(roots', t) && t.r == q ensures !Present(Entry(tab', t)) {
      if !t.Root? { NothingBelow(tab', Root(q), t); }
    }
    forall t ensures SlotOk(lo, hi, tab', roots', owner', t) {
      assert SlotOk(lo, hi, tab', roots, owner, t);
    }
    forall x: nat ensures PageOk(lo, hi, tab', roots', owner', free, x) {
      assert PageOk(lo, hi, tab', roots, owner, free, x);
    }
  }

  /** The root of a page table without valid entries is given back. */
  lemma DropRootOk(lo: nat, hi: nat, tab: Tables, roots: set<nat>, owner: Owners, free: seq<nat>, r: nat)
    requires Ok(lo, hi, tab, roots, owner, free) && r in roots && forall i: nat :: !Present(Word(tab, r, i))
    ensures r in owner && Ok(lo, hi, tab, roots - {r}, owner[r := Held], free)
  {
    assert SlotOk(lo, hi, tab, roots, owner, Root(r)) && PageOk(lo, hi, tab, roots, owner, free, r);
    var roots', owner' := roots - {r}, owner[r := Held];
    forall t ensures SlotOk(lo, hi, tab, roots', owner', t) {
      assert SlotOk(lo, hi, tab, roots, owner, t);
    }
    forall x: nat ensures PageOk(lo, hi, tab, roots', owner', free, x) {
      assert PageOk(lo, hi, tab, roots, owner, free, x);
      if x in owner && owner[x].By? && owner[x].s.r == r && !owner[x].s.Root? {
        NothingBelow(tab, Root(r), owner[x].s);
      }
    }
  }

  // ----- the machine ------------------------------------------------------------------------

  type Byte = x: nat | x < 256
  type Bytes = map<nat, seq<Byte>>

  /** s is the mapping of one of the n pages from v on, in page table r. */
  predicate InRange(s: Slot, r: nat, v: nat, n: nat) { s.Leaf? && s.r == r && v <= s.v < v + n }

  predicate IsTable(s: Slot, r: nat) { s.r == r && (s.Mid? || s.Low?) }

  /** Mappings outside the range are as they were. */
  ghost predicate LeavesBut(tab: Tables, tab': Tables, roots: set<nat>, r: nat, v: nat, n: nat) {
    forall t | IsSlot(roots, t) && t.Leaf? && !InRange(t, r, v, n) :: SameAt(tab, tab', t)
  }

  /** A page changes hands only between the free list and the range, or from these to a table of r. */
  ghost predicate HandsAt(owner: Owners, owner': Owners, r: nat, v: nat, n: nat, q: nat)
    requires q in owner && q in owner'
  {
    || owner'[q] == owner[q]
    || (&& (owner[q] == Free || (owner[q].By? && InRange(owner[q].s, r, v, n)))
        && (owner'[q] == Free || (owner'[q].By? && (InRange(owner'[q].s, r, v, n) || IsTable(owner'[q].s, r)))))
  }

  ghost predicate Hands(owner: Owners, owner': Owners, r: nat, v: nat, n: nat) {
    owner'.Keys == owner.Keys && forall q | q in owner :: HandsAt(owner, owner', r, v, n, q)
  }

  /** The pages of the range are left to the kernel, and no other changes hands. */
  ghost predicate Withheld(owner: Owners, owner': Owners, r: nat, v: nat, n: nat) {
    owner'.Keys == owner.Keys && forall q | q in owner :: WithheldAt(owner, owner', r, v, n, q)
  }

  ghost predicate WithheldAt(owner: Owners, owner': Owners, r: nat, v: nat, n: nat, q: nat)
    requires q in owner && q in owner'
  {
    owner'[q] == if owner[q].By? && InRange(owner[q].s, r, v, n) then Held else owner[q]
  }

  lemma WithheldOne(lo: nat, hi: nat, tab: Tables, roots: set<nat>, owner: Owners, free: seq<nat>, r: nat, v: nat)
    requires Ok(lo, hi, tab, roots, owner, free) && IsSlot(roots, Leaf(r, v)) && Present(Entry(tab, Leaf(r, v)))
    ensures var q, s := Target(Entry(tab, Leaf(r, v))), Leaf(r, v);
            Withheld(owner, if Owns(s) then owner[q := Held] else owner, r, v, 1)
  {
    var s := Leaf(r, v);
    assert SlotOk(lo, hi, tab, roots, owner, s);
    var owner' := if Owns(s) then owner[Target(Entry(tab, s)) := Held] else owner;
    forall q | q in owner ensures WithheldAt(owner, owner', r, v, 1, q) {
      assert PageOk(lo, hi, tab, roots, owner, free, q);
    }
  }

  lemma WithheldMore(o0: Owners, o1: Owners, o2: Owners, r: nat, v: nat, k: nat)
    requires Withheld(o0, o1, r, v, k) && Withheld(o1, o2, r, v + k, 1)
    ensures Withheld(o0, o2, r, v, k + 1)
  {
    forall q | q in o0 ensures WithheldAt(o0, o2, r, v, k + 1, q) {
      assert WithheldAt(o0, o1, r, v, k, q) && WithheldAt(o1, o2, r, v + k, 1, q);
    }
  }

  lemma LeavesMore(t0: Tables, t1: Tables, t2: Tables, roots: set<nat>, r: nat, v: nat, n: nat, a: nat)
    requires LeavesBut(t0, t1, roots, r, v, n) && LeavesBut(t1, t2, roots, r, a, 1) && v <= a < v + n
    ensures LeavesBut(t0, t2, roots, r, v, n)
  {
    forall t | IsSlot(roots, t) && t.Leaf? && !InRange(t, r, v, n) ensures SameAt(t0, t2, t) {
      assert !InRange(t, r, a, 1) && SameAt(t0, t1, t) && SameAt(t1, t2, t);
    }
  }

  /** Page q was in use, and not for the range. */
  predicate Elsewhere(owner: Owners, r: nat, v: nat, n: nat, q: nat) {
    q in owner && owner[q] != Free && !(owner[q].By? && InRange(owner[q].s, r, v, n))
  }

  /** The bytes of pages in use elsewhere are as they were. */
  ghost predicate BytesBut(dat: Bytes, dat': Bytes, owner: Owners, r: nat, v: nat, n: nat) {
    dat'.Keys == dat.Keys && forall x | x in dat && Elsewhere(owner, r, v, n, x) :: dat'[x] == dat[x]
  }

  /** What a change to the range of page table r leaves alone. */
  ghost predicate Frame(tab: Tables, tab': Tables, dat: Bytes, dat': Bytes,
                        owner: Owners, owner': Owners, roots: set<nat>, r: nat, v: nat, n: nat) {
    LeavesBut(tab, tab', roots, r, v, n) && Hands(owner, owner', r, v, n) && BytesBut(dat, dat', owner, r, v, n)
  }

  lemma FrameTwice(tab: Tables, t1: Tables, t2: Tables, dat: Bytes, d1: Bytes, d2: Bytes,
                   owner: Owners, o1: Owners, o2: Owners, roots: set<nat>, r: nat, v: nat, n: nat)
    requires Frame(tab, t1, dat, d1, owner, o1, roots, r, v, n) && Frame(t1, t2, d1, d2, o1, o2, roots, r, v, n)
    ensures Frame(tab, t2, dat, d2, owner, o2, roots, r, v, n)
  {
    forall t | IsSlot(roots, t) && t.Leaf? && !InRange(t, r, v, n) ensures SameAt(tab, t2, t) {
      assert SameAt(tab, t1, t) && SameAt(t1, t2, t);
    }
    forall q | q in owner ensures HandsAt(owner, o2, r, v, n, q) {
      assert HandsAt(owner, o1, r, v, n, q) && HandsAt(o1, o2, r, v, n, q);
    }
    forall x | x in dat && Elsewhere(owner, r, v, n, x) ensures d2[x] == dat[x] {
      assert HandsAt(owner, o1, r, v, n, x) && Elsewhere(o1, r, v, n, x);
    }
  }

  /** A smaller range leaves more alone. */
  lemma FrameWider(tab: Tables, t1: Tables, dat: Bytes, d1: Bytes,
                   owner: Owners, o1: Owners, roots: set<nat>, r: nat, v: nat, n: nat, v': nat, n': nat)
    requires Frame(tab, t1, dat, d1, owner, o1, roots, r, v, n) && (n == 0 || v' <= v <= v + n <= v' + n')
    ensures Frame(tab, t1, dat, d1, owner, o1, roots, r, v', n')
  {
    forall q | q in owner ensures HandsAt(owner, o1, r, v', n', q) {
      assert HandsAt(owner, o1, r, v, n, q);
    }
    forall x | x in dat && Elsewhere(owner, r, v', n', x) ensures d1[x] == dat[x] {
      assert Elsewhere(owner, r, v, n, x);
    }
  }

  /** owner with the n pages from q on back in the hands of the caller. */
  ghost function Lent(owner: Owners, q: nat, n: nat): (r: Owners) {
    map x | x in owner :: if q <= x < q + n then Held else owner[x]
  }

  /** The first n pages from v on map the pages from q on, and no other mapping has changed. */
  ghost predicate Mapped(tab: Tables, tab': Tables, roots: set<nat>, r: nat, v: nat, n: nat, q: nat, perm: nat)
    requires perm < 1024 && perm % 2 == 0
  {
    LeavesBut(tab, tab', roots, r, v, n) && forall k: nat | k < n :: MappedAt(tab', r, v, q, perm, k)
  }

  predicate MappedAt(tab: Tables, r: nat, v: nat, q: nat, perm: nat, k: nat)
    requires perm < 1024 && perm % 2 == 0
  {
    Entry(tab, Leaf(r, v + k)) == MakePte(q + k, perm)
  }

  /** Page v + k is not mapped, and its page is the caller's to give. */
  predicate ReadyAt(tab: Tables, owner: Owners, r: nat, v: nat, q: nat, k: nat) {
    !Present(Entry(tab, Leaf(r, v + k))) && (q + k in owner ==> owner[q + k] == Held) &&
      (v + k < TRAPFRAME ==> q + k in owner)
  }

  /** The pages from q on belong to the mappings from v on, unless these own nothing. */
  ghost predicate Taken(owner: Owners, r: nat, v: nat, q: nat, n: nat) {
    forall x | x in owner && q <= x < q + n :: owner[x] == if v + (x - q) < TRAPFRAME then By(Leaf(r, v + (x - q)))
      else Held
  }

  /** m of the pages from v on are mapped to those from q on; page tables may have grown for it. */
  ghost predicate MapState(tab: Tables, t1: Tables, dat: Bytes, d1: Bytes, owner: Owners, o1: Owners,
                           roots: set<nat>, r: nat, v: nat, m: nat, q: nat, perm: nat) {
    && perm < 1024 && perm % 2 == 0 && Mapped(tab, t1, roots, r, v, m, q, perm)
    && o1.Keys == owner.Keys && Hands(owner, Lent(o1, q, m), r, 0, 0) && Taken(o1, r, v, q, m)
    && BytesBut(dat, d1, owner, r, 0, 0)
  }

  lemma MappedNext(tab: Tables, t1: Tables, t2: Tables, roots: set<nat>, r: nat, v: nat, n: nat, q: nat, perm: nat)
    requires perm < 1024 && perm % 2 == 0 && r in roots && v + n < VPNS
    requires Mapped(tab, t1, roots, r, v, n, q, perm) && Mapped(t1, t2, roots, r, v + n, 1, q + n, perm)
    ensures Mapped(tab, t2, roots, r, v, n + 1, q, perm)
  {
    assert MappedAt(t2, r, v + n, q + n, perm, 0);
    forall k: nat | k < n + 1 ensures MappedAt(t2, r, v, q, perm, k) {
      if k < n { assert MappedAt(t1, r, v, q, perm, k) && SameAt(t1, t2, Leaf(r, v + k)); }
    }
    forall t | IsSlot(roots, t) && t.Leaf? && !InRange(t, r, v, n + 1) ensures SameAt(tab, t2, t) {
      assert !InRange(t, r, v, n) && !InRange(t, r, v + n, 1) && SameAt(tab, t1, t) && SameAt(t1, t2, t);
    }
  }

  lemma LentNext(owner: Owners, o1: Owners, o2: Owners, r: nat, q: nat, n: nat)
    requires Hands(owner, Lent(o1, q, n), r, 0, 0) && Hands(o1, Lent(o2, q + n, 1), r, 0, 0)
    requires q + n in o1 ==> o1[q + n] == Held
    requires forall x | x in o1 && q <= x < q + n :: o2[x] == o1[x]
    ensures Hands(owner, Lent(o2, q, n + 1), r, 0, 0)
  {
    forall x | x in owner ensures HandsAt(owner, Lent(o2, q, n + 1), r, 0, 0, x) {
      assert HandsAt(owner, Lent(o1, q, n), r, 0, 0, x) && HandsAt(o1, Lent(o2, q + n, 1), r, 0, 0, x);
    }
  }

  /** Bytes change in page q alone. */
  ghost predicate OnlyPage(dat: Bytes, dat': Bytes, q: nat) {
    dat'.Keys == dat.Keys && forall x | x in dat && x != q :: dat'[x] == dat[x]
  }

  /** Entries being the same, the tables are where they were. */
  lemma SameNode(tab: Tables, tab': Tables, roots: set<nat>, s: Slot)
    requires Same(tab, tab', roots) && IsSlot(roots, s)
    ensures Node(tab', s) == Node(tab, s)
  {
    assert SameAt(tab, tab', s);
    if s.Low? { assert SameAt(tab, tab', Mid(s.r, s.i)); }
  }

  /** User code may read page v. */
  predicate Readable(tab: Tables, r: nat, v: nat) {
    v < VPNS && Present(Entry(tab, Leaf(r, v))) && User(Entry(tab, Leaf(r, v)))
  }

  predicate CanRead(tab: Tables, r: nat, va: nat) { Readable(tab, r, va / PGSIZE) }

  /** The byte of user memory at va. */
  function UserByte(tab: Tables, dat: Bytes, r: nat, va: nat): (x: Byte) {
    var q := Target(Entry(tab, Leaf(r, va / PGSIZE)));
    if q in dat && va % PGSIZE < |dat[q]| then dat[q][va % PGSIZE] else 0
  }

  predicate ReadsAt(tab: Tables, dat: Bytes, r: nat, va: nat, b: seq<Byte>, k: nat) {
    k < |b| ==> CanRead(tab, r, va + k) && b[k] == UserByte(tab, dat, r, va + k)
  }

  /** b is what user code reads from va on, byte by byte. */
  ghost predicate Reads(tab: Tables, dat: Bytes, r: nat, va: nat, b: seq<Byte>) {
    forall k: nat :: ReadsAt(tab, dat, r, va, b, k)
  }

  predicate CanWrite(tab: Tables, r: nat, va: nat) { CanRead(tab, r, va) && Writable(Entry(tab, Leaf(r, va / PGSIZE))) }

  function Patch(b: seq<Byte>, at: nat, chunk: seq<Byte>): (p: seq<Byte>)
    requires at + |chunk| <= |b|
    ensures |p| == |b| && forall k | 0 <= k < |b| :: p[k] == if at <= k < at + |chunk| then chunk[k - at] else b[k]
  {
    b[..at] + chunk + b[at + |chunk|..]
  }

  /** The user byte at va of page table s, once d has been written to page table r from dst on. */
  predicate WroteAt(tab: Tables, dat: Bytes, dat': Bytes, r: nat, dst: nat, d: seq<Byte>, s: nat, va: nat) {
    Readable(tab, s, va / PGSIZE) ==>
      UserByte(tab, dat', s, va) == if s == r && dst <= va < dst + |d| then d[va - dst] else UserByte(tab, dat, s, va)
  }

  /** d has been written to page table r from dst on; no other user byte has changed, nor any page that is not user
      memory of r. */
  ghost predicate WroteOut(tab: Tables, dat: Bytes, dat': Bytes, owner: Owners, roots: set<nat>, r: nat, dst: nat,
                           d: seq<Byte>) {
    && (forall s: nat, va: nat :: s in roots ==> WroteAt(tab, dat, dat', r, dst, d, s, va))
    && dat'.Keys == dat.Keys && forall q | q in dat &&
      !(q in owner && owner[q].By? && owner[q].s.Leaf? && owner[q].s.r == r) :: dat'[q] == dat[q]
  }

  lemma WroteMore(lo: nat, hi: nat, tab: Tables, dat: Bytes, d1: Bytes, owner: Owners, free: seq<nat>, roots: set<nat>,
                  r: nat, dst: nat, d: seq<Byte>, va: nat, chunk: seq<Byte>, q: nat)
    requires Ok(lo, hi, tab, roots, owner, free) && va == dst + |d| && va % PGSIZE + |chunk| <= PGSIZE && r in roots
    requires q == Target(Entry(tab, Leaf(r, va / PGSIZE))) && q in owner && owner[q] == By(Leaf(r, va / PGSIZE)) &&
             q in d1 && |d1[q]| == PGSIZE
    requires WroteOut(tab, dat, d1, owner, roots, r, dst, d)
    ensures WroteOut(tab, dat, d1[q := Patch(d1[q], va % PGSIZE, chunk)], owner, roots, r, dst, d + chunk)
  {
    var d2, e := d1[q := Patch(d1[q], va % PGSIZE, chunk)], d + chunk;
    forall s: nat, x: nat ensures s in roots ==> WroteAt(tab, dat, d2, r, dst, e, s, x) {
      if s in roots {
        assert WroteAt(tab, dat, d1, r, dst, d, s, x) && SlotOk(lo, hi, tab, roots, owner, Leaf(s, x / PGSIZE));
        PageOffset(va, x, |chunk|);
      }
    }
  }

  ghost predicate AllWritable(tab: Tables, r: nat, from: nat, to: nat) {
    forall x: nat | from <= x < to :: CanWrite(tab, r, x)
  }

  lemma WritableMore(tab: Tables, r: nat, from: nat, va: nat, n: nat)
    requires from <= va && va % PGSIZE + n <= PGSIZE && AllWritable(tab, r, from, va) && CanWrite(tab, r, va)
    ensures AllWritable(tab, r, from, va + n)
  {
    forall x: nat | from <= x < va + n ensures CanWrite(tab, r, x) {
      PageOffset(va, x, n);
    }
  }

  /** A chunk that stays within the page of va: which bytes of that page it is. */
  lemma PageOffset(va: nat, x: nat, n: nat)
    requires va % PGSIZE + n <= PGSIZE
    ensures va <= x < va + n ==> x / PGSIZE == va / PGSIZE
    ensures x / PGSIZE == va / PGSIZE ==> (va <= x < va + n <==> va % PGSIZE <= x % PGSIZE < va % PGSIZE + n) &&
                                          x - va == x % PGSIZE - va % PGSIZE
  {
  }

  /** A chunk that does not end the copy ends the page. */
  lemma PageEnds(va: nat, n: nat, left: nat)
    requires n == if PGSIZE - va % PGSIZE > left then left else PGSIZE - va % PGSIZE
    ensures n < left ==> va / PGSIZE * PGSIZE + PGSIZE == va + n
  {
  }

  predicate NoZero(b: seq<Byte>) { forall i | 0 <= i < |b| :: b[i] != 0 }

  /** b is the string that user code reads at va. */
  ghost predicate IsString(tab: Tables, dat: Bytes, r: nat, va: nat, b: seq<Byte>) {
    NoZero(b) && Reads(tab, dat, r, va, b + [0])
  }

  lemma SamePage(va: nat, k: nat)
    requires va % PGSIZE + k < PGSIZE
    ensures (va + k) / PGSIZE == va / PGSIZE && (va + k) % PGSIZE == va % PGSIZE + k
  {
  }

  /** The next n bytes lie in page q. */
  lemma ReadsMore(tab: Tables, dat: Bytes, r: nat, va: nat, b: seq<Byte>, at: nat, n: nat, q: nat)
    requires at == va + |b| && at % PGSIZE + n <= PGSIZE && Readable(tab, r, at / PGSIZE) &&
             q == Target(Entry(tab, Leaf(r, at / PGSIZE)))
    requires q in dat && |dat[q]| == PGSIZE && Reads(tab, dat, r, va, b)
    ensures Reads(tab, dat, r, va, b + dat[q][at % PGSIZE..at % PGSIZE + n])
  {
    var c := b + dat[q][at % PGSIZE..at % PGSIZE + n];
    forall k: nat ensures ReadsAt(tab, dat, r, va, c, k) {
      assert ReadsAt(tab, dat, r, va, b, k);
      if |b| <= k < |c| { SamePage(at, k - |b|); }
    }
  }

  lemma ReadsZero(tab: Tables, dat: Bytes, r: nat, va: nat, b: seq<Byte>, at: nat, m: nat, q: nat)
    requires at + m == va + |b| && at % PGSIZE + m < PGSIZE && Readable(tab, r, at / PGSIZE) &&
             q == Target(Entry(tab, Leaf(r, at / PGSIZE)))
    requires q in dat && |dat[q]| == PGSIZE && dat[q][at % PGSIZE + m] == 0 && Reads(tab, dat, r, va, b)
    ensures Reads(tab, dat, r, va, b + [0])
  {
    SamePage(at, m);
    var c := b + [0];
    forall k: nat ensures ReadsAt(tab, dat, r, va, c, k) {
      assert ReadsAt(tab, dat, r, va, b, k);
    }
  }

  lemma ReadsAll(tab: Tables, dat: Bytes, r: nat, va: nat, b: seq<Byte>)
    requires Reads(tab, dat, r, va, b)
    ensures forall x: nat | va <= x < va + |b| :: CanRead(tab, r, x)
  {
    forall x: nat | va <= x < va + |b| ensures CanRead(tab, r, x) {
      assert ReadsAt(tab, dat, r, va, b, x - va);
    }
  }

  /** No zero among the bytes read, and either all max of them are or the next cannot be read: there is no string. */
  lemma Unterminated(tab: Tables, dat: Bytes, r: nat, va: nat, b: seq<Byte>, max: nat, stuck: bool)
    requires NoZero(b) && Reads(tab, dat, r, va, b) && |b| <= max && if stuck then !CanRead(tab, r, va + |b|)
             else |b| == max
    ensures forall c: seq<Byte> | |c| < max :: !IsString(tab, dat, r, va, c)
  {
    forall c: seq<Byte> | |c| < max ensures !IsString(tab, dat, r, va, c) {
      var z := c + [0];
      if |c| < |b| {
        assert ReadsAt(tab, dat, r, va, b, |c|) && z[|c|] == 0;
        assert !ReadsAt(tab, dat, r, va, z, |c|);
      } else {
        assert !ReadsAt(tab, dat, r, va, z, |b|);
      }
    }
  }

  // ----- a page table in the making ---------------------------------------------------------

  predicate TookAt(owner: Owners, owner': Owners, r: nat, q: nat) {
    q in owner && q in owner' && !OfTable(owner[q], r) &&
      (owner'[q] == owner[q] || (owner[q] == Free && OfTable(owner'[q], r)))
  }

  /** While page table r is made, pages go to it from the free list, and all else is as it was. */
  ghost predicate Aside(tab: Tables, t1: Tables, dat: Bytes, d1: Bytes, owner: Owners, o1: Owners, roots: set<nat>,
                        r: nat) {
    && LeavesBut(tab, t1, roots, 0, 0, 0) && BytesBut(dat, d1, owner, 0, 0, 0)
    && o1.Keys == owner.Keys && forall q | q in owner :: TookAt(owner, o1, r, q)
  }

  lemma Created(lo: nat, hi: nat, free: seq<nat>, tab: Tables, t1: Tables, dat: Bytes, d1: Bytes, owner: Owners,
                o1: Owners, roots: set<nat>, r: nat)
    requires Ok(lo, hi, tab, roots, owner, free) && r !in roots && r in owner && owner[r] == Free &&
             o1 == owner[r := By(Root(r))] && Same(tab, t1, roots) && OnlyPage(dat, d1, r)
    requires forall t | IsSlot(roots + {r}, t) && t.r == r :: !Present(Entry(t1, t))
    ensures Aside(tab, t1, dat, d1, owner, o1, roots, r) && Space(t1, roots + {r}, r, 0, {})
  {
    forall q | q in owner ensures TookAt(owner, o1, r, q) {
      assert PageOk(lo, hi, tab, roots, owner, free, q);
    }
  }

  lemma AsideFrame(tab: Tables, t1: Tables, t2: Tables, dat: Bytes, d1: Bytes, d2: Bytes,
                   owner: Owners, o1: Owners, o2: Owners, roots: set<nat>, r: nat, v: nat, n: nat)
    requires r !in roots && Aside(tab, t1, dat, d1, owner, o1, roots, r) &&
             Frame(t1, t2, d1, d2, o1, o2, roots + {r}, r, v, n)
    ensures Aside(tab, t2, dat, d2, owner, o2, roots, r)
  {
    forall t | IsSlot(roots, t) && t.Leaf? && !InRange(t, 0, 0, 0) ensures SameAt(tab, t2, t) {
      assert SameAt(tab, t1, t) && IsSlot(roots + {r}, t) && !InRange(t, r, v, n) && SameAt(t1, t2, t);
    }
    forall q | q in owner ensures TookAt(owner, o2, r, q) {
      assert TookAt(owner, o1, r, q) && HandsAt(o1, o2, r, v, n, q);
    }
    forall x | x in dat && Elsewhere(owner, 0, 0, 0, x) ensures d2[x] == dat[x] {
      assert TookAt(owner, o1, r, x) && Elsewhere(o1, r, v, n, x);
    }
  }

  lemma AsideMapped(tab: Tables, t1: Tables, t2: Tables, dat: Bytes, d1: Bytes, d2: Bytes,
                    owner: Owners, o1: Owners, o2: Owners, roots: set<nat>, r: nat, v: nat, m: nat, q: nat, perm: nat,
                      extra: set<nat>)
    requires r !in roots && Aside(tab, t1, dat, d1, owner, o1, roots, r) &&
             MapState(t1, t2, d1, d2, o1, o2, roots + {r}, r, v, m, q, perm)
    requires m <= 1 && TRAPFRAME <= v < VPNS && (q in o1 ==> o1[q] == Held) && Space(t1, roots + {r}, r, 0, extra)
    ensures Aside(tab, t2, dat, d2, owner, o2, roots, r) &&
            Space(t2, roots + {r}, r, 0, if m == 1 then extra + {v} else extra)
  {
    assert Lent(o2, q, m) == o2;
    FrameWider(t2, t2, d1, d2, o1, o2, roots + {r}, r, 0, 0, v, m);
    AsideFrame(tab, t1, t2, dat, d1, d2, owner, o1, o2, roots, r, v, m);
    forall t | IsSlot(roots + {r}, t) && t.Leaf? && t.r == r
      ensures SpaceAt(t2, 0, if m == 1 then extra + {v} else extra, t) {
      assert SpaceAt(t1, 0, extra, t) && t == Leaf(r, t.v);
      if m == 1 && t.v == v { assert MappedAt(t2, r, v, q, perm, 0); } else { assert SameAt(t1, t2, t); }
    }
  }

  lemma AsideFreed(tab: Tables, t1: Tables, t2: Tables, dat: Bytes, d1: Bytes, d2: Bytes,
                   owner: Owners, o1: Owners, o2: Owners, roots: set<nat>, r: nat, tf: nat)
    requires Aside(tab, t1, dat, d1, owner, o1, roots, r) && tf in owner && owner[tf] == Held && o2 == o1[tf := Free]
    requires Same(t1, t2, roots + {r}) && OnlyPage(d1, d2, tf)
    ensures Aside(tab, t2, dat, d2, owner[tf := Free], o2, roots, r)
  {
    forall t | IsSlot(roots, t) && t.Leaf? && !InRange(t, 0, 0, 0) ensures SameAt(tab, t2, t) {
      assert SameAt(tab, t1, t) && IsSlot(roots + {r}, t) && SameAt(t1, t2, t);
    }
    var o0 := owner[tf := Free];
    forall q | q in o0 ensures TookAt(o0, o2, r, q) {
      assert TookAt(owner, o1, r, q);
    }
    forall x | x in dat && Elsewhere(o0, 0, 0, 0, x) ensures d2[x] == dat[x] {
      assert Elsewhere(owner, 0, 0, 0, x);
    }
  }

  lemma Abandoned(tab: Tables, t1: Tables, t2: Tables, dat: Bytes, d1: Bytes, d2: Bytes,
                  owner: Owners, o1: Owners, o2: Owners, roots: set<nat>, r: nat)
    requires Aside(tab, t1, dat, d1, owner, o1, roots, r) && LeavesBut(t1, t2, roots, r, 0, 0) &&
             UsedBytes(d1, d2, o1, o2) && Released(o1, o2, r)
    ensures o2 == owner && LeavesBut(tab, t2, roots, 0, 0, 0) && BytesBut(dat, d2, owner, 0, 0, 0)
  {
    forall t | IsSlot(roots, t) && t.Leaf? && !InRange(t, 0, 0, 0) ensures SameAt(tab, t2, t) {
      assert SameAt(tab, t1, t) && !InRange(t, r, 0, 0) && SameAt(t1, t2, t);
    }
    forall q | q in owner ensures o2[q] == owner[q] {
      assert TookAt(owner, o1, r, q);
    }
    forall x | x in dat && Elsewhere(owner, 0, 0, 0, x) ensures d2[x] == dat[x] {
      assert TookAt(owner, o1, r, x);
    }
  }

  lemma AfterFork(tab: Tables, t1: Tables, t2: Tables, dat: Bytes, d1: Bytes, d2: Bytes,
                  owner: Owners, o1: Owners, o2: Owners, roots: set<nat>, tf: nat)
    requires Same(tab, t1, roots) && OnlyPage(dat, d1, tf) && tf in owner && owner[tf] == Free &&
             o1 == owner[tf := Held] && o2 == o1[tf := Free]
    requires LeavesBut(t1, t2, roots, 0, 0, 0) && BytesBut(d1, d2, o1[tf := Free], 0, 0, 0)
    ensures o2 == owner && LeavesBut(tab, t2, roots, 0, 0, 0) && BytesBut(dat, d2, owner, 0, 0, 0)
  {
    assert o1[tf := Free] == owner;
    forall t | IsSlot(roots, t) && t.Leaf? && !InRange(t, 0, 0, 0) ensures SameAt(tab, t2, t) {
      assert SameAt(tab, t1, t) && SameAt(t1, t2, t);
    }
  }

  lemma TrapframeBack(tab: Tables, t1: Tables, t2: Tables, t3: Tables, dat: Bytes, d1: Bytes, d2: Bytes, d3: Bytes,
                      owner: Owners, o1: Owners, o3: Owners, roots: set<nat>, tf: nat)
    requires Same(tab, t1, roots) && OnlyPage(dat, d1, tf) && tf in owner && owner[tf] == Free &&
             o1 == owner[tf := Held]
    requires LeavesBut(t1, t2, roots, 0, 0, 0) && BytesBut(d1, d2, o1, 0, 0, 0)
    requires Same(t2, t3, roots) && OnlyPage(d2, d3, tf) && o3 == o1[tf := Free]
    ensures o3 == owner && LeavesBut(tab, t3, roots, 0, 0, 0) && BytesBut(dat, d3, owner, 0, 0, 0)
  {
    forall t | IsSlot(roots, t) && t.Leaf? && !InRange(t, 0, 0, 0) ensures SameAt(t1, t3, t) {
      assert SameAt(t1, t2, t) && SameAt(t2, t3, t);
    }
    forall x | x in d1 && Elsewhere(owner, 0, 0, 0, x) ensures d3[x] == d1[x] {
      assert Elsewhere(o1, 0, 0, 0, x);
    }
    assert o1[tf := Free] == owner;
    AfterFork(tab, t1, t3, dat, d1, d3, owner, o1, o3, roots, tf);
  }

  lemma CopyReady(tab: Tables, t1: Tables, t2: Tables, roots: set<nat>, roots': set<nat>, parent: nat, r: nat, n: nat)
    requires parent in roots && r !in roots && roots' == roots + {r} && n <= TRAPFRAME && Same(tab, t1, roots) &&
             LeavesBut(t1, t2, roots, 0, 0, 0)
    requires Space(tab, roots, parent, n, {TRAMPOLINE, TRAPFRAME}) && Space(t2, roots', r, 0, {TRAMPOLINE, TRAPFRAME})
    ensures forall x: nat | x < n :: Present(Entry(t2, Leaf(parent, x)))
    ensures forall x: nat | x < n :: !Present(Entry(t2, Leaf(r, x)))
  {
    forall x: nat | x < n ensures Present(Entry(t2, Leaf(parent, x))) && !Present(Entry(t2, Leaf(r, x))) {
      var t := Leaf(parent, x);
      assert SpaceAt(tab, n, {TRAMPOLINE, TRAPFRAME}, t) && SameAt(tab, t1, t) && SameAt(t1, t2, t);
      assert SpaceAt(t2, 0, {TRAMPOLINE, TRAPFRAME}, Leaf(r, x));
    }
  }

  lemma SpaceStays(t1: Tables, t2: Tables, roots: set<nat>, r: nat, n: nat, extra: set<nat>)
    requires LeavesBut(t1, t2, roots, r, 0, 0) && Space(t1, roots, r, n, extra)
    ensures Space(t2, roots, r, n, extra)
  {
    forall t | IsSlot(roots, t) && t.Leaf? && t.r == r ensures SpaceAt(t2, n, extra, t) {
      assert SpaceAt(t1, n, extra, t) && SameAt(t1, t2, t);
    }
  }

  /** The child has its trap frame tf and its page table r, and all else is as it was. */
  ghost predicate Forked(tab: Tables, t2: Tables, dat: Bytes, d2: Bytes, owner: Owners, o2: Owners,
                         roots: set<nat>, r: nat, tf: nat) {
    && LeavesBut(tab, t2, roots, 0, 0, 0) && BytesBut(dat, d2, owner, 0, 0, 0)
    && o2.Keys == owner.Keys && tf in owner && owner[tf] == Free && o2[tf] == Held && forall q | q in owner &&
      q != tf :: TookAt(owner, o2, r, q)
  }

  lemma AsideEarlier(tab: Tables, t1: Tables, t2: Tables, dat: Bytes, d1: Bytes, d2: Bytes,
                     owner: Owners, o1: Owners, o2: Owners, roots: set<nat>, r: nat, tf: nat)
    requires Same(tab, t1, roots) && OnlyPage(dat, d1, tf) && tf in owner && owner[tf] == Free &&
             o1 == owner[tf := Held]
    requires Aside(t1, t2, d1, d2, o1, o2, roots, r)
    ensures Forked(tab, t2, dat, d2, owner, o2, roots, r, tf)
  {
    forall t | IsSlot(roots, t) && t.Leaf? && !InRange(t, 0, 0, 0) ensures SameAt(tab, t2, t) {
      assert SameAt(tab, t1, t) && SameAt(t1, t2, t);
    }
    assert TookAt(o1, o2, r, tf);
    forall q | q in owner && q != tf ensures TookAt(owner, o2, r, q) {
      assert TookAt(o1, o2, r, q);
    }
    forall x | x in dat && Elsewhere(owner, 0, 0, 0, x) ensures d2[x] == dat[x] {
      assert Elsewhere(o1, 0, 0, 0, x);
    }
  }

  /** Page x of page table to is a copy of page x of page table from, on a page of its own. */
  ghost predicate CopyAt(tab: Tables, dat: Bytes, owner: Owners, from: nat, to: nat, x: nat) {
    var pte := Entry(tab, Leaf(from, x));
    Present(pte) && Target(pte) in dat && PageAt(tab, dat, owner, to, x, Perm(pte), dat[Target(pte)])
  }

  ghost predicate Copied(tab: Tables, dat: Bytes, owner: Owners, from: nat, to: nat, n: nat) {
    forall x: nat | x < n :: CopyAt(tab, dat, owner, from, to, x)
  }

  ghost predicate Copying(tab: Tables, t1: Tables, dat: Bytes, d1: Bytes, owner: Owners, o1: Owners,
                          roots: set<nat>, from: nat, to: nat, n: nat, a: nat) {
    && Frame(tab, t1, dat, d1, owner, o1, roots, to, 0, n) && Copied(t1, d1, o1, from, to, a)
    && (forall x: nat | x < n :: Present(Entry(t1, Leaf(from, x))))
    && (forall x: nat | x < n :: Present(Entry(t1, Leaf(to, x))) <==> x < a)
  }

  /** The page to copy from is where it was and holds what it held. */
  predicate SameSource(t1: Tables, t2: Tables, d1: Bytes, d2: Bytes, from: nat, x: nat) {
    var q := Target(Entry(t1, Leaf(from, x)));
    Entry(t2, Leaf(from, x)) == Entry(t1, Leaf(from, x)) && q in d1 && q in d2 && d2[q] == d1[q]
  }

  lemma SourceStays(lo: nat, hi: nat, t1: Tables, t2: Tables, d1: Bytes, d2: Bytes,
                    o1: Owners, o2: Owners, roots: set<nat>, from: nat, to: nat, v: nat, n: nat, x: nat)
    requires from in roots && from != to && x < TRAPFRAME && (forall t :: SlotOk(lo, hi, t1, roots, o1, t)) &&
             (forall q | lo <= q < hi :: q in d1)
    requires Frame(t1, t2, d1, d2, o1, o2, roots, to, v, n) && Present(Entry(t1, Leaf(from, x)))
    ensures SameSource(t1, t2, d1, d2, from, x)
  {
    assert !InRange(Leaf(from, x), to, v, n) && SameAt(t1, t2, Leaf(from, x)) &&
           SlotOk(lo, hi, t1, roots, o1, Leaf(from, x));
    assert Elsewhere(o1, to, v, n, Target(Entry(t1, Leaf(from, x))));
  }

  lemma CopyStep(lo: nat, hi: nat, tab: Tables, t1: Tables, t2: Tables, dat: Bytes, d1: Bytes, d2: Bytes,
                 owner: Owners, o1: Owners, o2: Owners, roots: set<nat>, from: nat, to: nat, n: nat, a: nat, ok: bool,
                   pte: nat)
    requires from in roots && to in roots && from != to && a < n <= TRAPFRAME &&
             (forall t :: SlotOk(lo, hi, t1, roots, o1, t))
    requires Copying(tab, t1, dat, d1, owner, o1, roots, from, to, n, a) && (forall q | lo <= q < hi :: q in d1)
    requires pte == Entry(t1, Leaf(from, a)) && Present(pte) && Target(pte) in d1
    requires if ok then Frame(t1, t2, d1, d2, o1, o2, roots, to, a, 1) &&
             PageAt(t2, d2, o2, to, a, Perm(pte), d1[Target(pte)])
             else Frame(t1, t2, d1, d2, o1, o2, roots, to, 0, 0)
    ensures Copying(tab, t2, dat, d2, owner, o2, roots, from, to, n, if ok then a + 1 else a)
  {
    var (at, k) := if ok then (a, 1) else (0, 0);
    FrameWider(t1, t2, d1, d2, o1, o2, roots, to, at, k, 0, n);
    FrameTwice(tab, t1, t2, dat, d1, d2, owner, o1, o2, roots, to, 0, n);
    forall x: nat | x < n ensures SameSource(t1, t2, d1, d2, from, x) {
      SourceStays(lo, hi, t1, t2, d1, d2, o1, o2, roots, from, to, at, k, x);
    }
    forall x: nat | x < (if ok then a + 1 else a) ensures CopyAt(t2, d2, o2, from, to, x) {
      assert SameSource(t1, t2, d1, d2, from, x);
      if x < a {
        assert CopyAt(t1, d1, o1, from, to, x);
        var p := Entry(t1, Leaf(from, x));
        PageStays(t1, t2, d1, d2, o1, o2, roots, to, at, k, x, Perm(p), d1[Target(p)]);
      }
    }
    forall x: nat | x < n ensures Present(Entry(t2, Leaf(from, x))) {
      assert SameSource(t1, t2, d1, d2, from, x);
    }
    forall x: nat | x < n ensures Present(Entry(t2, Leaf(to, x))) <==> x < (if ok then a + 1 else a) {
      if x != a || !ok { assert !InRange(Leaf(to, x), to, at, k) && SameAt(t1, t2, Leaf(to, x)); }
    }
  }

  /** What page table r maps: the first n pages, and those in extra. */
  ghost predicate Space(tab: Tables, roots: set<nat>, r: nat, n: nat, extra: set<nat>) {
    forall t | IsSlot(roots, t) && t.Leaf? && t.r == r :: SpaceAt(tab, n, extra, t)
  }

  predicate SpaceAt(tab: Tables, n: nat, extra: set<nat>, t: Slot)
    requires t.Leaf?
  {
    Present(Entry(tab, t)) <==> t.v < n || t.v in extra
  }

  /** The trampoline and trap frame of page table r, as proc_pagetable() maps them. */
  predicate TrapMaps(tab: Tables, r: nat, tramp: nat, tf: nat) {
    Entry(tab, Leaf(r, TRAMPOLINE)) == MakePte(tramp, PTE_R + PTE_X) &&
      Entry(tab, Leaf(r, TRAPFRAME)) == MakePte(tf, PTE_R + PTE_W)
  }

  /** Every page of page table r is free, and no other page has changed hands. */
  ghost predicate Released(owner: Owners, owner': Owners, r: nat) {
    owner'.Keys == owner.Keys && forall q | q in owner :: owner'[q] == if OfTable(owner[q], r) then Free else owner[q]
  }

  /** The mappings from v on are taken away, and then all the pages of page table r. */
  lemma AllReleased(tab: Tables, t1: Tables, t2: Tables, dat: Bytes, d1: Bytes, d2: Bytes,
                    owner: Owners, o1: Owners, o2: Owners, roots: set<nat>, roots': set<nat>, r: nat, v: nat, n: nat)
    requires Frame(tab, t1, dat, d1, owner, o1, roots, r, v, n) && roots' == roots - {r} &&
             LeavesBut(t1, t2, roots', r, 0, 0)
    requires UsedBytes(d1, d2, o1, o2) && Released(o1, o2, r)
    ensures UsedBytes(dat, d2, owner, o2) && Released(owner, o2, r) && LeavesBut(tab, t2, roots', r, 0, 0)
  {
    forall t | IsSlot(roots', t) && t.Leaf? && !InRange(t, r, 0, 0) ensures SameAt(tab, t2, t) {
      assert IsSlot(roots, t) && !InRange(t, r, v, n) && SameAt(tab, t1, t) && SameAt(t1, t2, t);
    }
    forall q | q in owner ensures o2[q] == if OfTable(owner[q], r) then Free else owner[q] {
      assert HandsAt(owner, o1, r, v, n, q);
    }
    forall x | x in dat && x in owner && owner[x] != Free && o2[x] == owner[x] ensures d2[x] == dat[x] {
      assert HandsAt(owner, o1, r, v, n, x) && Elsewhere(owner, r, v, n, x);
    }
  }

  /** After freeproc(): page tf, and the pages of page table r, are free, and no other has changed hands. */
  ghost predicate ProcFreed(owner: Owners, owner': Owners, r: nat, tf: nat) {
    tf in owner && Released(owner[tf := Free], owner', r)
  }

  /** freeproc() frees the trap frame first. */
  lemma TrapframeFreed(tab: Tables, t1: Tables, t2: Tables, dat: Bytes, d1: Bytes, d2: Bytes,
                       owner: Owners, o1: Owners, o2: Owners, roots: set<nat>, r: nat, tf: nat)
    requires tf in owner && owner[tf] == Held && Same(tab, t1, roots) && OnlyPage(dat, d1, tf) &&
             o1 == owner[tf := Free]
    requires LeavesBut(t1, t2, roots - {r}, r, 0, 0) && UsedBytes(d1, d2, o1, o2) && Released(o1, o2, r)
    ensures LeavesBut(tab, t2, roots - {r}, r, 0, 0) && UsedBytes(dat, d2, owner, o2) && ProcFreed(owner, o2, r, tf)
  {
    forall t | IsSlot(roots - {r}, t) && t.Leaf? && !InRange(t, r, 0, 0) ensures SameAt(tab, t2, t) {
      assert IsSlot(roots, t) && SameAt(tab, t1, t) && SameAt(t1, t2, t);
    }
  }

  /** A page table that is taken away with its trap frame leaves everything else as it was before both. */
  lemma ProcAbandoned(tab: Tables, t1: Tables, t2: Tables, dat: Bytes, d1: Bytes, d2: Bytes,
                      owner: Owners, o1: Owners, o2: Owners, roots: set<nat>, r: nat, tf: nat)
    requires Aside(tab, t1, dat, d1, owner, o1, roots, r) && tf in owner && owner[tf] == Held
    requires LeavesBut(t1, t2, roots, r, 0, 0) && UsedBytes(d1, d2, o1, o2) && ProcFreed(o1, o2, r, tf)
    ensures o2 == owner[tf := Free] && LeavesBut(tab, t2, roots, 0, 0, 0) &&
            BytesBut(dat, d2, owner[tf := Free], 0, 0, 0)
  {
    var o3 := o1[tf := Free];
    AsideFreed(tab, t1, t1, dat, d1, d1, owner, o1, o3, roots, r, tf);
    Abandoned(tab, t1, t2, dat, d1, d2, owner[tf := Free], o3, o2, roots, r);
  }

  /** The child of a fork has the mappings that were copied, and those that it had. */
  lemma SpaceCopied(t2: Tables, t3: Tables, dat: Bytes, owner: Owners, roots: set<nat>, parent: nat, r: nat, n: nat,
                    extra: set<nat>)
    requires Space(t2, roots, r, 0, extra) && LeavesBut(t2, t3, roots, r, 0, n) && Copied(t3, dat, owner, parent, r, n)
    ensures Space(t3, roots, r, n, extra)
  {
    forall t | IsSlot(roots, t) && t.Leaf? && t.r == r ensures SpaceAt(t3, n, extra, t) {
      assert t == Leaf(r, t.v) && SpaceAt(t2, 0, extra, t);
      if t.v < n { assert CopyAt(t3, dat, owner, parent, r, t.v); } else { assert SameAt(t2, t3, t); }
    }
  }

  /** Pages that stay in use in the same hands keep their bytes. */
  ghost predicate UsedBytes(dat: Bytes, dat': Bytes, owner: Owners, owner': Owners) {
    dat'.Keys == dat.Keys && forall x | x in dat && x in owner && x in owner' && owner[x] != Free &&
      owner'[x] == owner[x] :: dat'[x] == dat[x]
  }

  /** Pages from a to b are new zeroed pages. */
  ghost predicate ZeroPages(tab: Tables, dat: Bytes, owner: Owners, r: nat, a: nat, b: nat, perm: nat) {
    perm < 1024 && perm % 2 == 0 && forall x: nat | a <= x < b :: PageAt(tab, dat, owner, r, x, perm, ZeroPage())
  }

  /** uvmalloc() has got from v to a, on its way to v + n. */
  ghost predicate Allocating(tab: Tables, t1: Tables, dat: Bytes, d1: Bytes, owner: Owners, o1: Owners,
                             roots: set<nat>, r: nat, v: nat, n: nat, a: nat, perm: nat) {
    && Frame(tab, t1, dat, d1, owner, o1, roots, r, v, n) && ZeroPages(t1, d1, o1, r, v, a, perm)
    && (forall x: nat | v <= x < v + n :: Present(Entry(t1, Leaf(r, x))) <==> x < a)
  }

  /** PGROUNDUP, in pages. */
  function Pages(sz: nat): (n: nat)
    ensures sz <= n * PGSIZE < sz + PGSIZE
  {
    (sz + PGSIZE - 1) / PGSIZE
  }

  function Span(from: nat, to: nat): (n: nat) { if Pages(from) <= Pages(to) then Pages(to) - Pages(from) else 0 }

  /** As much of it as lies below the trap frame. */
  function Reach(from: nat, to: nat): (n: nat)
    requires Pages(from) <= TRAPFRAME
  {
    if Pages(to) <= TRAPFRAME then Span(from, to) else TRAPFRAME - Pages(from)
  }

  function ZeroPage(): (p: seq<Byte>)
    ensures |p| == PGSIZE && forall i | 0 <= i < PGSIZE :: p[i] == 0
  {
    seq(PGSIZE, i => 0)
  }

  /** A page outside the range stays as it is. */
  lemma PageStays(tab: Tables, t1: Tables, dat: Bytes, d1: Bytes, owner: Owners, o1: Owners,
                  roots: set<nat>, r: nat, v: nat, n: nat, x: nat, perm: nat, bytes: seq<Byte>)
    requires perm < 1024 && perm % 2 == 0 && r in roots && x < TRAPFRAME && !(v <= x < v + n)
    requires Frame(tab, t1, dat, d1, owner, o1, roots, r, v, n) && PageAt(tab, dat, owner, r, x, perm, bytes)
    ensures PageAt(t1, d1, o1, r, x, perm, bytes)
  {
    var q := Target(Entry(tab, Leaf(r, x)));
    assert !InRange(Leaf(r, x), r, v, n) && SameAt(tab, t1, Leaf(r, x)) && HandsAt(owner, o1, r, v, n, q) &&
           Elsewhere(owner, r, v, n, q);
  }

  lemma AllocStep(tab: Tables, t1: Tables, t2: Tables, dat: Bytes, d1: Bytes, d2: Bytes,
                  owner: Owners, o1: Owners, o2: Owners, roots: set<nat>, r: nat, v: nat, n: nat, a: nat, perm: nat)
    requires perm < 1024 && perm % 2 == 0 && r in roots && v <= a < v + n <= TRAPFRAME
    requires Allocating(tab, t1, dat, d1, owner, o1, roots, r, v, n, a, perm)
    requires Frame(t1, t2, d1, d2, o1, o2, roots, r, a, 1) && PageAt(t2, d2, o2, r, a, perm, ZeroPage())
    ensures Allocating(tab, t2, dat, d2, owner, o2, roots, r, v, n, a + 1, perm)
  {
    FrameWider(t1, t2, d1, d2, o1, o2, roots, r, a, 1, v, n);
    FrameTwice(tab, t1, t2, dat, d1, d2, owner, o1, o2, roots, r, v, n);
    forall x: nat | v <= x < a ensures PageAt(t2, d2, o2, r, x, perm, ZeroPage()) {
      PageStays(t1, t2, d1, d2, o1, o2, roots, r, a, 1, x, perm, ZeroPage());
    }
    forall x: nat | v <= x < v + n ensures Present(Entry(t2, Leaf(r, x))) <==> x < a + 1 {
      if x != a { assert !InRange(Leaf(r, x), r, a, 1) && SameAt(t1, t2, Leaf(r, x)); }
    }
  }

  lemma AllocFails(tab: Tables, t1: Tables, t2: Tables, dat: Bytes, d1: Bytes, d2: Bytes,
                   owner: Owners, o1: Owners, o2: Owners, roots: set<nat>, r: nat, v: nat, n: nat, a: nat, perm: nat)
    requires perm < 1024 && perm % 2 == 0 && r in roots && v <= a < v + n <= TRAPFRAME
    requires Allocating(tab, t1, dat, d1, owner, o1, roots, r, v, n, a, perm)
    requires Frame(t1, t2, d1, d2, o1, o2, roots, r, 0, 0)
    ensures Allocating(tab, t2, dat, d2, owner, o2, roots, r, v, n, a, perm)
  {
    FrameWider(t1, t2, d1, d2, o1, o2, roots, r, 0, 0, v, n);
    FrameTwice(tab, t1, t2, dat, d1, d2, owner, o1, o2, roots, r, v, n);
    forall x: nat | v <= x < a ensures PageAt(t2, d2, o2, r, x, perm, ZeroPage()) {
      PageStays(t1, t2, d1, d2, o1, o2, roots, r, 0, 0, x, perm, ZeroPage());
    }
    forall x: nat | v <= x < v + n ensures Present(Entry(t2, Leaf(r, x))) <==> x < a {
      assert !InRange(Leaf(r, x), r, 0, 0) && SameAt(t1, t2, Leaf(r, x));
    }
  }

  /** The range is as empty as it was: all that may be left of it are tables. */
  lemma RollBack(lo: nat, hi: nat, tab: Tables, t1: Tables, dat: Bytes, d1: Bytes, owner: Owners, o1: Owners,
                 roots: set<nat>, free: seq<nat>, f1: seq<nat>, r: nat, v: nat, n: nat)
    requires Ok(lo, hi, tab, roots, owner, free) && Ok(lo, hi, t1, roots, o1, f1) &&
             Frame(tab, t1, dat, d1, owner, o1, roots, r, v, n)
    requires forall x: nat | v <= x < v + n :: !Present(Entry(tab, Leaf(r, x))) && !Present(Entry(t1, Leaf(r, x)))
    ensures Frame(tab, t1, dat, d1, owner, o1, roots, r, 0, 0)
  {
    forall t | IsSlot(roots, t) && t.Leaf? && !InRange(t, r, 0, 0) ensures SameAt(tab, t1, t) {
      if InRange(t, r, v, n) { assert t == Leaf(r, t.v); }
    }
    forall q | q in owner ensures HandsAt(owner, o1, r, 0, 0, q) && !(owner[q].By? && InRange(owner[q].s, r, v, n)) {
      assert HandsAt(owner, o1, r, v, n, q) && PageOk(lo, hi, tab, roots, owner, free, q) &&
             PageOk(lo, hi, t1, roots, o1, f1, q);
      assert owner[q].By? && owner[q].s.Leaf? ==> owner[q].s == Leaf(owner[q].s.r, owner[q].s.v);
      assert o1[q].By? && o1[q].s.Leaf? ==> o1[q].s == Leaf(o1[q].s.r, o1[q].s.v);
    }
    forall x | x in dat && Elsewhere(owner, r, 0, 0, x) ensures d1[x] == dat[x] {
      assert Elsewhere(owner, r, v, n, x);
    }
  }

  lemma Undone(lo: nat, hi: nat, tab: Tables, t2: Tables, t3: Tables, dat: Bytes, d2: Bytes, d3: Bytes,
               owner: Owners, o2: Owners, o3: Owners, roots: set<nat>, free: seq<nat>, f3: seq<nat>, r: nat, v: nat,
                 n: nat, a: nat)
    requires Ok(lo, hi, tab, roots, owner, free) && Ok(lo, hi, t3, roots, o3, f3) && r in roots &&
             v <= a <= v + n <= TRAPFRAME
    requires Frame(tab, t2, dat, d2, owner, o2, roots, r, v, n) && Frame(t2, t3, d2, d3, o2, o3, roots, r, v, a - v)
    requires forall x: nat | v <= x < v + n :: !Present(Entry(tab, Leaf(r, x)))
    requires forall x: nat | a <= x < v + n :: !Present(Entry(t2, Leaf(r, x)))
    requires forall x: nat | v <= x < a :: !Present(Entry(t3, Leaf(r, x)))
    ensures Frame(tab, t3, dat, d3, owner, o3, roots, r, v, n) && Frame(tab, t3, dat, d3, owner, o3, roots, r, 0, 0)
  {
    FrameWider(t2, t3, d2, d3, o2, o3, roots, r, v, a - v, v, n);
    FrameTwice(tab, t2, t3, dat, d2, d3, owner, o2, o3, roots, r, v, n);
    forall x: nat | v <= x < v + n ensures !Present(Entry(tab, Leaf(r, x))) && !Present(Entry(t3, Leaf(r, x))) {
      if x >= a { assert !InRange(Leaf(r, x), r, v, a - v) && SameAt(t2, t3, Leaf(r, x)); }
    }
    RollBack(lo, hi, tab, t3, dat, d3, owner, o3, roots, free, f3, r, v, n);
  }

  /** Page v of page table r is a page of its own that holds these bytes. */
  ghost predicate PageAt(tab: Tables, dat: Bytes, owner: Owners, r: nat, v: nat, perm: nat, bytes: seq<Byte>) {
    var pte := Entry(tab, Leaf(r, v));
    perm < 1024 && perm % 2 == 0 && pte == MakePte(Target(pte), perm) && Target(pte) in owner &&
      owner[Target(pte)] == By(Leaf(r, v)) && Target(pte) in dat && dat[Target(pte)] == bytes
  }

  lemma FrameSame(tab: Tables, dat: Bytes, owner: Owners, roots: set<nat>, r: nat)
    ensures Frame(tab, tab, dat, dat, owner, owner, roots, r, 0, 0)
  {
  }

  lemma Added(tab: Tables, t1: Tables, t3: Tables, dat: Bytes, d1: Bytes, d2: Bytes, d3: Bytes,
              owner: Owners, o1: Owners, o3: Owners, roots: set<nat>, r: nat, v: nat, q: nat, perm: nat,
                bytes: seq<Byte>)
    requires Same(tab, t1, roots) && OnlyPage(dat, d1, q) && d2 == d1[q := bytes] && q in d1 && q in owner &&
             owner[q] == Free && o1 == owner[q := Held]
    requires MapState(t1, t3, d2, d3, o1, o3, roots, r, v, 1, q, perm) && r in roots && v < TRAPFRAME
    ensures Frame(tab, t3, dat, d3, owner, o3, roots, r, v, 1) && PageAt(t3, d3, o3, r, v, perm, bytes)
  {
    assert MappedAt(t3, r, v, q, perm, 0) && Elsewhere(o1, r, 0, 0, q);
    forall t | IsSlot(roots, t) && t.Leaf? && !InRange(t, r, v, 1) ensures SameAt(tab, t3, t) {
      assert SameAt(tab, t1, t) && SameAt(t1, t3, t);
    }
    forall x | x in owner ensures HandsAt(owner, o3, r, v, 1, x) {
      assert HandsAt(o1, Lent(o3, q, 1), r, 0, 0, x);
    }
    forall x | x in dat && Elsewhere(owner, r, v, 1, x) ensures d3[x] == dat[x] {
      assert Elsewhere(o1, r, 0, 0, x);
    }
  }

  lemma NotAdded(tab: Tables, t1: Tables, t3: Tables, dat: Bytes, d1: Bytes, d2: Bytes, d3: Bytes,
                 owner: Owners, o1: Owners, o3: Owners, roots: set<nat>, r: nat, v: nat, q: nat, perm: nat)
    requires Same(tab, t1, roots) && OnlyPage(dat, d1, q) && OnlyPage(d1, d2, q) && q in owner && owner[q] == Free &&
             o1 == owner[q := Held]
    requires MapState(t1, t3, d2, d3, o1, o3, roots, r, v, 0, q, perm)
    ensures LeavesBut(tab, t3, roots, r, 0, 0) && Hands(owner[q := Held], o3, r, 0, 0) &&
            BytesBut(dat, d3, owner, r, 0, 0) && q in o3 && o3[q] == Held
  {
    assert Lent(o3, q, 0) == o3;
    assert HandsAt(o1, o3, r, 0, 0, q);
    forall t | IsSlot(roots, t) && t.Leaf? && !InRange(t, r, 0, 0) ensures SameAt(tab, t3, t) {
      assert SameAt(tab, t1, t) && !InRange(t, r, v, 0) && SameAt(t1, t3, t);
    }
    forall x | x in dat && Elsewhere(owner, r, 0, 0, x) ensures d3[x] == dat[x] {
      assert Elsewhere(o1, r, 0, 0, x);
    }
  }

  lemma GivenBack(tab: Tables, t3: Tables, t4: Tables, dat: Bytes, d3: Bytes, d4: Bytes,
                  owner: Owners, o3: Owners, o4: Owners, roots: set<nat>, r: nat, q: nat)
    requires LeavesBut(tab, t3, roots, r, 0, 0) && q in owner && owner[q] == Free &&
             Hands(owner[q := Held], o3, r, 0, 0) && BytesBut(dat, d3, owner, r, 0, 0)
    requires Same(t3, t4, roots) && OnlyPage(d3, d4, q) && o4 == o3[q := Free]
    ensures Frame(tab, t4, dat, d4, owner, o4, roots, r, 0, 0)
  {
    forall t | IsSlot(roots, t) && t.Leaf? && !InRange(t, r, 0, 0) ensures SameAt(tab, t4, t) {
      assert SameAt(tab, t3, t) && SameAt(t3, t4, t);
    }
    forall x | x in owner ensures HandsAt(owner, o4, r, 0, 0, x) {
      assert HandsAt(owner[q := Held], o3, r, 0, 0, x);
    }
  }

  /** The page belongs to a table, or a mapping, of page table r. */
  predicate OfTable(o: Owner, r: nat) { o.By? && o.s.r == r }

  ghost predicate HoldsAt(owner: Owners, page: nat, s: Slot) { page in owner && owner[page] == By(s) }

  function Child(s: Slot, i: nat): (c: Slot) {
    match s
    case Root(r) => Mid(r, i)
    case Mid(r, a) => Low(r, a, i)
    case Low(r, a, b) => Leaf(r, 262144 * a + 512 * b + i)
    case Leaf(r, v) => s
  }

  lemma ChildOf(s: Slot, i: nat)
    requires !s.Leaf? && i < ENTRIES && (s.Low? ==> s.i < ENTRIES && s.j < ENTRIES) && (s.Mid? ==> s.i < ENTRIES)
    ensures Parent(Child(s, i)) == s && Index(Child(s, i)) == i && Child(s, i).r == s.r && Child(s, i) != s
    ensures forall roots: set<nat> | s.r in roots :: IsSlot(roots, Child(s, i))
  {
    if s.Low? { VpnOf(s.i, s.j, i); }
  }

  /** No mapping is left below s. */
  ghost predicate NoLeaf(tab: Tables, roots: set<nat>, s: Slot) {
    forall t | IsSlot(roots, t) && t.Leaf? && Below(t, s) :: !Present(Entry(tab, t))
  }

  /** Entries that are not below s are as they were. */
  ghost predicate SameOutside(tab: Tables, tab': Tables, roots: set<nat>, s: Slot) {
    forall t | IsSlot(roots, t) && t != s && !Below(t, s) :: SameAt(tab, tab', t)
  }

  /** Pages of tables below s, and that of s if self is set, have become free; no other page has changed hands. */
  ghost predicate FreedBelow(owner: Owners, owner': Owners, s: Slot, self: bool) {
    owner'.Keys == owner.Keys && forall q | q in owner :: FreedAt(owner, owner', s, self, q)
  }

  ghost predicate FreedAt(owner: Owners, owner': Owners, s: Slot, self: bool, q: nat)
    requires q in owner && q in owner'
  {
    owner'[q] == owner[q] || (owner'[q] == Free && owner[q].By? && !owner[q].s.Leaf? &&
                              (Below(owner[q].s, s) || (self && owner[q].s == s)))
  }

  /** A page that has not changed hands has the words it had, but for page itself, and the bytes. */
  ghost predicate OnlyFreed(tab: Tables, tab': Tables, dat: Bytes, dat': Bytes,
                            owner: Owners, owner': Owners, page: nat) {
    && SameBytes(dat, dat', owner, owner') && tab'.Keys == tab.Keys
    && (forall x | x in tab && x in owner && x in owner' && owner'[x] == owner[x] && x != page :: tab'[x] == tab[x])
  }

  ghost predicate SameBytes(dat: Bytes, dat': Bytes, owner: Owners, owner': Owners) {
    dat'.Keys == dat.Keys && forall x | x in dat && x in owner && x in owner' && owner'[x] == owner[x] ::
      dat'[x] == dat[x]
  }

  lemma BelowParent(t: Slot, s: Slot, c: Slot)
    requires Parent(c) == s && c != s
    ensures t == c || Below(t, c) ==> Below(t, s)
    ensures s != c && !Below(s, c)
  {
  }

  lemma NoLeafBelow(tab: Tables, roots: set<nat>, s: Slot, c: Slot)
    requires NoLeaf(tab, roots, s) && Parent(c) == s && c != s
    ensures NoLeaf(tab, roots, c)
  {
    forall t | IsSlot(roots, t) && t.Leaf? && Below(t, c) ensures !Present(Entry(tab, t)) {
      BelowParent(t, s, c);
    }
  }

  lemma KeptHere(owner: Owners, owner': Owners, c: Slot, page: nat, s: Slot)
    requires FreedBelow(owner, owner', c, true) && HoldsAt(owner, page, s) && Parent(c) == s && c != s
    ensures HoldsAt(owner', page, s)
  {
    BelowParent(s, s, c);
    assert FreedAt(owner, owner', c, true, page);
  }

  /** Child c of the table at s has been freed and its entry cleared. */
  lemma ChildFreed(tab: Tables, t1: Tables, t2: Tables, roots: set<nat>, s: Slot, c: Slot, i: nat, page: nat)
    requires SameOutside(tab, t1, roots, s) && SameOutside(t1, t2, roots, c) && Parent(c) == s && c != s &&
             Index(c) == i && IsSlot(roots, s) && !s.Leaf?
    requires NoLeaf(t1, roots, s) && page == Node(t1, s) && 0 !in t2 && Word(t2, page, i) == 0 && page != 0
    ensures SameOutside(tab, t2, roots, s) && NoLeaf(t2, roots, s) && page == Node(t2, s)
  {
    BelowParent(s, s, c);
    assert SameAt(t1, t2, s);
    forall t | IsSlot(roots, t) && t != s && !Below(t, s) ensures SameAt(tab, t2, t) {
      BelowParent(t, s, c);
      assert SameAt(tab, t1, t) && SameAt(t1, t2, t);
    }
    forall t | IsSlot(roots, t) && t.Leaf? && Below(t, s) ensures !Present(Entry(t2, t)) {
      if t != c {
        if Below(t, c) { NothingBelow(t2, c, t); } else { assert SameAt(t1, t2, t); }
      }
    }
  }

  lemma FreedTwice(tab: Tables, t1: Tables, t2: Tables, dat: Bytes, d1: Bytes, d2: Bytes,
                   owner: Owners, o1: Owners, o2: Owners, s: Slot, c: Slot, page: nat)
    requires FreedBelow(owner, o1, s, false) && FreedBelow(o1, o2, c, true) && Parent(c) == s && c != s
    requires OnlyFreed(tab, t1, dat, d1, owner, o1, page) && OnlyFreed(t1, t2, d1, d2, o1, o2, page)
    ensures FreedBelow(owner, o2, s, false) && OnlyFreed(tab, t2, dat, d2, owner, o2, page)
  {
    forall q | q in owner ensures FreedAt(owner, o2, s, false, q) && (o2[q] == owner[q] ==> o1[q] == owner[q]) {
      assert FreedAt(owner, o1, s, false, q) && FreedAt(o1, o2, c, true, q);
      if o1[q].By? { BelowParent(o1[q].s, s, c); }
    }
  }

  lemma ParentStays(tab: Tables, t1: Tables, roots: set<nat>, s: Slot)
    requires SameOutside(tab, t1, roots, s) && IsSlot(roots, s) && !s.Root?
    ensures Node(t1, Parent(s)) == Node(tab, Parent(s))
  {
    BelowParent(s, Parent(s), s);
    assert SameAt(tab, t1, Parent(s));
  }

  lemma FreedSelf(lo: nat, hi: nat, tab: Tables, t1: Tables, t2: Tables, dat: Bytes, d1: Bytes, d2: Bytes,
                  roots: set<nat>, owner: Owners, o1: Owners, free: seq<nat>, s: Slot, page: nat)
    requires IsSlot(roots, s) && (s.Mid? || s.Low?) && Node(t1, Parent(s)) == Node(tab, Parent(s)) &&
             page == Node(t1, s) && HoldsAt(o1, page, s)
    requires Node(t1, Parent(s)) in t1 && Index(s) < |t1[Node(t1, Parent(s))]| && page != Node(t1, Parent(s))
    requires Ok(lo, hi, Put(t1, Node(t1, Parent(s)), Index(s), 0), roots, o1[page := Held], free)
    requires SameBut(t1, Put(t1, Node(t1, Parent(s)), Index(s), 0), roots, s)
    requires SameOutside(tab, t1, roots, s) && FreedBelow(owner, o1, s, false) &&
             OnlyFreed(tab, t1, dat, d1, owner, o1, page)
    requires page in t2 && |t2[page]| == ENTRIES && t2 == t1[page := t2[page]] && page in d1 && page in d2 &&
             d2 == d1[page := d2[page]]
    ensures Node(tab, Parent(s)) in t2 && Index(s) < |t2[Node(tab, Parent(s))]|
    ensures Ok(lo, hi, Put(t2, Node(tab, Parent(s)), Index(s), 0), roots, o1[page := Free], [page] + free)
    ensures SameOutside(tab, Put(t2, Node(tab, Parent(s)), Index(s), 0), roots, s)
    ensures FreedBelow(owner, o1[page := Free], s, true) && OnlyFreed(tab, t2, dat, d2, owner, o1[page := Free], 0)
  {
    var p, i, row := Node(tab, Parent(s)), Index(s), t2[page];
    var v1 := Put(t1, p, i, 0);
    assert PageOk(lo, hi, v1, roots, o1[page := Held], free, page);
    UnreadOk(lo, hi, v1, roots, o1[page := Held], free, page, row);
    ReleaseOk(lo, hi, v1[page := row], roots, o1[page := Held], free, page);
    assert o1[page := Held][page := Free] == o1[page := Free];
    assert Put(t2, p, i, 0) == v1[page := row];
    forall t | IsSlot(roots, t) && t != s && !Below(t, s) ensures SameAt(tab, Put(t2, p, i, 0), t) {
      assert SameAt(tab, t1, t) && SameAt(t1, v1, t) && SameAt(v1, v1[page := row], t);
    }
    PageFreed(tab, t1, t2, dat, d1, d2, owner, o1, s, page);
  }

  lemma PageFreed(tab: Tables, t1: Tables, t2: Tables, dat: Bytes, d1: Bytes, d2: Bytes, owner: Owners, o1: Owners,
                  s: Slot, page: nat)
    requires HoldsAt(o1, page, s) && !s.Leaf? && FreedBelow(owner, o1, s, false) &&
             OnlyFreed(tab, t1, dat, d1, owner, o1, page)
    requires page in t1 && page in t2 && t2 == t1[page := t2[page]] && page in d1 && page in d2 &&
             d2 == d1[page := d2[page]]
    ensures FreedBelow(owner, o1[page := Free], s, true) && OnlyFreed(tab, t2, dat, d2, owner, o1[page := Free], 0)
  {
    var o2 := o1[page := Free];
    assert FreedAt(owner, o1, s, false, page);
    forall q | q in owner ensures FreedAt(owner, o2, s, true, q) {
      assert FreedAt(owner, o1, s, false, q);
    }
  }

  lemma RootGone(lo: nat, hi: nat, tab: Tables, t1: Tables, t2: Tables, roots: set<nat>, roots': set<nat>,
                 owner: Owners, o1: Owners, o2: Owners, free: seq<nat>, free': seq<nat>, r: nat)
    requires Ok(lo, hi, tab, roots, owner, free) && roots' == roots - {r} && SameOutside(tab, t1, roots, Root(r)) &&
             Same(t1, t2, roots') && FreedBelow(owner, o1, Root(r), false)
    requires HoldsAt(o1, r, Root(r)) && o2 == o1[r := Free] && Ok(lo, hi, t2, roots', o2, free')
    ensures Same(tab, t2, roots') && forall q | q in owner :: o2[q] == if OfTable(owner[q], r) then Free else owner[q]
  {
    forall t | IsSlot(roots', t) ensures SameAt(tab, t2, t) {
      assert t.r != r && !Below(t, Root(r)) && SameAt(tab, t1, t) && SameAt(t1, t2, t);
    }
    forall q | q in owner ensures o2[q] == if OfTable(owner[q], r) then Free else owner[q] {
      assert FreedAt(owner, o1, Root(r), false, q) && PageOk(lo, hi, t2, roots', o2, free', q) &&
             PageOk(lo, hi, tab, roots, owner, free, q);
    }
  }

  lemma LeafCleared(tab: Tables, t1: Tables, roots: set<nat>, r: nat, v: nat)
    requires SameBut(tab, t1, roots, Leaf(r, v))
    ensures LeavesBut(tab, t1, roots, r, v, 1)
  {
    forall t | IsSlot(roots, t) && t.Leaf? && !InRange(t, r, v, 1) ensures SameAt(tab, t1, t) {
      assert t != Leaf(r, v);
    }
  }

  lemma LeavesAgain(tab: Tables, t1: Tables, t2: Tables, roots: set<nat>, r: nat, v: nat)
    requires LeavesBut(tab, t1, roots, r, v, 1) && Same(t1, t2, roots)
    ensures LeavesBut(tab, t2, roots, r, v, 1)
  {
    forall t | IsSlot(roots, t) && t.Leaf? && !InRange(t, r, v, 1) ensures SameAt(tab, t2, t) {
      assert SameAt(tab, t1, t) && SameAt(t1, t2, t);
    }
  }

  lemma StillReady(tab: Tables, t1: Tables, dat: Bytes, d1: Bytes, owner: Owners, o1: Owners,
                   roots: set<nat>, r: nat, v: nat, k: nat, q: nat, perm: nat)
    requires MapState(tab, t1, dat, d1, owner, o1, roots, r, v, k, q, perm) && ReadyAt(tab, owner, r, v, q, k) &&
             r in roots && v + k < VPNS
    ensures ReadyAt(t1, o1, r, v, q, k)
  {
    assert !InRange(Leaf(r, v + k), r, v, k) && SameAt(tab, t1, Leaf(r, v + k));
    assert q + k in owner ==> HandsAt(owner, Lent(o1, q, k), r, 0, 0, q + k);
  }

  lemma BytesTwice(dat: Bytes, d1: Bytes, d2: Bytes, owner: Owners, o1: Owners, r: nat, q: nat, m: nat)
    requires BytesBut(dat, d1, owner, r, 0, 0) && BytesBut(d1, d2, o1, r, 0, 0) && Hands(owner, Lent(o1, q, m), r, 0, 0)
    requires forall x | x in o1 && q <= x < q + m :: o1[x] != Free
    ensures BytesBut(dat, d2, owner, r, 0, 0)
  {
    forall x | x in dat && Elsewhere(owner, r, 0, 0, x) ensures d2[x] == dat[x] {
      assert HandsAt(owner, Lent(o1, q, m), r, 0, 0, x) && Elsewhere(o1, r, 0, 0, x);
    }
  }

  lemma MapFails(tab: Tables, t1: Tables, t2: Tables, dat: Bytes, d1: Bytes, d2: Bytes,
                 owner: Owners, o1: Owners, o2: Owners, roots: set<nat>, r: nat, v: nat, m: nat, q: nat, perm: nat)
    requires MapState(tab, t1, dat, d1, owner, o1, roots, r, v, m, q, perm) && r in roots && v + m < VPNS
    requires Frame(t1, t2, d1, d2, o1, o2, roots, r, 0, 0)
    ensures MapState(tab, t2, dat, d2, owner, o2, roots, r, v, m, q, perm)
  {
    BytesTwice(dat, d1, d2, owner, o1, r, q, m);
    forall k: nat | k < m ensures MappedAt(t2, r, v, q, perm, k) {
      assert MappedAt(t1, r, v, q, perm, k) && SameAt(t1, t2, Leaf(r, v + k));
    }
    forall t | IsSlot(roots, t) && t.Leaf? && !InRange(t, r, v, m) ensures SameAt(tab, t2, t) {
      assert SameAt(tab, t1, t) && SameAt(t1, t2, t);
    }
    forall x | x in owner ensures HandsAt(owner, Lent(o2, q, m), r, 0, 0, x) {
      assert HandsAt(owner, Lent(o1, q, m), r, 0, 0, x) && HandsAt(o1, o2, r, 0, 0, x);
    }
    forall x | x in o1 && q <= x < q + m ensures o2[x] == o1[x] {
      assert HandsAt(o1, o2, r, 0, 0, x);
    }
  }

  lemma MapGoesOn(tab: Tables, t1: Tables, t2: Tables, dat: Bytes, d1: Bytes, d2: Bytes,
                  owner: Owners, o1: Owners, o2: Owners, roots: set<nat>, r: nat, v: nat, m: nat, q: nat, perm: nat)
    requires MapState(tab, t1, dat, d1, owner, o1, roots, r, v, m, q, perm) && r in roots && v + m < VPNS
    requires MapState(t1, t2, d1, d2, o1, o2, roots, r, v + m, 1, q + m, perm) && (q + m in o1 ==> o1[q + m] == Held)
    ensures MapState(tab, t2, dat, d2, owner, o2, roots, r, v, m + 1, q, perm)
  {
    BytesTwice(dat, d1, d2, owner, o1, r, q, m);
    MappedNext(tab, t1, t2, roots, r, v, m, q, perm);
    forall x | x in o1 && q <= x < q + m ensures o2[x] == o1[x] {
      assert HandsAt(o1, Lent(o2, q + m, 1), r, 0, 0, x);
    }
    LentNext(owner, o1, o2, r, q, m);
  }

  /** After walk(), page v is mapped to page q. */
  lemma MapOne(lo: nat, hi: nat, tab: Tables, t1: Tables, dat: Bytes, d1: Bytes, owner: Owners, o1: Owners,
               roots: set<nat>, free: seq<nat>, r: nat, v: nat, q: nat, perm: nat)
    requires Ok(lo, hi, t1, roots, o1, free) && Frame(tab, t1, dat, d1, owner, o1, roots, r, 0, 0) &&
             Node(t1, Parent(Leaf(r, v))) != 0
    requires r in roots && v < VPNS && perm < 1024 && perm % 2 == 0 && Maps(perm) && (v < TRAPFRAME || !User(perm))
    requires !Present(Entry(tab, Leaf(r, v))) && (q in owner ==> owner[q] == Held) && (v < TRAPFRAME ==> q in owner)
    ensures Node(t1, Parent(Leaf(r, v))) in t1 && v % 512 < |t1[Node(t1, Parent(Leaf(r, v)))]|
    ensures var t2 := Put(t1, Node(t1, Parent(Leaf(r, v))), v % 512, MakePte(q, perm));
            var o2 := if v < TRAPFRAME then o1[q := By(Leaf(r, v))] else o1;
            Ok(lo, hi, t2, roots, o2, free) && MapState(tab, t2, dat, d1, owner, o2, roots, r, v, 1, q, perm)
  {
    var s := Leaf(r, v);
    assert SameAt(tab, t1, s);
    LeafPut(lo, hi, t1, roots, o1, free, s, MakePte(q, perm));
    assert q in owner ==> HandsAt(owner, o1, r, 0, 0, q);
    var t2 := Put(t1, Node(t1, Parent(s)), v % 512, MakePte(q, perm));
    AttachOk(lo, hi, t1, roots, o1, free, t2, s, q);
    LeafMapped(tab, t1, t2, roots, r, v, q, perm);
    LentOne(owner, o1, r, v, q);
  }

  lemma LeafMapped(tab: Tables, t1: Tables, t2: Tables, roots: set<nat>, r: nat, v: nat, q: nat, perm: nat)
    requires perm < 1024 && perm % 2 == 0 && LeavesBut(tab, t1, roots, r, 0, 0) &&
             SameBut(t1, t2, roots, Leaf(r, v)) && Entry(t2, Leaf(r, v)) == MakePte(q, perm)
    ensures Mapped(tab, t2, roots, r, v, 1, q, perm)
  {
    forall t | IsSlot(roots, t) && t.Leaf? && !InRange(t, r, v, 1) ensures SameAt(tab, t2, t) {
      assert !InRange(t, r, 0, 0) && SameAt(tab, t1, t) && t != Leaf(r, v) && SameAt(t1, t2, t);
    }
  }

  lemma LentOne(owner: Owners, o1: Owners, r: nat, v: nat, q: nat)
    requires Hands(owner, o1, r, 0, 0) && (q in owner ==> owner[q] == Held) && (v < TRAPFRAME ==> q in owner)
    ensures Hands(owner, Lent(if v < TRAPFRAME then o1[q := By(Leaf(r, v))] else o1, q, 1), r, 0, 0)
  {
    var o2 := if v < TRAPFRAME then o1[q := By(Leaf(r, v))] else o1;
    forall x | x in owner ensures HandsAt(owner, Lent(o2, q, 1), r, 0, 0, x) {
      assert HandsAt(owner, o1, r, 0, 0, x);
    }
  }
}
