/**
 Inodes and the block allocator.

 The blocks are those the log and the buffer cache present: the last logged contents of each.
 The free bitmap is modelled as one bit per block and the inode blocks as one record per inode;
 data and indirect blocks are bytes, and an indirect block is read four bytes at a time.
 */
module FileSystem {
  import opened Common

  const BSIZE: nat := 1024
  const NDIRECT: nat := 12
  const NINDIRECT: nat := 256          // BSIZE / sizeof(uint)
  const MAXFILE: nat := 268            // NDIRECT + NINDIRECT
  const BPB: nat := 8192               // bitmap bits per block
  const IPB: nat := 16                 // inodes per block
  const U32: nat := 0x1_0000_0000

  type Byte = x: nat | x < 256
  type Block = seq<Byte>

  datatype Inode = Inode(typ: nat, major: nat, minor: nat, nlink: nat, size: nat, addrs: seq<nat>)

  // ----- words of a block --------------------------------------------------------

  function GetWord(b: Block, j: nat): (w: nat)
    requires |b| == BSIZE && j < NINDIRECT
  {
    b[4 * j] as int + 256 * b[4 * j + 1] as int + 65536 * b[4 * j + 2] as int + 16777216 * b[4 * j + 3] as int
  }

  function PutWord(b: Block, j: nat, w: nat): (r: Block)
    requires |b| == BSIZE && j < NINDIRECT && w < U32
    ensures |r| == BSIZE
  {
    b[4 * j := w % 256][4 * j + 1 := w / 256 % 256][4 * j + 2 := w / 65536 % 256][4 * j + 3 := w / 16777216 % 256]
  }

  lemma WordBytes(w: nat)
    requires w < U32
    ensures w == w % 256 + 256 * (w / 256 % 256) + 65536 * (w / 65536 % 256) + 16777216 * (w / 16777216 % 256)
  {
    assert w / 65536 == w / 256 / 256 && w / 16777216 == w / 65536 / 256;
  }

  lemma GetPut(b: Block, j: nat, w: nat, k: nat)
    requires |b| == BSIZE && j < NINDIRECT && k < NINDIRECT && w < U32
    ensures GetWord(PutWord(b, j, w), k) == if k == j then w else GetWord(b, k)
  {
    WordBytes(w);
  }

  function Zeros(): (b: Block)
    ensures |b| == BSIZE && forall j | 0 <= j < NINDIRECT :: GetWord(b, j) == 0
  {
    seq(BSIZE, i => 0)
  }

  // ----- where block numbers are kept ----------------------------------------------

  /** A place that can own a block. */
  datatype Slot = Meta | Direct(i: nat, k: nat) | Indirect(i: nat) | Entry(i: nat, j: nat)

  predicate IsSlot(mem: seq<Inode>, s: Slot) {
    match s
    case Meta => false
    case Direct(i, k) => i < |mem| && k < NDIRECT
    case Indirect(i) => i < |mem|
    case Entry(i, j) => i < |mem| && j < NINDIRECT
  }

  predicate Shaped(blocks: seq<Block>, mem: seq<Inode>) {
    && (forall b | 0 <= b < |blocks| :: |blocks[b]| == BSIZE)
    && (forall i | 0 <= i < |mem| :: |mem[i].addrs| == NDIRECT + 1)
  }

  /** The block number in slot s, 0 if there is none. */
  function Addr(blocks: seq<Block>, mem: seq<Inode>, s: Slot): (a: nat)
    requires Shaped(blocks, mem) && IsSlot(mem, s)
  {
    match s
    case Direct(i, k) => mem[i].addrs[k]
    case Indirect(i) => mem[i].addrs[NDIRECT]
    case Entry(i, j) =>
      var a := mem[i].addrs[NDIRECT];
      if 0 < a < |blocks| then GetWord(blocks[a], j) else 0
  }

  /** A block number in use is that of a data block, and owned by its slot. */
  ghost predicate SlotOk(meta: nat, blocks: seq<Block>, mem: seq<Inode>, owner: map<nat, Slot>, s: Slot)
    requires Shaped(blocks, mem)
  {
    IsSlot(mem, s) && Addr(blocks, mem, s) != 0 ==>
      meta <= Addr(blocks, mem, s) < |blocks| && Addr(blocks, mem, s) in owner && owner[Addr(blocks, mem, s)] == s
  }

  /** A block is marked in use exactly when it has an owner, and its owner holds its number. */
  ghost predicate BitOk(meta: nat, bits: seq<bool>, blocks: seq<Block>, mem: seq<Inode>, owner: map<nat, Slot>, b: nat)
    requires Shaped(blocks, mem)
  {
    && (b < |bits| ==> (bits[b] <==> b in owner))
    && (b in owner ==> b < |blocks| && (if b < meta then owner[b] == Meta
                                        else IsSlot(mem, owner[b]) && Addr(blocks, mem, owner[b]) == b))
  }

  ghost predicate Owned(meta: nat, bits: seq<bool>, blocks: seq<Block>, mem: seq<Inode>, owner: map<nat, Slot>) {
    && 0 < meta <= |blocks| == |bits| < U32 && Shaped(blocks, mem)
    && (forall s :: SlotOk(meta, blocks, mem, owner, s))
    && (forall b: nat :: BitOk(meta, bits, blocks, mem, owner, b))
    && (forall b | 0 <= b < meta :: b in owner)
  }

  /** No two slots hold the same block. */
  lemma OneOwner(meta: nat, bits: seq<bool>, blocks: seq<Block>, mem: seq<Inode>, owner: map<nat, Slot>, s: Slot,
                 t: Slot)
    requires Owned(meta, bits, blocks, mem, owner) && IsSlot(mem, s) && IsSlot(mem, t)
    requires Addr(blocks, mem, s) == Addr(blocks, mem, t) != 0
    ensures s == t
  {
    assert SlotOk(meta, blocks, mem, owner, s) && SlotOk(meta, blocks, mem, owner, t);
  }

  // What the owners are about, without them.

  /** Slot s holds block b. */
  ghost predicate Holds(blocks: seq<Block>, mem: seq<Inode>, s: Slot, b: nat)
    requires Shaped(blocks, mem)
  {
    IsSlot(mem, s) && Addr(blocks, mem, s) == b
  }

  ghost predicate NoHolder(blocks: seq<Block>, mem: seq<Inode>, b: nat)
    requires Shaped(blocks, mem)
  {
    forall s :: !Holds(blocks, mem, s, b)
  }

  ghost predicate OnlyHolder(blocks: seq<Block>, mem: seq<Inode>, b: nat, s: Slot)
    requires Shaped(blocks, mem)
  {
    Holds(blocks, mem, s, b) && forall t :: Holds(blocks, mem, t, b) ==> t == s
  }

  /** A metadata block is in use and in no slot; a data block that is in use is in exactly one slot; any other
      number but 0 is in none. */
  ghost predicate Placed(meta: nat, bits: seq<bool>, blocks: seq<Block>, mem: seq<Inode>, b: nat)
    requires Shaped(blocks, mem)
  {
    && (b < meta && b < |bits| ==> bits[b])
    && if meta <= b < |bits| && bits[b] then exists s :: OnlyHolder(blocks, mem, b, s)
       else b == 0 || NoHolder(blocks, mem, b)
  }

  ghost predicate Partitioned(meta: nat, bits: seq<bool>, blocks: seq<Block>, mem: seq<Inode>) {
    && 0 < meta <= |blocks| == |bits| < U32 && Shaped(blocks, mem)
    && forall b: nat :: Placed(meta, bits, blocks, mem, b)
  }

  /** The bitmap and the block lists can be given owners exactly if they partition the disk. */
  lemma OwnersPartition(meta: nat, bits: seq<bool>, blocks: seq<Block>, mem: seq<Inode>)
    ensures (exists owner :: Owned(meta, bits, blocks, mem, owner)) <==> Partitioned(meta, bits, blocks, mem)
  {
    if owner :| Owned(meta, bits, blocks, mem, owner) { OwnedIsPartitioned(meta, bits, blocks, mem, owner); }
    if Partitioned(meta, bits, blocks, mem) { var owner := PartitionedIsOwned(meta, bits, blocks, mem); }
  }

  lemma OwnedIsPartitioned(meta: nat, bits: seq<bool>, blocks: seq<Block>, mem: seq<Inode>, owner: map<nat, Slot>)
    requires Owned(meta, bits, blocks, mem, owner)
    ensures Partitioned(meta, bits, blocks, mem)
  {
    forall b: nat ensures Placed(meta, bits, blocks, mem, b) {
      assert BitOk(meta, bits, blocks, mem, owner, b);
      if meta <= b < |bits| && bits[b] {
        forall t ensures Holds(blocks, mem, t, b) ==> t == owner[b] { assert SlotOk(meta, blocks, mem, owner, t); }
        assert OnlyHolder(blocks, mem, b, owner[b]);
      } else if b != 0 {
        forall t ensures !Holds(blocks, mem, t, b) { assert SlotOk(meta, blocks, mem, owner, t); }
      }
    }
  }

  /** The owner of block b, if it is in use. */
  ghost function OwnerOf(meta: nat, blocks: seq<Block>, mem: seq<Inode>, b: nat): Slot
    requires Shaped(blocks, mem) && (meta <= b ==> exists s :: OnlyHolder(blocks, mem, b, s))
  {
    if b < meta then Meta else var s :| OnlyHolder(blocks, mem, b, s); s
  }

  lemma PartitionedIsOwned(meta: nat, bits: seq<bool>, blocks: seq<Block>, mem: seq<Inode>)
    returns (owner: map<nat, Slot>)
    requires Partitioned(meta, bits, blocks, mem)
    ensures Owned(meta, bits, blocks, mem, owner)
  {
    var used := InUse(bits);
    forall b | b in used && meta <= b ensures exists s :: OnlyHolder(blocks, mem, b, s) {
      assert Placed(meta, bits, blocks, mem, b);
    }
    owner := map b | b in used :: OwnerOf(meta, blocks, mem, b);
    forall t ensures SlotOk(meta, blocks, mem, owner, t) {
      if IsSlot(mem, t) && Addr(blocks, mem, t) != 0 {
        var b := Addr(blocks, mem, t);
        assert Placed(meta, bits, blocks, mem, b) && Holds(blocks, mem, t, b);
        assert OnlyHolder(blocks, mem, b, owner[b]);
      }
    }
    forall b: nat ensures BitOk(meta, bits, blocks, mem, owner, b) {
      assert b in used && meta <= b ==> OnlyHolder(blocks, mem, b, owner[b]);
    }
    forall b | 0 <= b < meta ensures b in owner { assert Placed(meta, bits, blocks, mem, b); }
  }

  ghost function InUse(bits: seq<bool>): (r: set<nat>)
    ensures forall b: nat :: b in r <==> b < |bits| && bits[b]
  {
    set b: nat | b < |bits| && bits[b]
  }

  /** A slot that holds nothing is given the free block b, zeroed. */
  lemma AttachOwned(meta: nat, bits: seq<bool>, blocks: seq<Block>, mem: seq<Inode>, owner: map<nat, Slot>,
                    blocks': seq<Block>, mem': seq<Inode>, s: Slot, b: nat)
    requires Owned(meta, bits, blocks, mem, owner) && IsSlot(mem, s) && Addr(blocks, mem, s) == 0
    requires b < |bits| && !bits[b]
    requires |blocks'| == |blocks| && |mem'| == |mem| && Shaped(blocks', mem') && Addr(blocks', mem', s) == b
    requires forall t | IsSlot(mem, t) && t != s :: Addr(blocks', mem', t) == Addr(blocks, mem, t)
    ensures Owned(meta, bits[b := true], blocks', mem', owner[b := s])
  {
    var bs, ow := bits[b := true], owner[b := s];
    assert BitOk(meta, bits, blocks, mem, owner, b);
    forall t ensures SlotOk(meta, blocks', mem', ow, t) {
      assert SlotOk(meta, blocks, mem, owner, t);
    }
    forall c: nat ensures BitOk(meta, bs, blocks', mem', ow, c) {
      assert BitOk(meta, bits, blocks, mem, owner, c);
    }
  }

  /** The slot that holds b gives it up. */
  lemma DetachOwned(meta: nat, bits: seq<bool>, blocks: seq<Block>, mem: seq<Inode>, owner: map<nat, Slot>,
                    blocks': seq<Block>, mem': seq<Inode>, s: Slot, b: nat)
    requires Owned(meta, bits, blocks, mem, owner) && IsSlot(mem, s) && Addr(blocks, mem, s) == b != 0
    requires |blocks'| == |blocks| && |mem'| == |mem| && Shaped(blocks', mem') && Addr(blocks', mem', s) == 0
    requires forall t | IsSlot(mem, t) && t != s :: Addr(blocks', mem', t) == Addr(blocks, mem, t)
    ensures b < |bits| && bits[b] && Owned(meta, bits[b := false], blocks', mem', owner - {b})
  {
    assert SlotOk(meta, blocks, mem, owner, s) && BitOk(meta, bits, blocks, mem, owner, b);
    var bs, ow := bits[b := false], owner - {b};
    forall t ensures SlotOk(meta, blocks', mem', ow, t) {
      assert SlotOk(meta, blocks, mem, owner, t);
    }
    forall c: nat ensures BitOk(meta, bs, blocks', mem', ow, c) {
      assert BitOk(meta, bits, blocks, mem, owner, c);
    }
  }

  // ----- file contents ----------------------------------------------------------------

  /** The slot of block bn of file i. */
  function SlotOf(i: nat, bn: nat): (s: Slot) { if bn < NDIRECT then Direct(i, bn) else Entry(i, bn - NDIRECT) }

  /** Byte k of file i. */
  function FileByte(blocks: seq<Block>, mem: seq<Inode>, i: nat, k: nat): (x: Byte)
    requires Shaped(blocks, mem) && i < |mem| && k < MAXFILE * BSIZE
  {
    var a := Addr(blocks, mem, SlotOf(i, k / BSIZE));
    if a < |blocks| then blocks[a][k % BSIZE] else 0
  }

  /** What file i holds. */
  function Content(blocks: seq<Block>, mem: seq<Inode>, i: nat): (c: seq<Byte>)
    requires Shaped(blocks, mem) && i < |mem| && mem[i].size <= MAXFILE * BSIZE
    ensures |c| == mem[i].size
  {
    seq(mem[i].size, k requires 0 <= k < mem[i].size => FileByte(blocks, mem, i, k))
  }

  /** Every block below the size is there. */
  predicate HoleOk(blocks: seq<Block>, mem: seq<Inode>, i: nat, bn: nat)
    requires Shaped(blocks, mem)
  {
    i < |mem| && bn < MAXFILE && bn * BSIZE < mem[i].size ==> Addr(blocks, mem, SlotOf(i, bn)) != 0
  }

  /** A free inode has neither size nor blocks. */
  predicate InodeOk(n: Inode) {
    n.size <= MAXFILE * BSIZE && (n.typ == 0 ==> n.size == 0 && forall k | 0 <= k < |n.addrs| :: n.addrs[k] == 0)
  }

  ghost predicate Ok(meta: nat, bits: seq<bool>, blocks: seq<Block>, mem: seq<Inode>, owner: map<nat, Slot>) {
    && Owned(meta, bits, blocks, mem, owner)
    && (forall i: nat, bn: nat :: HoleOk(blocks, mem, i, bn))
    && (forall i | 0 <= i < |mem| :: InodeOk(mem[i]))
  }

  /** Block bn of file i, if it was there, is where it was and holds what it held. */
  predicate KeptAt(blocks: seq<Block>, mem: seq<Inode>, blocks': seq<Block>, mem': seq<Inode>, i: nat, bn: nat)
    requires Shaped(blocks, mem) && Shaped(blocks', mem') && |mem'| == |mem| && |blocks'| == |blocks|
  {
    i < |mem| && bn < MAXFILE && Addr(blocks, mem, SlotOf(i, bn)) != 0 ==>
      && Addr(blocks', mem', SlotOf(i, bn)) == Addr(blocks, mem, SlotOf(i, bn))
      && (Addr(blocks, mem, SlotOf(i, bn)) < |blocks| ==>
            blocks'[Addr(blocks, mem, SlotOf(i, bn))] == blocks[Addr(blocks, mem, SlotOf(i, bn))])
  }

  ghost predicate Kept(blocks: seq<Block>, mem: seq<Inode>, blocks': seq<Block>, mem': seq<Inode>) {
    && Shaped(blocks, mem) && Shaped(blocks', mem') && |mem'| == |mem| && |blocks'| == |blocks|
    && forall i: nat, bn: nat :: KeptAt(blocks, mem, blocks', mem', i, bn)
  }

  /** Nothing but the block list of inode i differs: its size, type and links are as they were. */
  predicate SameMeta(mem: seq<Inode>, mem': seq<Inode>, i: nat) {
    i < |mem| == |mem'| && mem' == mem[i := mem'[i]] && mem'[i].(addrs := []) == mem[i].(addrs := [])
  }

  // ----- giving a block to a slot ---------------------------------------------------------

  /** An indirect block is in use, so it is not the free block b. */
  lemma IndirectInUse(meta: nat, bits: seq<bool>, blocks: seq<Block>, mem: seq<Inode>, owner: map<nat, Slot>, i: nat)
    requires Owned(meta, bits, blocks, mem, owner) && i < |mem|
    ensures mem[i].addrs[NDIRECT] != 0 ==>
              meta <= mem[i].addrs[NDIRECT] < |blocks| && bits[mem[i].addrs[NDIRECT]] &&
              mem[i].addrs[NDIRECT] in owner && owner[mem[i].addrs[NDIRECT]] == Indirect(i)
  {
    assert Addr(blocks, mem, Indirect(i)) == mem[i].addrs[NDIRECT];
    assert SlotOk(meta, blocks, mem, owner, Indirect(i)) &&
           BitOk(meta, bits, blocks, mem, owner, mem[i].addrs[NDIRECT]);
  }

  /** A block that is not in use is a data block. */
  lemma FreeIsData(meta: nat, bits: seq<bool>, blocks: seq<Block>, mem: seq<Inode>, owner: map<nat, Slot>)
    requires Owned(meta, bits, blocks, mem, owner)
    ensures bits[0] && forall b | 0 <= b < |bits| && !bits[b] :: meta <= b
  {
    forall b | 0 <= b < meta ensures bits[b] { assert BitOk(meta, bits, blocks, mem, owner, b); }
  }

  function WithAddr(mem: seq<Inode>, i: nat, k: nat, b: nat): (r: seq<Inode>)
    requires i < |mem| && k < |mem[i].addrs|
  {
    mem[i := mem[i].(addrs := mem[i].addrs[k := b])]
  }

  /** A direct slot, or that of the indirect block, takes b. */
  lemma AttachInInode(meta: nat, bits: seq<bool>, blocks: seq<Block>, mem: seq<Inode>, owner: map<nat, Slot>, s: Slot,
                      b: nat)
    requires Owned(meta, bits, blocks, mem, owner) && IsSlot(mem, s) && !s.Entry? && Addr(blocks, mem, s) == 0
    requires b < |bits| && !bits[b]
    ensures Owned(meta, bits[b := true], blocks[b := Zeros()],
                  WithAddr(mem, s.i, if s.Direct? then s.k else NDIRECT, b), owner[b := s])
    ensures forall t | IsSlot(mem, t) && t != s ::
              Addr(blocks[b := Zeros()], WithAddr(mem, s.i, if s.Direct? then s.k else NDIRECT, b), t) ==
                Addr(blocks, mem, t)
  {
    var blocks', mem' := blocks[b := Zeros()], WithAddr(mem, s.i, if s.Direct? then s.k else NDIRECT, b);
    assert b in owner <==> bits[b] by { assert BitOk(meta, bits, blocks, mem, owner, b); }
    forall t | IsSlot(mem, t) && t != s ensures Addr(blocks', mem', t) == Addr(blocks, mem, t) {
      if t.Entry? { IndirectInUse(meta, bits, blocks, mem, owner, t.i); }
    }
    AttachOwned(meta, bits, blocks, mem, owner, blocks', mem', s, b);
  }

  /** Entry j of the indirect block of inode i takes b. */
  lemma AttachInIndirect(meta: nat, bits: seq<bool>, blocks: seq<Block>, mem: seq<Inode>, owner: map<nat, Slot>,
                         i: nat, j: nat, b: nat)
    requires Owned(meta, bits, blocks, mem, owner) && IsSlot(mem, Entry(i, j)) && Addr(blocks, mem, Entry(i, j)) == 0
    requires b < |bits| && !bits[b] && 0 < mem[i].addrs[NDIRECT] < |blocks|
    ensures var d := mem[i].addrs[NDIRECT];
            var blocks' := blocks[b := Zeros()][d := PutWord(blocks[d], j, b)];
            && Owned(meta, bits[b := true], blocks', mem, owner[b := Entry(i, j)])
            && forall t | IsSlot(mem, t) && t != Entry(i, j) :: Addr(blocks', mem, t) == Addr(blocks, mem, t)
  {
    var d := mem[i].addrs[NDIRECT];
    var blocks' := blocks[b := Zeros()][d := PutWord(blocks[d], j, b)];
    IndirectInUse(meta, bits, blocks, mem, owner, i);
    GetPut(blocks[d], j, b, j);
    forall t | IsSlot(mem, t) && t != Entry(i, j) ensures Addr(blocks', mem, t) == Addr(blocks, mem, t) {
      if t.Entry? {
        IndirectInUse(meta, bits, blocks, mem, owner, t.i);
        GetPut(blocks[d], j, b, t.j);
      }
    }
    AttachOwned(meta, bits, blocks, mem, owner, blocks', mem, Entry(i, j), b);
  }

  /** Giving b to slot s leaves every file as it was. */
  lemma AttachKeeps(meta: nat, bits: seq<bool>, blocks: seq<Block>, mem: seq<Inode>, owner: map<nat, Slot>,
                    blocks': seq<Block>, mem': seq<Inode>, s: Slot, b: nat, d: nat)
    requires Ok(meta, bits, blocks, mem, owner) && IsSlot(mem, s) && Addr(blocks, mem, s) == 0 && b < |bits| && !bits[b]
    requires |blocks'| == |blocks| && Shaped(blocks', mem') && SameMeta(mem, mem', s.i) && mem[s.i].typ != 0
    requires forall t | IsSlot(mem, t) && t != s :: Addr(blocks', mem', t) == Addr(blocks, mem, t)
    requires forall c | 0 <= c < |blocks| && c != b && c != d :: blocks'[c] == blocks[c]
    requires d == b || d == mem[s.i].addrs[NDIRECT] != 0
    ensures Kept(blocks, mem, blocks', mem')
    ensures forall i: nat, bn: nat :: HoleOk(blocks', mem', i, bn)
    ensures forall i | 0 <= i < |mem'| :: InodeOk(mem'[i])
  {
    assert BitOk(meta, bits, blocks, mem, owner, b);
    IndirectInUse(meta, bits, blocks, mem, owner, s.i);
    forall i: nat, bn: nat ensures KeptAt(blocks, mem, blocks', mem', i, bn) {
      assert SlotOk(meta, blocks, mem, owner, SlotOf(i, bn)) && (s == SlotOf(i, bn) || s != SlotOf(i, bn));
    }
    forall i: nat, bn: nat ensures HoleOk(blocks', mem', i, bn) {
      assert HoleOk(blocks, mem, i, bn) && KeptAt(blocks, mem, blocks', mem', i, bn);
    }
    forall i | 0 <= i < |mem'| ensures InodeOk(mem'[i]) {
      assert InodeOk(mem[i]);
    }
  }

  lemma AttachEntry(meta: nat, bits': seq<bool>, bits: seq<bool>, blocks: seq<Block>, mem: seq<Inode>,
                    owner: map<nat, Slot>, i: nat, j: nat, b: nat,
                    d: nat, blocks': seq<Block>)
    requires Ok(meta, bits, blocks, mem, owner) && IsSlot(mem, Entry(i, j)) && Addr(blocks, mem, Entry(i, j)) == 0 &&
             mem[i].typ != 0
    requires b < |bits| && !bits[b] && d == mem[i].addrs[NDIRECT] && 0 < d < |blocks| && bits' == bits[b := true]
    requires d != b ==> blocks' == blocks[b := Zeros()][d := PutWord(blocks[d], j, b)]
    ensures d != b && Ok(meta, bits', blocks', mem, owner[b := Entry(i, j)]) && Kept(blocks, mem, blocks', mem) &&
            Addr(blocks', mem, Entry(i, j)) == b
  {
    IndirectInUse(meta, bits, blocks, mem, owner, i);
    AttachInIndirect(meta, bits, blocks, mem, owner, i, j, b);
    AttachKeeps(meta, bits, blocks, mem, owner, blocks', mem, Entry(i, j), b, d);
    GetPut(blocks[d], j, b, j);
  }

  lemma KeptTwice(blocks: seq<Block>, mem: seq<Inode>, blocks': seq<Block>, mem': seq<Inode>, blocks'': seq<Block>,
                  mem'': seq<Inode>)
    requires Kept(blocks, mem, blocks', mem') && Kept(blocks', mem', blocks'', mem'')
    ensures Kept(blocks, mem, blocks'', mem'')
  {
    forall i: nat, bn: nat ensures KeptAt(blocks, mem, blocks'', mem'', i, bn) {
      assert KeptAt(blocks, mem, blocks', mem', i, bn) && KeptAt(blocks', mem', blocks'', mem'', i, bn);
    }
  }

  // ----- writing data ------------------------------------------------------------------------

  /** A data block changes: no block list does, nor any other block of a file. */
  lemma DataWritten(meta: nat, bits: seq<bool>, blocks: seq<Block>, mem: seq<Inode>, owner: map<nat, Slot>, i: nat,
                    bn: nat, data: Block)
    requires Ok(meta, bits, blocks, mem, owner) && i < |mem| && bn < MAXFILE &&
             Addr(blocks, mem, SlotOf(i, bn)) != 0 && |data| == BSIZE
    ensures Addr(blocks, mem, SlotOf(i, bn)) < |blocks|
    ensures var blocks' := blocks[Addr(blocks, mem, SlotOf(i, bn)) := data];
            && Ok(meta, bits, blocks', mem, owner)
            && (forall t | IsSlot(mem, t) :: Addr(blocks', mem, t) == Addr(blocks, mem, t))
            && (forall x: nat, y: nat | x != i || y != bn :: KeptAt(blocks, mem, blocks', mem, x, y))
  {
    var s := SlotOf(i, bn);
    var a := Addr(blocks, mem, s);
    assert SlotOk(meta, blocks, mem, owner, s);
    var blocks' := blocks[a := data];
    forall t | IsSlot(mem, t) ensures Addr(blocks', mem, t) == Addr(blocks, mem, t) {
      if t.Entry? { IndirectInUse(meta, bits, blocks, mem, owner, t.i); }
    }
    forall t ensures SlotOk(meta, blocks', mem, owner, t) {
      assert SlotOk(meta, blocks, mem, owner, t);
    }
    forall c: nat ensures BitOk(meta, bits, blocks', mem, owner, c) {
      assert BitOk(meta, bits, blocks, mem, owner, c);
    }
    forall x: nat, y: nat ensures HoleOk(blocks', mem, x, y) {
      assert HoleOk(blocks, mem, x, y);
    }
    forall x: nat, y: nat | x != i || y != bn ensures KeptAt(blocks, mem, blocks', mem, x, y) {
      if x < |mem| && y < MAXFILE && Addr(blocks, mem, SlotOf(x, y)) == a {
        OneOwner(meta, bits, blocks, mem, owner, SlotOf(x, y), s);
      }
    }
  }

  /** Byte k of file i, once the bytes d have been written from off on. */
  predicate ByteOk(blocks: seq<Block>, mem: seq<Inode>, blocks': seq<Block>, mem': seq<Inode>, i: nat, off: nat,
                   d: seq<Byte>, k: nat)
    requires Shaped(blocks, mem) && Shaped(blocks', mem') && i < |mem| == |mem'| && |blocks'| == |blocks|
  {
    k < MAXFILE * BSIZE ==>
      if off <= k < off + |d| then Addr(blocks', mem', SlotOf(i, k / BSIZE)) != 0 &&
        FileByte(blocks', mem', i, k) == d[k - off]
      else Addr(blocks, mem, SlotOf(i, k / BSIZE)) != 0 ==>
             Addr(blocks', mem', SlotOf(i, k / BSIZE)) == Addr(blocks, mem, SlotOf(i, k / BSIZE)) &&
               FileByte(blocks', mem', i, k) == FileByte(blocks, mem, i, k)
  }

  /** The bytes d have been written to file i from off on, and nothing else has changed. */
  ghost predicate Wrote(blocks: seq<Block>, mem: seq<Inode>, blocks': seq<Block>, mem': seq<Inode>, i: nat, off: nat,
                        d: seq<Byte>) {
    && Shaped(blocks, mem) && Shaped(blocks', mem') && i < |mem| == |mem'| && |blocks'| == |blocks|
    && SameMeta(mem, mem', i)
    && (forall x: nat, y: nat :: x == i || KeptAt(blocks, mem, blocks', mem', x, y))
    && (forall k: nat :: ByteOk(blocks, mem, blocks', mem', i, off, d, k))
  }

  lemma WroteNothing(blocks: seq<Block>, mem: seq<Inode>, i: nat, off: nat)
    requires Shaped(blocks, mem) && i < |mem|
    ensures Wrote(blocks, mem, blocks, mem, i, off, [])
  {
  }

  /** Allocating a block in between makes no difference. */
  lemma WroteKept(blocks: seq<Block>, mem: seq<Inode>, b1: seq<Block>, m1: seq<Inode>, b2: seq<Block>, m2: seq<Inode>,
                  i: nat, off: nat, d: seq<Byte>)
    requires Wrote(blocks, mem, b1, m1, i, off, d) && Kept(b1, m1, b2, m2) && SameMeta(m1, m2, i)
    ensures Wrote(blocks, mem, b2, m2, i, off, d)
  {
    forall x: nat, y: nat ensures x == i || KeptAt(blocks, mem, b2, m2, x, y) {
      assert x == i || KeptAt(blocks, mem, b1, m1, x, y);
      assert KeptAt(b1, m1, b2, m2, x, y);
    }
    forall k: nat ensures ByteOk(blocks, mem, b2, m2, i, off, d, k) {
      assert ByteOk(blocks, mem, b1, m1, i, off, d, k) && KeptAt(b1, m1, b2, m2, i, k / BSIZE);
    }
  }

  /** A chunk that stays within one block. */
  function Patched(b: Block, at: nat, chunk: seq<Byte>): (r: Block)
    requires at + |chunk| <= |b|
    ensures |r| == |b| && forall k | 0 <= k < |b| :: r[k] == if at <= k < at + |chunk| then chunk[k - at] else b[k]
  {
    b[..at] + chunk + b[at + |chunk|..]
  }

  lemma WroteMore(meta: nat, bits: seq<bool>, blocks: seq<Block>, mem: seq<Inode>, b1: seq<Block>, m1: seq<Inode>,
                  owner: map<nat, Slot>,
                  i: nat, off: nat, d: seq<Byte>, chunk: seq<Byte>)
    requires Wrote(blocks, mem, b1, m1, i, off, d) && Ok(meta, bits, b1, m1, owner)
    requires off + |d| < MAXFILE * BSIZE && (off + |d|) % BSIZE + |chunk| <= BSIZE
    requires Addr(b1, m1, SlotOf(i, (off + |d|) / BSIZE)) != 0
    ensures var a := Addr(b1, m1, SlotOf(i, (off + |d|) / BSIZE));
            a < |b1| && var b2 := b1[a := Patched(b1[a], (off + |d|) % BSIZE, chunk)];
            Ok(meta, bits, b2, m1, owner) && Wrote(blocks, mem, b2, m1, i, off, d + chunk)
  {
    var at, bn := (off + |d|) % BSIZE, (off + |d|) / BSIZE;
    var a := Addr(b1, m1, SlotOf(i, bn));
    assert SlotOk(meta, b1, m1, owner, SlotOf(i, bn));
    var data := Patched(b1[a], at, chunk);
    DataWritten(meta, bits, b1, m1, owner, i, bn, data);
    var b2, e := b1[a := data], d + chunk;
    forall x: nat, y: nat ensures x == i || KeptAt(blocks, mem, b2, m1, x, y) {
      assert x == i || KeptAt(blocks, mem, b1, m1, x, y);
      assert x == i || KeptAt(b1, m1, b2, m1, x, y);
    }
    forall k: nat ensures ByteOk(blocks, mem, b2, m1, i, off, e, k) {
      assert ByteOk(blocks, mem, b1, m1, i, off, d, k);
      assert k / BSIZE == bn || KeptAt(b1, m1, b2, m1, i, k / BSIZE);
    }
  }

  function WithSize(mem: seq<Inode>, i: nat, size: nat): (r: seq<Inode>)
    requires i < |mem|
  {
    mem[i := mem[i].(size := size)]
  }

  /** Only size and block list differ. */
  predicate SameKind(n: Inode, n': Inode) { n'.(size := 0, addrs := []) == n.(size := 0, addrs := []) }

  /** c with d written over it from off on. */
  function Overwrite(c: seq<Byte>, off: nat, d: seq<Byte>): (r: seq<Byte>)
    requires off <= |c|
  {
    c[..off] + d + if off + |d| < |c| then c[off + |d|..] else []
  }

  /** What was written reads back, and the rest is as it was. */
  lemma OverwriteReads(c: seq<Byte>, off: nat, d: seq<Byte>)
    requires off <= |c|
    ensures |Overwrite(c, off, d)| == Max(|c|, off + |d|)
    ensures Overwrite(c, off, d)[off..off + |d|] == d && Overwrite(c, off, d)[..off] == c[..off]
    ensures off + |d| <= |c| ==> Overwrite(c, off, d)[off + |d|..] == c[off + |d|..]
  {
  }

  function Max(a: nat, b: nat): (m: nat) { if a < b then b else a }

  /** Raising the size over what has been written leaves no hole. */
  lemma SizedOk(meta: nat, bits: seq<bool>, blocks: seq<Block>, mem: seq<Inode>, b1: seq<Block>, m1: seq<Inode>,
                owner: map<nat, Slot>,
                i: nat, off: nat, d: seq<Byte>)
    requires Wrote(blocks, mem, b1, m1, i, off, d) && Ok(meta, bits, b1, m1, owner) && m1[i].typ != 0
    requires off <= mem[i].size && off + |d| <= MAXFILE * BSIZE
    ensures Ok(meta, bits, b1, WithSize(m1, i, Max(mem[i].size, off + |d|)), owner)
  {
    var m2 := WithSize(m1, i, Max(mem[i].size, off + |d|));
    assert InodeOk(m1[i]);
    forall t ensures SlotOk(meta, b1, m2, owner, t) {
      assert SlotOk(meta, b1, m1, owner, t);
    }
    forall c: nat ensures BitOk(meta, bits, b1, m2, owner, c) {
      assert BitOk(meta, bits, b1, m1, owner, c);
    }
    forall x: nat, y: nat ensures HoleOk(b1, m2, x, y) {
      assert HoleOk(b1, m1, x, y);
      assert ByteOk(blocks, mem, b1, m1, i, off, d, y * BSIZE);
    }
  }

  lemma SizedContent(meta: nat, bits: seq<bool>, blocks: seq<Block>, mem: seq<Inode>, b1: seq<Block>, m1: seq<Inode>,
                     owner: map<nat, Slot>,
                     i: nat, off: nat, d: seq<Byte>)
    requires Wrote(blocks, mem, b1, m1, i, off, d) && Ok(meta, bits, blocks, mem, owner)
    requires off <= mem[i].size && off + |d| <= MAXFILE * BSIZE
    ensures Content(b1, WithSize(m1, i, Max(mem[i].size, off + |d|)), i) == Overwrite(Content(blocks, mem, i), off, d)
  {
    var m2 := WithSize(m1, i, Max(mem[i].size, off + |d|));
    assert InodeOk(mem[i]);
    var c, r := Content(b1, m2, i), Overwrite(Content(blocks, mem, i), off, d);
    forall k: nat | k < |c| ensures c[k] == r[k] {
      assert ByteOk(blocks, mem, b1, m1, i, off, d, k) && HoleOk(blocks, mem, i, k / BSIZE);
      assert FileByte(b1, m2, i, k) == FileByte(b1, m1, i, k);
    }
  }

  lemma OtherContent(meta: nat, bits: seq<bool>, blocks: seq<Block>, mem: seq<Inode>, b1: seq<Block>, m2: seq<Inode>,
                     owner: map<nat, Slot>, x: nat)
    requires Ok(meta, bits, blocks, mem, owner) && x < |mem| == |m2| && |b1| == |blocks| && Shaped(b1, m2) &&
             m2[x].size == mem[x].size
    requires forall y: nat :: KeptAt(blocks, mem, b1, m2, x, y)
    ensures mem[x].size <= MAXFILE * BSIZE && Content(b1, m2, x) == Content(blocks, mem, x)
  {
    assert InodeOk(mem[x]);
    forall k: nat | k < mem[x].size ensures FileByte(b1, m2, x, k) == FileByte(blocks, mem, x, k) {
      assert HoleOk(blocks, mem, x, k / BSIZE) && KeptAt(blocks, mem, b1, m2, x, k / BSIZE);
      assert SlotOk(meta, blocks, mem, owner, SlotOf(x, k / BSIZE));
    }
  }

  // ----- truncation ---------------------------------------------------------------------------------

  /** A direct slot, or that of an indirect block with no entries left, gives up its block. */
  lemma DetachInInode(meta: nat, bits: seq<bool>, blocks: seq<Block>, mem: seq<Inode>, owner: map<nat, Slot>, i: nat,
                      k: nat)
    requires Owned(meta, bits, blocks, mem, owner) && i < |mem| && k <= NDIRECT && mem[i].addrs[k] != 0
    requires k == NDIRECT ==> forall j: nat | j < NINDIRECT :: Addr(blocks, mem, Entry(i, j)) == 0
    ensures mem[i].addrs[k] < |bits| && bits[mem[i].addrs[k]]
    ensures Owned(meta, bits[mem[i].addrs[k] := false], blocks, WithAddr(mem, i, k, 0), owner - {mem[i].addrs[k]})
  {
    var s := if k < NDIRECT then Direct(i, k) else Indirect(i);
    var mem' := WithAddr(mem, i, k, 0);
    forall t | IsSlot(mem, t) && t != s ensures Addr(blocks, mem', t) == Addr(blocks, mem, t) {}
    DetachOwned(meta, bits, blocks, mem, owner, blocks, mem', s, mem[i].addrs[k]);
  }

  /** Entry j of an indirect block gives up its block. */
  lemma DetachInIndirect(meta: nat, bits: seq<bool>, blocks: seq<Block>, mem: seq<Inode>, owner: map<nat, Slot>,
                         i: nat, j: nat, d: nat, b: nat)
    requires Owned(meta, bits, blocks, mem, owner) && i < |mem| && j < NINDIRECT && d == mem[i].addrs[NDIRECT] != 0 &&
             d < |blocks|
    requires b == GetWord(blocks[d], j) != 0
    ensures b < |bits| && bits[b] && Owned(meta, bits[b := false], blocks[d := PutWord(blocks[d], j, 0)], mem,
                                           owner - {b})
  {
    var s, blocks' := Entry(i, j), blocks[d := PutWord(blocks[d], j, 0)];
    GetPut(blocks[d], j, 0, j);
    forall t | IsSlot(mem, t) && t != s ensures Addr(blocks', mem, t) == Addr(blocks, mem, t) {
      if t.Entry? {
        GetPut(blocks[d], j, 0, t.j);
        if t.i != i && mem[t.i].addrs[NDIRECT] == d {
          OneOwner(meta, bits, blocks, mem, owner, Indirect(i), Indirect(t.i));
        }
      }
    }
    DetachOwned(meta, bits, blocks, mem, owner, blocks', mem, s, b);
  }

  /** The words of an indirect block that itrunc() has gone past count as cleared. */
  ghost predicate Cleared(b: Block, c: Block, j: nat) {
    |b| == |c| == BSIZE && forall x: nat | x < NINDIRECT :: GetWord(c, x) == if x < j then 0 else GetWord(b, x)
  }

  /** Only the indirect block of inode i differs, and inode i no longer uses it. */
  lemma ForgetIndirect(meta: nat, bits: seq<bool>, blocks: seq<Block>, blocks': seq<Block>, mem: seq<Inode>,
                       owner: map<nat, Slot>, d: nat)
    requires Owned(meta, bits, blocks, mem, owner) && d < |blocks| == |blocks'| && d !in owner && |blocks'[d]| == BSIZE
    requires blocks' == blocks[d := blocks'[d]]
    ensures Owned(meta, bits, blocks', mem, owner)
  {
    forall t | IsSlot(mem, t) ensures Addr(blocks', mem, t) == Addr(blocks, mem, t) {
      if t.Entry? { IndirectInUse(meta, bits, blocks, mem, owner, t.i); }
    }
    forall t ensures SlotOk(meta, blocks', mem, owner, t) {
      assert SlotOk(meta, blocks, mem, owner, t);
    }
    forall c: nat ensures BitOk(meta, bits, blocks', mem, owner, c) {
      assert BitOk(meta, bits, blocks, mem, owner, c);
    }
  }

  predicate OfInode(s: Slot, i: nat) { !s.Meta? && s.i == i }

  function New(typ: nat): (n: Inode) { Inode(typ, 0, 0, 0, 0, seq(NDIRECT + 1, k => 0)) }

  function Empty(n: Inode): (r: Inode) { n.(size := 0, addrs := seq(NDIRECT + 1, k => 0)) }

  /** Exactly the blocks of inode i have become free. */
  ghost predicate Truncated(bits: seq<bool>, bits': seq<bool>, owner: map<nat, Slot>, i: nat) {
    |bits'| == |bits| && forall b: nat | b < |bits| :: bits'[b] <==> bits[b] && b in owner && !OfInode(owner[b], i)
  }

  lemma TruncatedBits(meta: nat, bits: seq<bool>, blocks: seq<Block>, mem: seq<Inode>, owner: map<nat, Slot>,
                      bits': seq<bool>, owner': map<nat, Slot>, i: nat)
    requires i < |mem| && Owned(meta, bits, blocks, mem, owner) &&
             Owned(meta, bits', blocks, mem[i := Empty(mem[i])], owner')
    ensures Truncated(bits, bits', owner, i)
  {
    var mem' := mem[i := Empty(mem[i])];
    forall b: nat | b < |bits| ensures bits'[b] <==> bits[b] && b in owner && !OfInode(owner[b], i) {
      assert BitOk(meta, bits, blocks, mem, owner, b) && BitOk(meta, bits', blocks, mem', owner', b);
      if b >= meta {
        if b in owner { assert SlotOk(meta, blocks, mem', owner', owner[b]); }
        if b in owner' { assert SlotOk(meta, blocks, mem, owner, owner'[b]); }
      }
    }
  }

  lemma TruncatedOk(meta: nat, bits: seq<bool>, blocks: seq<Block>, mem: seq<Inode>, owner: map<nat, Slot>,
                    bits': seq<bool>, owner': map<nat, Slot>, i: nat)
    requires i < |mem| && Ok(meta, bits, blocks, mem, owner) &&
             Owned(meta, bits', blocks, mem[i := Empty(mem[i])], owner')
    ensures Ok(meta, bits', blocks, mem[i := Empty(mem[i])], owner')
  {
    var mem' := mem[i := Empty(mem[i])];
    forall x: nat, y: nat ensures HoleOk(blocks, mem', x, y) {
      assert HoleOk(blocks, mem, x, y);
    }
  }

  // ----- counting logged blocks ------------------------------------------------------------------

  function One(a: nat): (r: set<nat>) { if a == 0 then {} else {a} }

  /** How many blocks the n bytes from off on lie in. */
  function Spanned(off: nat, n: nat): (v: nat) { if n == 0 then 0 else (off + n - 1) / BSIZE - off / BSIZE + 1 }

  /** How many of them may have to be allocated: not the first, if off is inside it. */
  function Fresh(off: nat, v: nat): (n: nat) { if off % BSIZE != 0 && v > 0 then v - 1 else v }

  /** v blocks have been visited when tot of the n bytes are done. */
  predicate Position(off: nat, n: nat, tot: nat, v: nat) {
    tot <= n && v <= Spanned(off, n) && (tot < n ==> v == (off + tot) / BSIZE - off / BSIZE &&
                                                     (tot > 0 ==> (off + tot) % BSIZE == 0))
  }

  function ChunkSize(off: nat, n: nat, tot: nat): (m: nat)
    requires tot < n
  {
    if n - tot < BSIZE - (off + tot) % BSIZE then n - tot else BSIZE - (off + tot) % BSIZE
  }

  lemma NextPosition(off: nat, n: nat, tot: nat, v: nat)
    requires Position(off, n, tot, v) && tot < n
    ensures v + 1 <= Spanned(off, n) && Position(off, n, tot + ChunkSize(off, n, tot), v + 1)
  {
  }

  /** Copies are made block by block: position k starts one. */
  predicate ChunkStart(off: nat, k: nat) { k == 0 || (off + k) % BSIZE == 0 }

  /** writei() has visited v blocks for the first tot of n bytes, and copied all it has come to. */
  predicate Reached(off: nat, n: nat, tot: nat, v: nat, bad: set<nat>) {
    Position(off, n, tot, v) && (v == 0 ==> tot == 0) && NoneBad(bad, off, tot) && (tot < n ==> ChunkStart(off, tot))
  }

  lemma NextReached(off: nat, n: nat, tot: nat, v: nat, bad: set<nat>)
    requires Reached(off, n, tot, v, bad) && tot < n
    ensures v + 1 <= Spanned(off, n) && (tot !in bad ==> Reached(off, n, tot + ChunkSize(off, n, tot), v + 1, bad))
  {
    NextPosition(off, n, tot, v);
    if tot !in bad { NextStart(bad, off, n, tot); }
  }

  /** None of the copies before position tot fails. */
  predicate NoneBad(bad: set<nat>, off: nat, tot: nat) { forall k <- bad :: k < tot ==> !ChunkStart(off, k) }

  lemma NextStart(bad: set<nat>, off: nat, n: nat, tot: nat)
    requires tot < n && ChunkStart(off, tot) && NoneBad(bad, off, tot) && tot !in bad
    ensures var next := tot + ChunkSize(off, n, tot); NoneBad(bad, off, next) && (next < n ==> ChunkStart(off, next))
  {
    forall k | k in bad && k < tot + ChunkSize(off, n, tot) ensures !ChunkStart(off, k) {
      if tot < k { NoStartWithin(off, tot, k); }
    }
  }

  lemma NoStartWithin(off: nat, tot: nat, k: nat)
    requires tot < k < tot + (BSIZE - (off + tot) % BSIZE)
    ensures (off + k) % BSIZE != 0
  {
  }

  /** What a call of writei() has logged: the blocks bm of the bitmap and the data blocks, v of them visited and nd
      allocated. */
  datatype Tally = Tally(bm: set<nat>, data: set<nat>, v: nat, nd: nat)

  /** That is all, but for the indirect block, which was d0 and is d, on a disk of `size` blocks. */
  ghost predicate Account(before: set<nat>, now: set<nat>, t: Tally, d0: nat, d: nat, p: Places, size: nat, off: nat) {
    && |t.data| <= t.v && t.nd <= Fresh(off, t.v) && |t.bm| <= t.nd + (if d != d0 then 1 else 0) &&
      (d0 != 0 ==> d == d0)
    && (forall b | b in t.bm :: p.InBitmap(size, b))
    && (forall b | b in now :: b in before || b in t.bm || b in t.data || b == d != 0)
  }

  /** One more block, found at addr where prev was, with `more` of the bitmap. */
  function Next(t: Tally, more: set<nat>, prev: nat, addr: nat): (t': Tally) {
    Tally(t.bm + more, t.data + {addr}, t.v + 1, t.nd + if addr != prev then 1 else 0)
  }

  lemma NextAccount(before: set<nat>, l1: set<nat>, l2: set<nat>, t: Tally, t': Tally, d0: nat, d1: nat, d2: nat,
                    p: Places, size: nat, off: nat, more: set<nat>, prev: nat, addr: nat)
    requires Account(before, l1, t, d0, d1, p, size, off) && t' == Next(t, more, prev, addr)
    requires l2 <= l1 + more + One(addr) + One(d2) && (d1 != 0 ==> d2 == d1)
    requires |more| <= (if addr != prev then 1 else 0) + (if d2 != d1 then 1 else 0)
    requires forall b | b in more :: p.InBitmap(size, b)
    requires t.v == 0 && off % BSIZE != 0 ==> addr == prev
    ensures Account(before, l2, t', d0, d2, p, size, off)
  {
    UnionSize(t.bm, more);
    UnionSize(t.data, {addr});
    forall b | b in l2 ensures b in before || b in t'.bm || b in t'.data || b == d2 != 0 {
      assert b in l1 || b in more || b in One(addr) || b in One(d2);
    }
  }

  /** What is on the disk: the bitmap, the data and indirect blocks, the inodes. */
  datatype Image = Image(bits: seq<bool>, blocks: seq<Block>, inodes: seq<Inode>)

  /** Where the inodes and the bitmap are kept. */
  datatype Places = Places(inodestart: nat, bmapstart: nat) {
    function BBlock(b: nat): (n: nat) { b / BPB + bmapstart }
    function IBlock(i: nat): (n: nat) { i / IPB + inodestart }

    /** The blocks of the bitmap, for n blocks. */
    function Bitmap(n: nat): (r: set<nat>) { From(bmapstart, BitmapBlocks(n)) }
    predicate InBitmap(n: nat, x: nat) { bmapstart <= x && (x - bmapstart) * BPB < n }

    /** On a disk of n blocks with `inodes` inodes: first the inodes, then the bitmap, then, from meta on, data. */
    predicate Fit(meta: nat, n: nat, inodes: nat) {
      inodestart <= bmapstart < meta && n <= (meta - bmapstart) * BPB && inodes <= (bmapstart - inodestart) * IPB
    }
  }

  /** How many blocks the bitmap of n blocks takes. */
  function BitmapBlocks(n: nat): (k: nat) { (n + BPB - 1) / BPB }

  lemma InBitmapIff(p: Places, n: nat, x: nat)
    ensures p.InBitmap(n, x) <==> x in p.Bitmap(n)
  {
  }

  /** Since the blocks `before` had been logged, others have, of the file system: among them all in which the images
      differ. */
  ghost predicate Noted(p: Places, was: Image, now: Image, before: set<nat>, logged: set<nat>) {
    && before <= logged && (forall b | b in logged :: b in before || p.inodestart <= b < |was.blocks|)
    && |now.bits| == |was.bits| && |now.blocks| == |was.blocks| && |now.inodes| == |was.inodes|
    && (forall b | 0 <= b < |was.bits| :: now.bits[b] == was.bits[b] || p.BBlock(b) in logged)
    && (forall b | 0 <= b < |was.blocks| :: now.blocks[b] == was.blocks[b] || b in logged)
    && (forall i | 0 <= i < |was.inodes| :: now.inodes[i] == was.inodes[i] || p.IBlock(i) in logged)
  }

  lemma NotedTwice(p: Places, i0: Image, i1: Image, i2: Image, l0: set<nat>, l1: set<nat>, l2: set<nat>)
    requires Noted(p, i0, i1, l0, l1) && Noted(p, i1, i2, l1, l2)
    ensures Noted(p, i0, i2, l0, l2)
  {
  }

  /** What has been logged since `before` is of the bitmap, but for block b. */
  ghost predicate OfBitmap(p: Places, size: nat, before: set<nat>, now: set<nat>, b: nat) {
    forall x | x in now :: x in before || p.InBitmap(size, x) || x == b
  }

  lemma OfBitmapTwice(p: Places, size: nat, l0: set<nat>, l1: set<nat>, l2: set<nat>, b: nat)
    requires OfBitmap(p, size, l0, l1, b) && OfBitmap(p, size, l1, l2, b)
    ensures OfBitmap(p, size, l0, l2, b)
  {
  }

  /** The blocks w are no more than the bitmap has, and one. */
  ghost predicate FreeFits(p: Places, size: nat, w: set<nat>) {
    |w| <= BitmapBlocks(size) + 1 && |w - p.Bitmap(size)| <= 1
  }

  lemma BitmapFits(p: Places, size: nat, before: set<nat>, now: set<nat>, b: nat)
    requires OfBitmap(p, size, before, now, b)
    ensures FreeFits(p, size, now - before)
  {
    var all := p.Bitmap(size);
    forall x | x in now - before ensures x in all + {b} { InBitmapIff(p, size, x); }
    UnionSize(all, {b});
    SubsetSize(now - before, all + {b});
    SubsetSize(now - before - all, {b});
  }

  lemma NotedAlloc(p: Places, meta: nat, was: Image, r: nat, data: Block, before: set<nat>)
    requires p.Fit(meta, |was.bits|, |was.inodes|) && meta <= r < |was.bits| == |was.blocks|
    ensures Noted(p, was, Image(was.bits[r := true], was.blocks[r := data], was.inodes), before, before +
                  {p.BBlock(r), r})
  {
  }

  lemma NotedEntry(p: Places, meta: nat, was: Image, r: nat, data: Block, d: nat, data': Block, before: set<nat>)
    requires p.Fit(meta, |was.bits|, |was.inodes|) && meta <= r < |was.bits| == |was.blocks| && meta <= d < |was.blocks|
    ensures Noted(p, was, Image(was.bits[r := true], was.blocks[r := data][d := data'], was.inodes), before, before +
                  {p.BBlock(r), r} + {d})
  {
  }

  lemma NotedFree(p: Places, meta: nat, was: Image, b: nat, before: set<nat>)
    requires p.Fit(meta, |was.bits|, |was.inodes|) && meta <= |was.blocks| && b < |was.bits|
    ensures Noted(p, was, was.(bits := was.bits[b := false]), before, before + {p.BBlock(b)})
  {
  }

  lemma NotedBlock(p: Places, meta: nat, was: Image, b: nat, data: Block, before: set<nat>)
    requires p.Fit(meta, |was.bits|, |was.inodes|) && meta <= b < |was.blocks|
    ensures Noted(p, was, was.(blocks := was.blocks[b := data]), before, before + {b})
  {
  }

  lemma NotedInode(p: Places, meta: nat, was: Image, i: nat, n: Inode, before: set<nat>)
    requires p.Fit(meta, |was.bits|, |was.inodes|) && meta <= |was.blocks| && i < |was.inodes|
    ensures Noted(p, was, was.(inodes := was.inodes[i := n]), before, before + {p.IBlock(i)})
  {
  }

  const MAXOPBLOCKS: nat := 10
  const MAXWRITE: nat := 3072          // (MAXOPBLOCKS - 1 - 1 - 2) / 2 * BSIZE

  /** How many blocks a write of at most MAXWRITE bytes may log, on a disk of `size` blocks: 4 data blocks, an
      indirect block, the inode block, and of the bitmap one for each block that is allocated. */
  function RoundBound(size: nat): (n: nat) { 6 + Min(BitmapBlocks(size), 4) }

  /** The blocks w are within this bound, and at most 6 of them are not of the bitmap. */
  ghost predicate RoundFits(p: Places, size: nat, w: set<nat>) { |w| <= RoundBound(size) && |w - p.Bitmap(size)| <= 6 }

  /** A write of at most MAXWRITE bytes fits the log reservation: with the inode block, at most 4 data
      blocks, 4 bitmap blocks and an indirect block, and not all of these at once if it is aligned. */
  lemma WriteFits(before: set<nat>, now: set<nat>, t: Tally, d0: nat, d: nat, p: Places, size: nat, inode: nat,
                  off: nat, n: nat)
    requires n <= MAXWRITE && Account(before, now, t, d0, d, p, size, off) && t.v <= Spanned(off, n)
    ensures RoundFits(p, size, now + {inode} - before)
  {
    forall b | b in t.bm ensures b in p.Bitmap(size) { InBitmapIff(p, size, b); }
    SubsetSize(t.bm, p.Bitmap(size));
    FewBlocks(now + {inode} - before, t.bm, t.data, d, inode, p.Bitmap(size));
  }

  lemma FewBlocks(w: set<nat>, bm: set<nat>, data: set<nat>, d: nat, inode: nat, bitmap: set<nat>)
    requires bm <= bitmap && w <= bm + data + {d} + {inode}
    ensures |w| <= |bm| + |data| + 2 && |w - bitmap| <= |data| + 2
  {
    var own := data + {d} + {inode};
    UnionSize(data, {d});
    UnionSize(data + {d}, {inode});
    UnionSize(bm, own);
    SubsetSize(w, bm + own);
    SubsetSize(w - bitmap, own);
  }

  lemma UnionSize(a: set<nat>, b: set<nat>)
    ensures |a + b| <= |a| + |b|
  {
    assert a + b == a + (b - a);
    assert |b - a| <= |b| by { assert b == (b - a) + (b * a); }
  }

  /** The files other than i are as they were. */
  ghost predicate SameOthers(blocks: seq<Block>, mem: seq<Inode>, blocks': seq<Block>, mem': seq<Inode>, i: nat) {
    && Shaped(blocks, mem) && Shaped(blocks', mem') && |mem'| == |mem|
    && forall x: nat :: x == i || SameFile(blocks, mem, blocks', mem', x)
  }

  ghost predicate SameFile(blocks: seq<Block>, mem: seq<Inode>, blocks': seq<Block>, mem': seq<Inode>, x: nat)
    requires Shaped(blocks, mem) && Shaped(blocks', mem') && |mem'| == |mem|
  {
    x < |mem| ==> mem'[x] == mem[x] && mem[x].size <= MAXFILE * BSIZE &&
                  Content(blocks', mem', x) == Content(blocks, mem, x)
  }

  lemma WroteOthers(meta: nat, bits: seq<bool>, blocks: seq<Block>, mem: seq<Inode>, owner: map<nat, Slot>,
                    b1: seq<Block>, m1: seq<Inode>,
                    i: nat, off: nat, d: seq<Byte>, size: nat)
    requires Wrote(blocks, mem, b1, m1, i, off, d) && Ok(meta, bits, blocks, mem, owner)
    ensures SameOthers(blocks, mem, b1, WithSize(m1, i, size), i)
  {
    var m2 := WithSize(m1, i, size);
    forall x: nat | x < |mem| && x != i ensures SameFile(blocks, mem, b1, m2, x) {
      forall y: nat ensures KeptAt(blocks, mem, b1, m2, x, y) {
        assert x == i || KeptAt(blocks, mem, b1, m1, x, y);
      }
      OtherContent(meta, bits, blocks, mem, b1, m2, owner, x);
    }
  }

  /** The size is raised over what has been written. */
  lemma Sized(meta: nat, bits: seq<bool>, blocks: seq<Block>, mem: seq<Inode>, owner: map<nat, Slot>,
              bits': seq<bool>, b1: seq<Block>, m1: seq<Inode>, owner': map<nat, Slot>, i: nat, off: nat, d: seq<Byte>,
                m2: seq<Inode>)
    requires Wrote(blocks, mem, b1, m1, i, off, d) && Ok(meta, bits, blocks, mem, owner) &&
             Ok(meta, bits', b1, m1, owner')
    requires m1[i].typ != 0 && off <= mem[i].size && off + |d| <= MAXFILE * BSIZE &&
             m2 == WithSize(m1, i, Max(mem[i].size, off + |d|))
    ensures Ok(meta, bits', b1, m2, owner') && SameOthers(blocks, mem, b1, m2, i)
    ensures mem[i].size <= MAXFILE * BSIZE && Content(b1, m2, i) == Overwrite(Content(blocks, mem, i), off, d)
  {
    SizedOk(meta, bits', blocks, mem, b1, m1, owner', i, off, d);
    SizedContent(meta, bits, blocks, mem, b1, m1, owner, i, off, d);
    WroteOthers(meta, bits, blocks, mem, owner, b1, m1, i, off, d, Max(mem[i].size, off + |d|));
    assert InodeOk(mem[i]);
  }

  class Fs {
    const meta: nat              // first data block
    const places: Places
    var bits: seq<bool>          // the free bitmap
    var blocks: seq<Block>
    var mem: seq<Inode>          // in-memory inodes, by number
    var dinodes: seq<Inode>      // inodes in the inode blocks
    ghost var owner: map<nat, Slot>
    var logged: set<nat>         // blocks passed to log_write since begin_op
    ghost var ops: seq<set<nat>> // those of the operations that filewrite() has ended

    ghost predicate Valid()
      reads this`bits, this`blocks, this`mem, this`dinodes, this`owner
    {
      Ok(meta, bits, blocks, mem, owner) && |dinodes| == |mem| && places.Fit(meta, |bits|, |mem|)
    }

    /** From a well-formed image. */
    constructor (meta: nat, places: Places, bits: seq<bool>, blocks: seq<Block>, inodes: seq<Inode>,
                 ghost owner: map<nat, Slot>)
      requires Ok(meta, bits, blocks, inodes, owner) && places.Fit(meta, |bits|, |inodes|)
      ensures Valid() && this.meta == meta && this.places == places && mem == dinodes == inodes && this.bits == bits &&
              this.blocks == blocks && logged == {} && ops == []
    {
      this.meta, this.places := meta, places;
      this.bits, this.blocks, mem, dinodes, this.owner, logged, ops := bits, blocks, inodes, inodes, owner, {}, [];
    }

    ghost function Img(): Image
      reads this`bits, this`blocks, this`dinodes
    {
      Image(bits, blocks, dinodes)
    }

    /** No inode awaits iupdate(): so it is between operations. */
    ghost predicate OnDisk()
      reads this`mem, this`dinodes
    {
      dinodes == mem
    }

    /** After any calls: every block in use is metadata or in exactly one slot of one file, every other in none.
        Between operations, so it is on the disk. */
    lemma BlocksPartitioned()
      requires Valid()
      ensures Partitioned(meta, bits, blocks, mem) && (OnDisk() ==> Partitioned(meta, bits, blocks, dinodes))
    {
      OwnedIsPartitioned(meta, bits, blocks, mem, owner);
    }

    function BBlock(b: nat): (n: nat) { places.BBlock(b) }
    function IBlock(i: nat): (n: nat) { places.IBlock(i) }

    /** balloc(): the first block that is not in use, zeroed. */
    method BAlloc() returns (r: nat)
      requires 0 < |bits| == |blocks| && bits[0]
      modifies this`bits, this`blocks, this`logged
      ensures r == 0 ==> bits == old(bits) && blocks == old(blocks) && logged == old(logged) && Full(bits)
      ensures r != 0 ==> r < |old(bits)| && !old(bits)[r] && (forall c | 0 <= c < r :: old(bits)[c])
      ensures r != 0 ==> bits == old(bits)[r := true] && blocks == old(blocks)[r := Zeros()] &&
                         logged == old(logged) + {BBlock(r), r}
    {
      var b := 0;
      while b < |bits|
        invariant bits == old(bits) && blocks == old(blocks) && logged == old(logged)
        invariant 0 <= b && b % BPB == 0 && forall c | 0 <= c < b && c < |bits| :: bits[c]
      {
        var bi := 0;
        while bi < BPB && b + bi < |bits|
          invariant 0 <= bi <= BPB && bits == old(bits) && blocks == old(blocks) && logged == old(logged)
          invariant forall c | 0 <= c < b + bi && c < |bits| :: bits[c]
        {
          if !bits[b + bi] {
            bits := bits[b + bi := true];
            logged := logged + {BBlock(b)};
            assert (b + bi) / BPB == b / BPB;
            BZero(b + bi);
            return b + bi;
          }
          bi := bi + 1;
        }
        b := b + BPB;
      }
      r := 0;
    }

    method BZero(b: nat)
      requires b < |blocks|
      modifies this`blocks, this`logged
      ensures blocks == old(blocks)[b := Zeros()] && logged == old(logged) + {b}
    {
      blocks := blocks[b := Zeros()];
      logged := logged + {b};
    }

    /** bfree().  A block that is not in use would be the panic "freeing free block". */
    method BFree(b: nat)
      requires b < |bits| && bits[b] && places.Fit(meta, |bits|, |dinodes|) && meta <= |blocks|
      modifies this`bits, this`logged
      ensures bits == old(bits)[b := false] && logged == old(logged) + {BBlock(b)}
      ensures Noted(places, old(Img()), Img(), old(logged), logged) && places.InBitmap(|bits|, BBlock(b))
    {
      NotedFree(places, meta, Img(), b, logged);
      bits := bits[b := false];
      logged := logged + {BBlock(b)};
    }

    method IUpdate(i: nat)
      requires i < |mem| == |dinodes| && places.Fit(meta, |bits|, |dinodes|) && meta <= |blocks|
      modifies this`dinodes, this`logged
      ensures dinodes == old(dinodes)[i := mem[i]] && logged == old(logged) + {IBlock(i)}
      ensures Noted(places, old(Img()), Img(), old(logged), logged)
    {
      NotedInode(places, meta, Img(), i, mem[i], logged);
      dinodes := dinodes[i := mem[i]];
      logged := logged + {IBlock(i)};
    }

    /** bmap() of a block number kept in the inode itself: direct slot k, or the indirect block. */
    method MapInInode(i: nat, k: nat, ghost s: Slot) returns (addr: nat, ghost bm: set<nat>)
      requires Valid() && i < |mem| && mem[i].typ != 0 && k <= NDIRECT && s == if k < NDIRECT then Direct(i, k)
               else Indirect(i)
      modifies this`bits, this`blocks, this`mem, this`owner, this`logged
      ensures Valid() && SameMeta(old(mem), mem, i) && Kept(old(blocks), old(mem), blocks, mem)
      ensures addr == mem[i].addrs[k]
      ensures addr == 0 ==> mem == old(mem) && bits == old(bits) && Full(bits)
      ensures old(mem)[i].addrs[k] != 0 ==> addr == old(mem)[i].addrs[k]
      ensures addr == old(mem)[i].addrs[k] ==> unchanged(this) && bm == {}
      ensures forall j: nat | j <= NDIRECT && j != k :: mem[i].addrs[j] == old(mem)[i].addrs[j]
      ensures |bm| <= 1 && forall b | b in bm :: places.InBitmap(|bits|, b)
      ensures logged <= old(logged) + bm + One(addr) && Noted(places, old(Img()), Img(), old(logged), logged)
      ensures addr != old(mem)[i].addrs[k] && k == NDIRECT ==>
              forall j: nat | j < NINDIRECT :: Addr(blocks, mem, Entry(i, j)) == 0
    {
      bm := {};
      addr := mem[i].addrs[k];
      if addr == 0 {
        FreeIsData(meta, bits, blocks, mem, owner);
        addr := BAlloc();
        if addr == 0 { return; }
        NotedAlloc(places, meta, old(Img()), addr, Zeros(), old(logged));
        AttachInInode(meta, old(bits), old(blocks), mem, owner, s, addr);
        AttachKeeps(meta, old(bits), old(blocks), mem, owner, blocks, WithAddr(mem, i, k, addr), s, addr, addr);
        mem := WithAddr(mem, i, k, addr);
        owner := owner[addr := s];
        bm := {BBlock(addr)};
      }
    }

    /** bmap() of entry j of the indirect block, which is there. */
    method MapInIndirect(i: nat, j: nat) returns (addr: nat, ghost bm: set<nat>)
      requires Valid() && i < |mem| && mem[i].typ != 0 && j < NINDIRECT && mem[i].addrs[NDIRECT] != 0
      modifies this`bits, this`blocks, this`owner, this`logged
      ensures Valid() && Kept(old(blocks), mem, blocks, mem)
      ensures addr == Addr(blocks, mem, Entry(i, j))
      ensures addr == 0 ==> bits == old(bits) && Full(bits)
      ensures old(Addr(blocks, mem, Entry(i, j))) != 0 ==> addr == old(Addr(blocks, mem, Entry(i, j)))
      ensures addr == old(Addr(blocks, mem, Entry(i, j))) ==> unchanged(this) && bm == {}
      ensures |bm| <= 1 && forall b | b in bm :: places.InBitmap(|bits|, b)
      ensures logged <= old(logged) + bm + One(addr) + One(mem[i].addrs[NDIRECT])
      ensures Noted(places, old(Img()), Img(), old(logged), logged)
    {
      bm := {};
      IndirectInUse(meta, bits, blocks, mem, owner, i);
      var d := mem[i].addrs[NDIRECT];
      addr := GetWord(blocks[d], j);
      if addr == 0 {
        FreeIsData(meta, bits, blocks, mem, owner);
        addr := BAlloc();
        if addr == 0 { return; }
        NotedEntry(places, meta, old(Img()), addr, Zeros(), d, PutWord(blocks[d], j, addr), old(logged));
        AttachEntry(meta, bits, old(bits), old(blocks), mem, owner, i, j, addr, d,
                    blocks[d := PutWord(blocks[d], j, addr)]);
        blocks := blocks[d := PutWord(blocks[d], j, addr)];
        logged := logged + {d};
        owner := owner[addr := Entry(i, j)];
        bm := {BBlock(addr)};
      }
    }

    /** bmap(): the address of block bn of file i, allocated if there was none; 0 if the disk is full. */
    method BMap(i: nat, bn: nat) returns (addr: nat, ghost bm: set<nat>)
      requires Valid() && i < |mem| && mem[i].typ != 0 && bn < MAXFILE
      modifies this`bits, this`blocks, this`mem, this`owner, this`logged
      ensures Valid() && SameMeta(old(mem), mem, i) && Kept(old(blocks), old(mem), blocks, mem)
      ensures addr == Addr(blocks, mem, SlotOf(i, bn))
      ensures addr == 0 ==> Full(bits)
      ensures old(Addr(blocks, mem, SlotOf(i, bn))) != 0 ==>
              unchanged(this) && addr == old(Addr(blocks, mem, SlotOf(i, bn)))
      ensures old(mem)[i].addrs[NDIRECT] != 0 ==> mem[i].addrs[NDIRECT] == old(mem)[i].addrs[NDIRECT]
      ensures |bm| <= (if addr != old(Addr(blocks, mem, SlotOf(i, bn))) then 1 else 0) +
                      (if mem[i].addrs[NDIRECT] != old(mem)[i].addrs[NDIRECT] then 1 else 0)
      ensures forall b | b in bm :: places.InBitmap(|bits|, b)
      ensures logged <= old(logged) + bm + One(addr) + One(mem[i].addrs[NDIRECT])
      ensures Noted(places, old(Img()), Img(), old(logged), logged)
    {
      if bn < NDIRECT {
        addr, bm := MapInInode(i, bn, Direct(i, bn));
      } else {
        addr, bm := MapIndirect(i, bn - NDIRECT);
      }
    }

    /** bmap() of entry j of the indirect block, which may have to be allocated first. */
    method MapIndirect(i: nat, j: nat) returns (addr: nat, ghost bm: set<nat>)
      requires Valid() && i < |mem| && mem[i].typ != 0 && j < NINDIRECT
      modifies this`bits, this`blocks, this`mem, this`owner, this`logged
      ensures Valid() && SameMeta(old(mem), mem, i) && Kept(old(blocks), old(mem), blocks, mem)
      ensures addr == Addr(blocks, mem, Entry(i, j)) && (addr == 0 ==> Full(bits))
      ensures old(Addr(blocks, mem, Entry(i, j))) != 0 ==>
              unchanged(this) && addr == old(Addr(blocks, mem, Entry(i, j)))
      ensures old(mem)[i].addrs[NDIRECT] != 0 ==> mem[i].addrs[NDIRECT] == old(mem)[i].addrs[NDIRECT]
      ensures |bm| <= (if addr != old(Addr(blocks, mem, Entry(i, j))) then 1 else 0) +
                      (if mem[i].addrs[NDIRECT] != old(mem)[i].addrs[NDIRECT] then 1 else 0)
      ensures forall b | b in bm :: places.InBitmap(|bits|, b)
      ensures logged <= old(logged) + bm + One(addr) + One(mem[i].addrs[NDIRECT])
      ensures Noted(places, old(Img()), Img(), old(logged), logged)
    {
      ghost var bm1;
      addr, bm1 := MapInInode(i, NDIRECT, Indirect(i));
      if addr == 0 { return 0, bm1; }
      ghost var mid, midMem, img, some := blocks, mem, Img(), logged;
      ghost var bm2;
      addr, bm2 := MapInIndirect(i, j);
      KeptTwice(old(blocks), old(mem), mid, midMem, blocks, mem);
      UnionSize(bm1, bm2);
      NotedTwice(places, old(Img()), img, Img(), old(logged), some, logged);
      bm := bm1 + bm2;
    }

    /** Since the image was `was`, the inodes m0 and the blocks l0 logged, writei() has written d, logging t. */
    ghost predicate Writing(i: nat, off: nat, d: seq<Byte>, t: Tally, was: Image, m0: seq<Inode>, l0: set<nat>)
      reads this
    {
      && Valid() && Wrote(was.blocks, m0, blocks, mem, i, off, d) && mem[i].typ != 0 && off <= mem[i].size
      && Account(l0, logged, t, m0[i].addrs[NDIRECT], mem[i].addrs[NDIRECT], places, |bits|, off)
      && Noted(places, was, Img(), l0, logged)
    }

    lemma WritingStarts(i: nat, off: nat, d: seq<Byte>)
      requires Valid() && i < |mem| && mem[i].typ != 0 && off <= mem[i].size && d == []
      ensures Writing(i, off, d, Tally({}, {}, 0, 0), Img(), mem, logged)
    {
      WroteNothing(blocks, mem, i, off);
    }

    /** writei() without its checks.  The copy of a chunk fails, whole, if its position is in bad. */
    method WriteBlocks(i: nat, src: seq<Byte>, off: nat, bad: set<nat>) returns (tot: nat, ghost t: Tally)
      requires Valid() && i < |mem| && mem[i].typ != 0 && off <= mem[i].size && off + |src| <= MAXFILE * BSIZE
      modifies this`bits, this`blocks, this`mem, this`owner, this`logged
      ensures tot <= |src| && Writing(i, off, src[..tot], t, old(Img()), old(mem), old(logged)) &&
              t.v <= Spanned(off, |src|)
      ensures tot < |src| ==> tot in bad || Full(bits)
      ensures NoneBad(bad, off, tot) && (tot < |src| ==> ChunkStart(off, tot))
    {
      WritingStarts(i, off, src[..0]);
      tot, t := WriteLoop(i, src, off, bad, Tally({}, {}, 0, 0), Img(), mem, logged);
    }

    /** The loop of writei(). */
    method WriteLoop(i: nat, src: seq<Byte>, off: nat, bad: set<nat>, ghost t0: Tally, ghost was: Image,
                     ghost m0: seq<Inode>, ghost l0: set<nat>)
      returns (tot: nat, ghost t: Tally)
      requires off + |src| <= MAXFILE * BSIZE && Reached(off, |src|, 0, t0.v, bad) &&
               Writing(i, off, src[..0], t0, was, m0, l0)
      modifies this`bits, this`blocks, this`mem, this`owner, this`logged
      ensures tot <= |src| && Writing(i, off, src[..tot], t, was, m0, l0) && t.v <= Spanned(off, |src|)
      ensures tot < |src| ==> tot in bad || Full(bits)
      ensures NoneBad(bad, off, tot) && (tot < |src| ==> ChunkStart(off, tot))
    {
      tot, t := 0, t0;
      while tot < |src|
        invariant tot <= |src| && Reached(off, |src|, tot, t.v, bad) && Writing(i, off, src[..tot], t, was, m0, l0)
      {
        var m;
        m, t := WriteNext(i, src, off, tot, bad, t, was, m0, l0);
        if m == 0 { break; }
        tot := tot + m;
      }
    }

    /** One round of the loop: m bytes are written, 0 when there is no block for them or the copy fails. */
    method WriteNext(i: nat, src: seq<Byte>, off: nat, tot: nat, bad: set<nat>, ghost t: Tally,
                     ghost was: Image, ghost m0: seq<Inode>, ghost l0: set<nat>)
      returns (m: nat, ghost t': Tally)
      requires tot < |src| && off + |src| <= MAXFILE * BSIZE && Reached(off, |src|, tot, t.v, bad)
      requires Writing(i, off, src[..tot], t, was, m0, l0)
      modifies this`bits, this`blocks, this`mem, this`owner, this`logged
      ensures tot + m <= |src| && t'.v == t.v + 1 <= Spanned(off, |src|) &&
              (m > 0 ==> Reached(off, |src|, tot + m, t'.v, bad))
      ensures Writing(i, off, src[..tot + m], t', was, m0, l0)
      ensures m == 0 ==> tot in bad || Full(bits)
    {
      NextReached(off, |src|, tot, t.v, bad);
      var addr;
      addr, t' := MapNext(i, off, src[..tot], t, was, m0, l0);
      m := 0;
      if addr != 0 && tot !in bad {
        m := ChunkSize(off, |src|, tot);
        CopyIn(i, src, off, tot, m, addr, t', was, m0, l0);
      }
    }

    /** writei() finds the block for the next chunk, the bytes d being written already, and counts it in. */
    method MapNext(i: nat, off: nat, d: seq<Byte>, ghost t: Tally, ghost was: Image, ghost m0: seq<Inode>,
                   ghost l0: set<nat>)
      returns (addr: nat, ghost t': Tally)
      requires Writing(i, off, d, t, was, m0, l0) && off + |d| < MAXFILE * BSIZE && (t.v == 0 ==> d == [])
      modifies this`bits, this`blocks, this`mem, this`owner, this`logged
      ensures Writing(i, off, d, t', was, m0, l0) && t'.v == t.v + 1 && addr in t'.data
      ensures addr == Addr(blocks, mem, SlotOf(i, (off + |d|) / BSIZE)) && (addr == 0 ==> Full(bits))
    {
      var bn := (off + |d|) / BSIZE;
      assert HoleOk(blocks, mem, i, bn);
      ghost var prev := Addr(blocks, mem, SlotOf(i, bn));
      ghost var more;
      addr, more := BMap(i, bn);
      t' := Next(t, more, prev, addr);
      NextWriting(i, off, d, t, t', more, prev, addr, was, m0, l0, old(Img()), old(mem), old(logged));
    }

    /** Since the image was img and the inodes m1, bmap() has given an address. */
    lemma NextWriting(i: nat, off: nat, d: seq<Byte>, t: Tally, t': Tally, more: set<nat>, prev: nat, addr: nat,
                      was: Image, m0: seq<Inode>, l0: set<nat>, img: Image, m1: seq<Inode>, l1: set<nat>)
      requires Valid() && Wrote(was.blocks, m0, img.blocks, m1, i, off, d) && m1[i].typ != 0 && off <= m1[i].size
      requires Kept(img.blocks, m1, blocks, mem) && SameMeta(m1, mem, i) && t' == Next(t, more, prev, addr)
      requires Account(l0, l1, t, m0[i].addrs[NDIRECT], m1[i].addrs[NDIRECT], places, |bits|, off)
      requires logged <= l1 + more + One(addr) + One(mem[i].addrs[NDIRECT])
      requires m1[i].addrs[NDIRECT] != 0 ==> mem[i].addrs[NDIRECT] == m1[i].addrs[NDIRECT]
      requires |more| <= (if addr != prev then 1 else 0) +
               (if mem[i].addrs[NDIRECT] != m1[i].addrs[NDIRECT] then 1 else 0)
      requires (forall b | b in more :: places.InBitmap(|bits|, b)) && (t.v == 0 && off % BSIZE != 0 ==> addr == prev)
      requires Noted(places, was, img, l0, l1) && Noted(places, img, Img(), l1, logged)
      ensures Writing(i, off, d, t', was, m0, l0)
    {
      WroteKept(was.blocks, m0, img.blocks, m1, blocks, mem, i, off, d);
      NextAccount(l0, l1, logged, t, t', m0[i].addrs[NDIRECT], m1[i].addrs[NDIRECT], mem[i].addrs[NDIRECT],
                  places, |bits|, off, more, prev, addr);
      NotedTwice(places, was, img, Img(), l0, l1, logged);
    }

    /** One chunk is copied into its block, and the block is logged. */
    method CopyIn(i: nat, src: seq<Byte>, off: nat, tot: nat, m: nat, addr: nat, ghost t: Tally,
                  ghost was: Image, ghost m0: seq<Inode>, ghost l0: set<nat>)
      requires tot + m <= |src| && off + |src| <= MAXFILE * BSIZE && off + tot < MAXFILE * BSIZE &&
               (off + tot) % BSIZE + m <= BSIZE
      requires Writing(i, off, src[..tot], t, was, m0, l0)
      requires addr == Addr(blocks, mem, SlotOf(i, (off + tot) / BSIZE)) != 0 && addr in t.data
      modifies this`blocks, this`logged
      ensures Writing(i, off, src[..tot + m], t, was, m0, l0)
    {
      WroteMore(meta, bits, was.blocks, m0, blocks, mem, owner, i, off, src[..tot], src[tot..tot + m]);
      assert SlotOk(meta, blocks, mem, owner, SlotOf(i, (off + tot) / BSIZE));
      ghost var data := Patched(blocks[addr], (off + tot) % BSIZE, src[tot..tot + m]);
      NotedBlock(places, meta, Img(), addr, data, logged);
      NotedTwice(places, was, Img(), Img().(blocks := blocks[addr := data]), l0, logged, logged + {addr});
      assert src[..tot] + src[tot..tot + m] == src[..tot + m];
      blocks := blocks[addr := Patched(blocks[addr], (off + tot) % BSIZE, src[tot..tot + m])];
      logged := logged + {addr};
    }

    /** The bytes of file i. */
    ghost function File(i: nat): (c: seq<Byte>)
      requires Shaped(blocks, mem) && i < |mem| && mem[i].size <= MAXFILE * BSIZE
      reads this`blocks, this`mem
    {
      Content(blocks, mem, i)
    }

    lemma WritingFits(i: nat, off: nat, d: seq<Byte>, t: Tally, was: Image, m0: seq<Inode>, l0: set<nat>, n: nat)
      requires Writing(i, off, d, t, was, m0, l0) && n <= MAXWRITE && t.v <= Spanned(off, n)
      ensures RoundFits(places, |bits|, logged + {IBlock(i)} - l0)
    {
      WriteFits(l0, logged, t, m0[i].addrs[NDIRECT], mem[i].addrs[NDIRECT], places, |bits|, IBlock(i), off, n);
    }

    /** The end of writei(), when tot bytes, d, have been written. */
    method WriteSize(i: nat, off: nat, tot: nat, ghost d: seq<Byte>, ghost t: Tally,
                     ghost was: Image, ghost m0: seq<Inode>, ghost l0: set<nat>, ghost ow0: map<nat, Slot>)
      requires Writing(i, off, d, t, was, m0, l0) && Ok(meta, was.bits, was.blocks, m0, ow0)
      requires tot == |d| && off <= m0[i].size && off + tot <= MAXFILE * BSIZE
      modifies this`mem, this`dinodes, this`logged
      ensures Valid() && i < |mem| == |m0| && mem == m0[i := mem[i]] && SameKind(m0[i], mem[i]) &&
              mem[i].size == Max(m0[i].size, off + tot)
      ensures dinodes == old(dinodes)[i := mem[i]] && Noted(places, was, Img(), l0, logged)
      ensures logged == old(logged) + {IBlock(i)}
      ensures i < |mem| && m0[i].size <= MAXFILE * BSIZE && mem[i].size <= MAXFILE * BSIZE &&
              File(i) == Overwrite(Content(was.blocks, m0, i), off, d)
      ensures SameOthers(was.blocks, m0, blocks, mem, i)
    {
      ghost var now := WithSize(mem, i, Max(m0[i].size, off + tot));
      Sized(meta, was.bits, was.blocks, m0, ow0, bits, blocks, mem, owner, i, off, d, now);
      if off + tot > mem[i].size {
        mem := WithSize(mem, i, off + tot);
      }
      assert mem == now;
      ghost var some := logged;
      IUpdate(i);
      NotedTwice(places, was, old(Img()), Img(), l0, some, logged);
    }

    /** writei(): with 32-bit offsets, and src of n bytes. */
    method WriteI(i: nat, src: seq<Byte>, off: nat, bad: set<nat>) returns (r: int)
      requires Valid() && i < |mem| && mem[i].typ != 0 && off < U32 && |src| < U32
      modifies this`bits, this`blocks, this`mem, this`dinodes, this`owner, this`logged
      ensures Valid() && |mem| == |old(mem)| && mem == old(mem)[i := mem[i]] && SameKind(old(mem)[i], mem[i])
      ensures old(OnDisk()) ==> OnDisk()
      ensures Noted(places, old(Img()), Img(), old(logged), logged)
      ensures r == -1 <==> off > old(mem)[i].size || off + |src| > MAXFILE * BSIZE
      ensures r == -1 ==> unchanged(this)
      ensures r != -1 ==> 0 <= r <= |src| && mem[i].size == Max(old(mem)[i].size, off + r) &&
                          dinodes == old(dinodes)[i := mem[i]]
      ensures r != -1 ==> mem[i].size <= MAXFILE * BSIZE && File(i) == Overwrite(old(File(i)), off, src[..r])
      ensures SameOthers(old(blocks), old(mem), blocks, mem, i)
      ensures r != -1 ==> NoneBad(bad, off, r)
      ensures 0 <= r < |src| ==> ChunkStart(off, r) && (r in bad || Full(bits))
      ensures |src| <= MAXWRITE ==> RoundFits(places, |bits|, logged - old(logged))
    {
      SameSelf(blocks, mem, i);
      if off > mem[i].size || (off + |src|) % U32 < off { return -1; }
      if (off + |src|) % U32 > MAXFILE * BSIZE { return -1; }
      var tot, t := WriteBlocks(i, src, off, bad);
      if |src| <= MAXWRITE { WritingFits(i, off, src[..tot], t, old(Img()), old(mem), old(logged), |src|); }
      WriteSize(i, off, tot, src[..tot], t, old(Img()), old(mem), old(logged), old(owner));
      r := tot;
    }

    /** The first loop of itrunc(): the direct blocks. */
    method TruncDirect(i: nat)
      requires Owned(meta, bits, blocks, mem, owner) && i < |mem| == |dinodes| && places.Fit(meta, |bits|, |mem|)
      modifies this`bits, this`mem, this`owner, this`logged
      ensures Owned(meta, bits, blocks, mem, owner) && |mem| == |old(mem)| && SameMeta(old(mem), mem, i)
      ensures mem[i].addrs[NDIRECT] == old(mem)[i].addrs[NDIRECT] && forall k: nat | k < NDIRECT :: mem[i].addrs[k] == 0
      ensures Noted(places, old(Img()), Img(), old(logged), logged)
      ensures OfBitmap(places, |bits|, old(logged), logged, IBlock(i))
    {
      var k: nat := 0;
      while k < NDIRECT
        invariant k <= NDIRECT && Owned(meta, bits, blocks, mem, owner) && SameMeta(old(mem), mem, i)
        invariant mem[i].addrs[NDIRECT] == old(mem)[i].addrs[NDIRECT] && forall x: nat | x < k :: mem[i].addrs[x] == 0
        invariant Noted(places, old(Img()), Img(), old(logged), logged)
        invariant OfBitmap(places, |bits|, old(logged), logged, IBlock(i))
      {
        if mem[i].addrs[k] != 0 {
          ghost var img, some := Img(), logged;
          DetachInInode(meta, bits, blocks, mem, owner, i, k);
          BFree(mem[i].addrs[k]);
          NotedTwice(places, old(Img()), img, Img(), old(logged), some, logged);
          owner := owner - {mem[i].addrs[k]};
          mem := WithAddr(mem, i, k, 0);
        }
        k := k + 1;
      }
    }

    /** The second loop: the blocks that the indirect block lists.  Its words stay as they are;
        seen is what the blocks would be if they were cleared. */
    method TruncEntries(i: nat, d: nat) returns (ghost seen: seq<Block>)
      requires Owned(meta, bits, blocks, mem, owner) && i < |mem| == |dinodes| && d == mem[i].addrs[NDIRECT] != 0 &&
               places.Fit(meta, |bits|, |mem|)
      modifies this`bits, this`owner, this`logged
      ensures |seen| == |blocks| && d < |blocks| && Owned(meta, bits, seen, mem, owner)
      ensures seen == blocks[d := seen[d]] && Cleared(blocks[d], seen[d], NINDIRECT)
      ensures Noted(places, old(Img()), Img(), old(logged), logged)
      ensures OfBitmap(places, |bits|, old(logged), logged, IBlock(i))
    {
      IndirectInUse(meta, bits, blocks, mem, owner, i);
      seen := blocks;
      var j: nat := 0;
      while j < NINDIRECT
        invariant j <= NINDIRECT && |seen| == |blocks| && Owned(meta, bits, seen, mem, owner)
        invariant seen == blocks[d := seen[d]] && Cleared(blocks[d], seen[d], j)
        invariant Noted(places, old(Img()), Img(), old(logged), logged)
        invariant OfBitmap(places, |bits|, old(logged), logged, IBlock(i))
      {
        var a := GetWord(blocks[d], j);
        if a != 0 {
          ghost var img, some := Img(), logged;
          DetachInIndirect(meta, bits, seen, mem, owner, i, j, d, a);
          BFree(a);
          NotedTwice(places, old(Img()), img, Img(), old(logged), some, logged);
          owner := owner - {a};
          forall x: nat | x < NINDIRECT
            ensures GetWord(PutWord(seen[d], j, 0), x) == if x == j then 0 else GetWord(seen[d], x) {
            GetPut(seen[d], j, 0, x);
          }
          seen := seen[d := PutWord(seen[d], j, 0)];
        }
        j := j + 1;
      }
    }

    /** The indirect block: the blocks that it lists, then the block itself. */
    method TruncIndirect(i: nat)
      requires Owned(meta, bits, blocks, mem, owner) && i < |mem| == |dinodes| && places.Fit(meta, |bits|, |mem|)
      modifies this`bits, this`mem, this`owner, this`logged
      ensures Owned(meta, bits, blocks, mem, owner) && |mem| == |old(mem)| && SameMeta(old(mem), mem, i)
      ensures mem[i].addrs == old(mem)[i].addrs[NDIRECT := 0] && Noted(places, old(Img()), Img(), old(logged), logged)
      ensures OfBitmap(places, |bits|, old(logged), logged, IBlock(i))
    {
      var d := mem[i].addrs[NDIRECT];
      if d != 0 {
        ghost var seen := TruncEntries(i, d);
        ghost var img, some := Img(), logged;
        assert forall j: nat | j < NINDIRECT :: Addr(seen, mem, Entry(i, j)) == GetWord(seen[d], j);
        DetachInInode(meta, bits, seen, mem, owner, i, NDIRECT);
        BFree(d);
        NotedTwice(places, old(Img()), img, Img(), old(logged), some, logged);
        owner := owner - {d};
        mem := WithAddr(mem, i, NDIRECT, 0);
        ForgetIndirect(meta, bits, seen, blocks, mem, owner, d);
      }
    }

    /** itrunc(): every block of the file is freed, none twice, and no other. */
    method ITrunc(i: nat)
      requires Valid() && i < |mem|
      modifies this`bits, this`mem, this`dinodes, this`owner, this`logged
      ensures Valid() && mem == old(mem)[i := Empty(old(mem)[i])] && dinodes == old(dinodes)[i := mem[i]]
      ensures Truncated(old(bits), bits, old(owner), i) && (old(OnDisk()) ==> OnDisk())
      ensures Noted(places, old(Img()), Img(), old(logged), logged)
      ensures OfBitmap(places, |bits|, old(logged), logged, IBlock(i))
    {
      TruncBlocks(i);
      ghost var img, some, m1 := Img(), logged, mem;
      mem := WithSize(mem, i, 0);
      assert mem == old(mem)[i := Empty(old(mem)[i])] by { assert mem[i].addrs == Empty(old(mem)[i]).addrs; }
      Unsized(meta, bits, blocks, m1, mem, owner, i);
      TruncatedOk(meta, old(bits), blocks, old(mem), old(owner), bits, owner, i);
      TruncatedBits(meta, old(bits), blocks, old(mem), old(owner), bits, owner, i);
      IUpdate(i);
      NotedTwice(places, old(Img()), img, Img(), old(logged), some, logged);
    }

    /** The loops of itrunc(). */
    method TruncBlocks(i: nat)
      requires Owned(meta, bits, blocks, mem, owner) && i < |mem| == |dinodes| && places.Fit(meta, |bits|, |mem|)
      modifies this`bits, this`mem, this`owner, this`logged
      ensures Owned(meta, bits, blocks, mem, owner) && |mem| == |old(mem)| && SameMeta(old(mem), mem, i)
      ensures (forall k: nat | k <= NDIRECT :: mem[i].addrs[k] == 0) &&
              Noted(places, old(Img()), Img(), old(logged), logged)
      ensures OfBitmap(places, |bits|, old(logged), logged, IBlock(i))
    {
      TruncDirect(i);
      ghost var img, some := Img(), logged;
      TruncIndirect(i);
      NotedTwice(places, old(Img()), img, Img(), old(logged), some, logged);
      OfBitmapTwice(places, |bits|, old(logged), some, logged, IBlock(i));
    }

    /** readi(): the bytes of file i from off on, at most n.  No block is ever allocated: there are no holes.
        The copy of a chunk fails if its position is in bad. */
    method ReadI(i: nat, off: nat, n: nat, bad: set<nat>) returns (r: int, dst: seq<Byte>)
      requires Valid() && i < |mem| && mem[i].typ != 0 && off < U32 && n < U32
      modifies this`bits, this`blocks, this`mem, this`owner, this`logged
      ensures unchanged(this) && mem[i].size <= MAXFILE * BSIZE
      ensures r == -1 || r == Readable(mem[i].size, off, n)
      ensures r == -1 <==> !NoneBad(bad, off, Readable(mem[i].size, off, n))
      ensures r != -1 ==> (off <= mem[i].size ==> off + r <= mem[i].size && dst == File(i)[off..off + r]) && |dst| == r
    {
      dst := [];
      assert InodeOk(mem[i]);
      if off > mem[i].size || (off + n) % U32 < off { return 0, []; }
      var want := if (off + n) % U32 > mem[i].size then mem[i].size - off else n;
      var tot: nat := 0;
      while tot < want
        invariant unchanged(this) && tot <= want && dst == File(i)[off..off + tot]
        invariant NoneBad(bad, off, tot) && (tot < want ==> ChunkStart(off, tot))
      {
        var chunk := ReadNext(i, off, want, tot);
        if tot in bad { return -1, dst; }
        NextStart(bad, off, want, tot);
        dst := dst + chunk;
        tot := tot + |chunk|;
      }
      r := tot;
    }

    /** One round of the loop of readi(): the block is there, so bmap() changes nothing. */
    method ReadNext(i: nat, off: nat, want: nat, tot: nat) returns (chunk: seq<Byte>)
      requires Valid() && i < |mem| && mem[i].typ != 0 && tot < want && off + want <= mem[i].size <= MAXFILE * BSIZE
      modifies this`bits, this`blocks, this`mem, this`owner, this`logged
      ensures unchanged(this) && |chunk| == ChunkSize(off, want, tot) &&
              chunk == File(i)[off + tot..off + tot + |chunk|]
      ensures off + tot + |chunk| <= |File(i)| && File(i)[off..off + tot] + chunk == File(i)[off..off + tot + |chunk|]
    {
      var at := off + tot;
      assert HoleOk(blocks, mem, i, at / BSIZE);
      assert SlotOk(meta, blocks, mem, owner, SlotOf(i, at / BSIZE));
      var addr, _ := BMap(i, at / BSIZE);
      var m := ChunkSize(off, want, tot);
      ChunkRead(blocks, mem, i, at, m, addr);
      chunk := blocks[addr][at % BSIZE..at % BSIZE + m];
    }

    /** ialloc(): the first inode from 1 on that is free on the disk, now of type typ; 0 if there is none. */
    method IAlloc(typ: nat) returns (inum: nat)
      requires Valid() && typ != 0 && forall x | 0 <= x < |mem| && dinodes[x].typ == 0 :: mem[x] == dinodes[x]
      modifies this`mem, this`dinodes, this`logged
      ensures Valid() && (old(OnDisk()) ==> OnDisk())
      ensures inum == 0 ==> unchanged(this) && forall x | 1 <= x < |dinodes| :: dinodes[x].typ != 0
      ensures inum != 0 ==> inum < |old(mem)| && old(dinodes)[inum].typ == 0 &&
                            (forall x | 1 <= x < inum :: old(dinodes)[x].typ != 0)
      ensures inum != 0 ==> mem == old(mem)[inum := New(typ)]
      ensures inum != 0 ==> dinodes == old(dinodes)[inum := mem[inum]] && logged == old(logged) + {IBlock(inum)}
      ensures Noted(places, old(Img()), Img(), old(logged), logged)
    {
      inum := 1;
      while inum < |mem|
        invariant 1 <= inum && unchanged(this) && forall x | 1 <= x < inum && x < |mem| :: dinodes[x].typ != 0
      {
        if dinodes[inum].typ == 0 {
          var n := New(typ);
          assert InodeOk(mem[inum]);
          SameAddrsOk(meta, bits, blocks, mem, owner, inum, n);
          NotedInode(places, meta, Img(), inum, n, logged);
          dinodes := dinodes[inum := n];
          mem := mem[inum := n];
          logged := logged + {IBlock(inum)};
          return;
        }
        inum := inum + 1;
      }
      inum := 0;
    }

    /** The fields that link(), unlink() and create() set in an inode, and iupdate(). */
    method SetInode(i: nat, major: nat, minor: nat, nlink: nat)
      requires Valid() && i < |mem|
      modifies this`mem, this`dinodes, this`logged
      ensures Valid() && (old(OnDisk()) ==> OnDisk())
      ensures mem == old(mem)[i := old(mem)[i].(major := major, minor := minor, nlink := nlink)]
      ensures dinodes == old(dinodes)[i := mem[i]] && logged == old(logged) + {IBlock(i)}
      ensures Noted(places, old(Img()), Img(), old(logged), logged)
    {
      var n := mem[i].(major := major, minor := minor, nlink := nlink);
      assert InodeOk(mem[i]);
      SameAddrsOk(meta, bits, blocks, mem, owner, i, n);
      mem := mem[i := n];
      IUpdate(i);
    }

    /** iput() of an inode with ref references: the last one to a file without links frees it. */
    method IPut(i: nat, ref: nat, valid: bool) returns (ref': nat)
      requires Valid() && i < |mem| && ref > 0
      modifies this`bits, this`mem, this`dinodes, this`owner, this`logged
      ensures Valid() && ref' == ref - 1 && (old(OnDisk()) ==> OnDisk())
      ensures Noted(places, old(Img()), Img(), old(logged), logged)
      ensures OfBitmap(places, |bits|, old(logged), logged, IBlock(i))
      ensures FreeFits(places, |bits|, logged - old(logged))
      ensures !(ref == 1 && valid && old(mem)[i].nlink == 0) ==> unchanged(this)
      ensures ref == 1 && valid && old(mem)[i].nlink == 0 ==>
                mem == old(mem)[i := Empty(old(mem)[i]).(typ := 0)] && dinodes == old(dinodes)[i := mem[i]] &&
                  Truncated(old(bits), bits, old(owner), i)
    {
      if ref == 1 && valid && mem[i].nlink == 0 { FreeInode(i); }
      BitmapFits(places, |bits|, old(logged), logged, IBlock(i));
      ref' := ref - 1;
    }

    /** What iput() does to a file that is to go. */
    method FreeInode(i: nat)
      requires Valid() && i < |mem|
      modifies this`bits, this`mem, this`dinodes, this`owner, this`logged
      ensures Valid() && (old(OnDisk()) ==> OnDisk()) && |bits| == |old(bits)|
      ensures Noted(places, old(Img()), Img(), old(logged), logged)
      ensures OfBitmap(places, |bits|, old(logged), logged, IBlock(i))
      ensures mem == old(mem)[i := Empty(old(mem)[i]).(typ := 0)] && dinodes == old(dinodes)[i := mem[i]]
      ensures Truncated(old(bits), bits, old(owner), i)
    {
      ITrunc(i);
      ghost var img, some := Img(), logged;
      SameAddrsOk(meta, bits, blocks, mem, owner, i, mem[i].(typ := 0));
      mem := mem[i := mem[i].(typ := 0)];
      IUpdate(i);
      NotedTwice(places, old(Img()), img, Img(), old(logged), some, logged);
    }

    /** The first w bytes of src have been written to file i, which held c0, from off on, and no other file has
        changed. */
    ghost predicate Written(i: nat, c0: seq<Byte>, b0: seq<Block>, m0: seq<Inode>, off: nat, src: seq<Byte>, w: nat)
      reads this`bits, this`blocks, this`mem, this`dinodes, this`owner
    {
      && Valid() && |mem| == |m0| && i < |mem| && mem[i].typ != 0 && mem[i].size <= MAXFILE * BSIZE
      && Progress(c0, File(i), off, src, w) && SameOthers(b0, m0, blocks, mem, i)
    }

    lemma WrittenNothing(i: nat, off: nat, src: seq<Byte>)
      requires Valid() && i < |mem| && mem[i].typ != 0
      ensures mem[i].size <= MAXFILE * BSIZE && |File(i)| == mem[i].size &&
              Written(i, File(i), blocks, mem, off, src, 0)
    {
      SameSelf(blocks, mem, i);
      assert InodeOk(mem[i]);
      if off <= |File(i)| { assert Overwrite(File(i), off, src[..0]) == File(i); }
    }

    /** Since file i held c0, in blocks b0 and inodes m0, which were those of c1, b1 and m1 after k bytes. */
    lemma WrittenMore(i: nat, c0: seq<Byte>, b0: seq<Block>, m0: seq<Inode>, off: nat, src: seq<Byte>, k: nat, n1: nat,
                      r: int,
                      c1: seq<Byte>, b1: seq<Block>, m1: seq<Inode>)
      requires Progress(c0, c1, off, src, k) && SameOthers(b0, m0, b1, m1, i) && SameOthers(b1, m1, blocks, mem, i)
      requires Valid() && i < |mem| && mem[i].typ != 0 && mem[i].size <= MAXFILE * BSIZE && k + n1 <= |src| &&
               -1 <= r <= n1
      requires if r == -1 then File(i) == c1
               else off + k <= |c1| && File(i) == Overwrite(c1, off + k, src[k..k + n1][..r])
      ensures Written(i, c0, b0, m0, off, src, if r > 0 then k + r else k)
    {
      SameOthersTwice(b0, m0, b1, m1, blocks, mem, i);
      if r >= 0 { NextProgress(c0, c1, File(i), off, src, k, n1, r); }
    }

    /** Round q of filewrite(), from byte k of src on: begin_op, writei, end_op.  It falls short for a reason. */
    method WriteRound(i: nat, src: seq<Byte>, off: nat, k: nat, bad: nat -> set<nat>,
                      ghost q: nat, ghost c0: seq<Byte>, ghost b0: seq<Block>, ghost m0: seq<Inode>)
      returns (r: int, n1: nat, ghost w: nat)
      requires Written(i, c0, b0, m0, off, src, k) && off + k < U32 && k == q * MAXWRITE < |src| < U32
      modifies this
      ensures ops == old(ops) + [logged] && RoundFits(places, |bits|, logged) && |bits| == |old(bits)|
      ensures Noted(places, old(Img()), Img(), {}, logged) && (old(OnDisk()) ==> OnDisk())
      ensures -1 <= r <= n1 == Min(MAXWRITE, |src| - k) && off + k + r < U32
      ensures w == (if r > 0 then k + r else k) && Written(i, c0, b0, m0, off, src, w)
      ensures r != n1 ==> StopsFor(off, |c0|, |src|, w, q, bad, Full(bits))
    {
      n1 := if |src| - k > MAXWRITE then MAXWRITE else |src| - k;
      ghost var c1, b1, m1 := File(i), blocks, mem;
      r := WriteOp(i, src[k..k + n1], off + k, bad(k));
      if r != n1 { Stops(c0, c1, off, src, k, q, n1, r, bad, Full(bits)); }
      WrittenMore(i, c0, b0, m0, off, src, k, n1, r, c1, b1, m1);
      w := if r > 0 then k + r else k;
    }

    /** A transaction with one writei(). */
    method WriteOp(i: nat, src: seq<Byte>, off: nat, bad: set<nat>) returns (r: int)
      requires Valid() && i < |mem| && mem[i].typ != 0 && off < U32 && |src| <= MAXWRITE
      modifies this
      ensures Valid() && i < |mem| && mem[i].typ != 0 && mem[i].size <= MAXFILE * BSIZE && -1 <= r <= |src|
      ensures ops == old(ops) + [logged] && RoundFits(places, |bits|, logged) && |bits| == |old(bits)|
      ensures Noted(places, old(Img()), Img(), {}, logged) && (old(OnDisk()) ==> OnDisk())
      ensures if r == -1 then (off > |old(File(i))| || off + |src| > MAXFILE * BSIZE) && File(i) == old(File(i))
              else off <= |old(File(i))| && off + |src| <= MAXFILE * BSIZE &&
                   File(i) == Overwrite(old(File(i)), off, src[..r])
      ensures SameOthers(old(blocks), old(mem), blocks, mem, i)
      ensures 0 <= r < |src| ==> r in bad || Full(bits)
    {
      assert InodeOk(mem[i]);
      logged := {};
      r := WriteI(i, src, off, bad);
      assert logged - {} == logged;
      ops := ops + [logged];
    }

    /** What filewrite() has done so far: the bytes, and the operations that it has ended. */
    ghost predicate Rounds(i: nat, c0: seq<Byte>, m0: seq<Inode>, was: Image, off: nat, src: seq<Byte>, w: nat,
                           ops0: seq<set<nat>>, rounds: seq<set<nat>>)
      reads this
    {
      Written(i, c0, was.blocks, m0, off, src, w) && ops == ops0 + rounds && Ended(places, was, Img(), rounds)
    }

    lemma RoundsStart(i: nat, off: nat, src: seq<Byte>)
      requires Valid() && i < |mem| && mem[i].typ != 0
      ensures mem[i].size <= MAXFILE * BSIZE && Rounds(i, File(i), mem, Img(), off, src, 0, ops, [])
    {
      WrittenNothing(i, off, src);
    }

    method NextRound(i: nat, src: seq<Byte>, off: nat, k: nat, bad: nat -> set<nat>,
                     ghost q: nat, ghost c0: seq<Byte>, ghost m0: seq<Inode>, ghost was: Image,
                       ghost ops0: seq<set<nat>>, ghost rounds: seq<set<nat>>)
      returns (r: int, n1: nat, ghost w: nat, ghost rounds': seq<set<nat>>)
      requires Rounds(i, c0, m0, was, off, src, k, ops0, rounds) && off + k < U32 && k == q * MAXWRITE < |src| < U32
      modifies this
      ensures Rounds(i, c0, m0, was, off, src, w, ops0, rounds') && |rounds'| == |rounds| + 1 &&
              (old(OnDisk()) ==> OnDisk())
      ensures -1 <= r <= n1 == Min(MAXWRITE, |src| - k) && off + k + r < U32 && w == if r > 0 then k + r else k
      ensures r != n1 ==> StopsFor(off, |c0|, |src|, w, q, bad, Full(bits))
    {
      ghost var img := Img();
      r, n1, w := WriteRound(i, src, off, k, bad, q, c0, was.blocks, m0);
      NextEnded(places, was, img, Img(), rounds, logged, ops0);
      rounds' := rounds + [logged];
    }

    /** filewrite() on an inode: as many transactions as it takes, each within the log reservation, and none with
        nothing to write.  The first w bytes are written, in q whole rounds and, if they are not all, one that
        falls short.  What changes in a round has been logged in it. */
    method FileWrite(i: nat, src: seq<Byte>, off: nat, bad: nat -> set<nat>)
      returns (ret: int, off': nat, ghost rounds: seq<set<nat>>, ghost w: nat, ghost q: nat)
      requires Valid() && i < |mem| && mem[i].typ != 0 && off < U32 && |src| < 0x8000_0000
      modifies this
      ensures Written(i, old(File(i)), old(blocks), old(mem), off, src, w)
      ensures ops == old(ops) + rounds && Ended(places, old(Img()), Img(), rounds) && (old(OnDisk()) ==> OnDisk())
      ensures |rounds| == (if w == |src| then q else q + 1) && q * MAXWRITE < |src| + MAXWRITE &&
              (w == |src| ==> w <= q * MAXWRITE)
      ensures w <= |src| && off' == off + w && ret == if w == |src| then |src| else -1
      ensures w < |src| ==> StopsFor(off, old(mem)[i].size, |src|, w, q, bad, Full(bits))
    {
      rounds, w, q, off' := [], 0, 0, off;
      RoundsStart(i, off, src);
      ghost var c0, m0, was, ops0, onDisk := File(i), mem, Img(), ops, OnDisk();
      var k: nat := 0;
      while k < |src|
        invariant Rounds(i, c0, m0, was, off, src, w, ops0, rounds) && (onDisk ==> OnDisk())
        invariant w == k <= |src| && off' == off + w && off' < U32 && (k < |src| ==> k == q * MAXWRITE)
        invariant |rounds| == q && k <= q * MAXWRITE < |src| + MAXWRITE
      {
        var r, n1;
        r, n1, w, rounds := NextRound(i, src, off, k, bad, q, c0, m0, was, ops0, rounds);
        if r > 0 { off' := off' + r; }
        if r != n1 { break; }
        k, q := k + r, q + 1;
      }
      ret := if k == |src| then |src| else -1;
    }
  }

  function Min(a: nat, b: nat): (m: nat) { if a < b then a else b }

  /** Each of the transactions keeps to what a round may log. */
  ghost predicate AllFit(rounds: seq<set<nat>>, p: Places, size: nat) {
    forall k | 0 <= k < |rounds| :: RoundFits(p, size, rounds[k])
  }

  function Union(rounds: seq<set<nat>>): (r: set<nat>)
    ensures forall k | 0 <= k < |rounds| :: rounds[k] <= r
  {
    if rounds == [] then {} else Union(rounds[..|rounds| - 1]) + rounds[|rounds| - 1]
  }

  /** Since the image was `was`, the operations of `rounds` have ended, each within its bound. */
  ghost predicate Ended(p: Places, was: Image, now: Image, rounds: seq<set<nat>>) {
    |now.bits| == |was.bits| && AllFit(rounds, p, |now.bits|) && Noted(p, was, now, {}, Union(rounds))
  }

  lemma NextEnded(p: Places, was: Image, mid: Image, now: Image, rounds: seq<set<nat>>, logged: set<nat>,
                  ops: seq<set<nat>>)
    requires Ended(p, was, mid, rounds) && Noted(p, mid, now, {}, logged) && RoundFits(p, |now.bits|, logged)
    ensures Ended(p, was, now, rounds + [logged]) && ops + rounds + [logged] == ops + (rounds + [logged])
  {
    UnionMore(rounds, logged);
    NotedUnion(p, was, mid, now, Union(rounds), logged, Union(rounds + [logged]));
  }

  lemma UnionMore(rounds: seq<set<nat>>, logged: set<nat>)
    ensures Union(rounds + [logged]) == Union(rounds) + logged
  {
    assert (rounds + [logged])[..|rounds|] == rounds;
  }

  lemma NotedUnion(p: Places, was: Image, mid: Image, now: Image, l1: set<nat>, l2: set<nat>, l: set<nat>)
    requires Noted(p, was, mid, {}, l1) && Noted(p, mid, now, {}, l2) && l == l1 + l2
    ensures Noted(p, was, now, {}, l)
  {
  }

  /** No block is free. */
  predicate Full(bits: seq<bool>) { forall c | 0 <= c < |bits| :: bits[c] }

  /** What stops filewrite() short after w of n bytes, in round q: a write past the end of the file or past the
      largest size, a bad address, or a full disk. */
  predicate StopsFor(off: nat, size: nat, n: nat, w: nat, q: nat, bad: nat -> set<nat>, full: bool) {
    var k := q * MAXWRITE;
    && k <= w < n && w < k + MAXWRITE
    && (off > size || off + k + Min(MAXWRITE, n - k) > MAXFILE * BSIZE || w - k in bad(k) || full)
  }

  /** A round that falls short does so for one of these reasons. */
  lemma Stops(c0: seq<Byte>, c1: seq<Byte>, off: nat, src: seq<Byte>, k: nat, q: nat, n1: nat, r: int,
              bad: nat -> set<nat>, full: bool)
    requires Progress(c0, c1, off, src, k) && k == q * MAXWRITE < |src| && n1 == Min(MAXWRITE, |src| - k) &&
             -1 <= r < n1
    requires if r == -1 then off + k > |c1| || off + k + n1 > MAXFILE * BSIZE else r in bad(k) || full
    ensures StopsFor(off, |c0|, |src|, if r > 0 then k + r else k, q, bad, full)
  {
  }

  /** How many of n bytes from off on there are to read, with 32-bit offsets. */
  function Readable(size: nat, off: nat, n: nat): (m: nat) {
    if off > size || off + n >= U32 then 0 else Min(n, size - off)
  }

  lemma OverwriteTwice(c: seq<Byte>, off: nat, a: seq<Byte>, b: seq<Byte>)
    requires off <= |c|
    ensures off + |a| <= |Overwrite(c, off, a)| &&
            Overwrite(Overwrite(c, off, a), off + |a|, b) == Overwrite(c, off, a + b)
  {
  }

  lemma OverwriteRound(c: seq<Byte>, off: nat, src: seq<Byte>, k: nat, n1: nat, r: nat)
    requires off <= |c| && k + n1 <= |src| && r <= n1
    ensures off + k <= |Overwrite(c, off, src[..k])|
    ensures Overwrite(Overwrite(c, off, src[..k]), off + k, src[k..k + n1][..r]) == Overwrite(c, off, src[..k + r])
  {
    OverwriteTwice(c, off, src[..k], src[k..k + r]);
    assert src[k..k + n1][..r] == src[k..k + r] && src[..k] + src[k..k + r] == src[..k + r];
  }

  /** c0 has become c by writing the first w bytes of src from off on, which is not past its end. */
  ghost predicate Progress(c0: seq<Byte>, c: seq<Byte>, off: nat, src: seq<Byte>, w: nat) {
    w <= |src| && if off > |c0| then w == 0 && c == c0 else c == Overwrite(c0, off, src[..w])
  }

  lemma NextProgress(c0: seq<Byte>, c1: seq<Byte>, c2: seq<Byte>, off: nat, src: seq<Byte>, k: nat, n1: nat, r: nat)
    requires Progress(c0, c1, off, src, k) && k + n1 <= |src| && r <= n1
    requires off + k <= |c1| && c2 == Overwrite(c1, off + k, src[k..k + n1][..r])
    ensures Progress(c0, c2, off, src, k + r)
  {
    if off <= |c0| { OverwriteRound(c0, off, src, k, n1, r); }
  }

  lemma SameOthersTwice(blocks: seq<Block>, mem: seq<Inode>, b1: seq<Block>, m1: seq<Inode>, b2: seq<Block>,
                        m2: seq<Inode>, i: nat)
    requires SameOthers(blocks, mem, b1, m1, i) && SameOthers(b1, m1, b2, m2, i)
    ensures SameOthers(blocks, mem, b2, m2, i)
  {
    forall x: nat | x != i ensures SameFile(blocks, mem, b2, m2, x) {
      assert x == i || SameFile(blocks, mem, b1, m1, x);
      assert x == i || SameFile(b1, m1, b2, m2, x);
    }
  }

  lemma SameSelf(blocks: seq<Block>, mem: seq<Inode>, i: nat)
    requires Shaped(blocks, mem) && forall x | 0 <= x < |mem| :: InodeOk(mem[x])
    ensures SameOthers(blocks, mem, blocks, mem, i)
  {
    forall x: nat | x != i ensures SameFile(blocks, mem, blocks, mem, x) {
      assert x < |mem| ==> InodeOk(mem[x]);
    }
  }

  lemma ChunkRead(blocks: seq<Block>, mem: seq<Inode>, i: nat, at: nat, m: nat, addr: nat)
    requires Shaped(blocks, mem) && i < |mem| && mem[i].size <= MAXFILE * BSIZE && at < at + m <= mem[i].size &&
             at % BSIZE + m <= BSIZE
    requires addr == Addr(blocks, mem, SlotOf(i, at / BSIZE)) && addr < |blocks|
    ensures Content(blocks, mem, i)[at..at + m] == blocks[addr][at % BSIZE..at % BSIZE + m]
  {
    var c, b := Content(blocks, mem, i)[at..at + m], blocks[addr][at % BSIZE..at % BSIZE + m];
    forall k: nat | k < m ensures c[k] == b[k] {
      assert (at + k) / BSIZE == at / BSIZE && (at + k) % BSIZE == at % BSIZE + k;
    }
  }

  /** An inode without blocks may change its type. */
  lemma SameAddrsOk(meta: nat, bits: seq<bool>, blocks: seq<Block>, mem: seq<Inode>, owner: map<nat, Slot>, i: nat,
                    n: Inode)
    requires Ok(meta, bits, blocks, mem, owner) && i < |mem| && n.addrs == mem[i].addrs && n.size <= mem[i].size &&
             InodeOk(n)
    ensures Ok(meta, bits, blocks, mem[i := n], owner)
  {
    var mem' := mem[i := n];
    forall t ensures SlotOk(meta, blocks, mem', owner, t) {
      assert SlotOk(meta, blocks, mem, owner, t);
    }
    forall c: nat ensures BitOk(meta, bits, blocks, mem', owner, c) {
      assert BitOk(meta, bits, blocks, mem, owner, c);
    }
    forall x: nat, y: nat ensures HoleOk(blocks, mem', x, y) {
      assert HoleOk(blocks, mem, x, y);
    }
  }

  /** Ownership does not depend on sizes. */
  lemma Unsized(meta: nat, bits: seq<bool>, blocks: seq<Block>, mem: seq<Inode>, mem': seq<Inode>,
                owner: map<nat, Slot>, i: nat)
    requires Owned(meta, bits, blocks, mem, owner) && i < |mem| && mem' == WithSize(mem, i, 0)
    ensures Owned(meta, bits, blocks, mem', owner)
  {
    forall t ensures SlotOk(meta, blocks, mem', owner, t) {
      assert SlotOk(meta, blocks, mem, owner, t);
    }
    forall c: nat ensures BitOk(meta, bits, blocks, mem', owner, c) {
      assert BitOk(meta, bits, blocks, mem, owner, c);
    }
  }
}
