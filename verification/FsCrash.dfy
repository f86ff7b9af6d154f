/**
 The file system on the log: whatever state of the disk a crash leaves, what recovery brings back is a
 file system, the one that stood when some transaction was committed.

 FileSystem works on bits, bytes and inodes and says which blocks it logs; the log works on blocks of words.
 This module gives the format of the bitmap, the inodes and the data in words, and runs the one on the other.
 */
module FileSystemCrash {
  import opened Common
  import opened CrashRecovery
  import opened BufferCache
  import opened Logging
  import opened LogOps
  import R = LogReservation
  import S = LogSharing
  import F = FileSystem

  // ----- the format of the blocks --------------------------------------------------

  const U32: nat := F.U32
  const SHORT: nat := 65536

  /** Bit k of w. */
  function Bit(w: int, k: nat): (r: bool)
    decreases k
  {
    if k == 0 then w % 2 == 1 else Bit(w / 2, k - 1)
  }

  /** The word of these bits, the lowest first. */
  function Pack(bits: seq<bool>): (w: nat) {
    if bits == [] then 0 else (if bits[0] then 1 else 0) + 2 * Pack(bits[1..])
  }

  lemma {:induction false} BitOfPack(bits: seq<bool>, k: nat)
    requires k < |bits|
    ensures Bit(Pack(bits), k) == bits[k]
  {
    if k > 0 { BitOfPack(bits[1..], k - 1); }
  }

  /** Byte k of w. */
  function Octet(w: int, k: nat): (x: F.Byte) {
    if k == 0 then w % 256 else if k == 1 then w / 256 % 256 else if k == 2 then w / 65536 % 256 else w / 16777216 % 256
  }

  lemma OctetOfWord(b: F.Block, j: nat, k: nat)
    requires |b| == F.BSIZE && j < WORDS && k < 4
    ensures Octet(F.GetWord(b, j), k) == b[4 * j + k]
  {
    Octets(b[4 * j], b[4 * j + 1], b[4 * j + 2], b[4 * j + 3], F.GetWord(b, j));
  }

  lemma Octets(x: F.Byte, y: F.Byte, z: F.Byte, u: F.Byte, w: nat)
    requires w == x as int + 256 * y as int + 65536 * z as int + 16777216 * u as int
    ensures w % 256 == x && w / 256 % 256 == y && w / 65536 % 256 == z && w / 16777216 % 256 == u
  {
    assert w / 256 == y as int + 256 * z as int + 65536 * u as int;
    assert w / 65536 == w / 256 / 256 == z as int + 256 * u as int;
    assert w / 16777216 == w / 65536 / 256 == u as int;
  }

  /** Bit n of a bitmap block. */
  function BitAt(b: Block, n: nat): (r: bool)
    requires |b| == WORDS && n < F.BPB
  {
    Bit(b[n / 32], n % 32)
  }

  function BytesOf(b: Block): (r: F.Block)
    requires |b| == WORDS
    ensures |r| == F.BSIZE && forall n | 0 <= n < F.BSIZE :: r[n] == Octet(b[n / 4], n % 4)
  {
    seq(F.BSIZE, n requires 0 <= n < F.BSIZE => Octet(b[n / 4], n % 4))
  }

  /** The inode of 16 words: four shorts, the size and the block numbers. */
  function InodeOf(w: seq<int>): (r: F.Inode)
    requires |w| == 16
  {
    F.Inode(w[0] % SHORT, w[0] / SHORT % SHORT, w[1] % SHORT, w[1] / SHORT % SHORT, w[2] % U32, Numbers(w))
  }

  function Numbers(w: seq<int>): (r: seq<nat>)
    requires |w| == 16
    ensures |r| == F.NDIRECT + 1 && forall k | 0 <= k <= F.NDIRECT :: r[k] == w[3 + k] % U32
  {
    seq(F.NDIRECT + 1, k requires 0 <= k <= F.NDIRECT => w[3 + k] % U32)
  }

  /** Inode n of an inode block. */
  function InodeAt(b: Block, n: nat): (r: F.Inode)
    requires |b| == WORDS && n < F.IPB
  {
    InodeOf(b[16 * n..16 * n + 16])
  }

  /** The words of a bitmap block, for the bits from `at` on. */
  function BitWords(bits: seq<bool>, at: nat): (r: Block)
    ensures |r| == WORDS && forall j | 0 <= j < WORDS :: r[j] == Pack(Bits(bits, at + 32 * j))
  {
    seq(WORDS, j requires 0 <= j < WORDS => Pack(Bits(bits, at + 32 * j)))
  }

  /** The 32 bits from `at` on; past the end there are none in use. */
  function Bits(bits: seq<bool>, at: nat): (r: seq<bool>)
    ensures |r| == 32 && forall k | 0 <= k < 32 :: r[k] <==> at + k < |bits| && bits[at + k]
  {
    seq(32, k requires 0 <= k < 32 => at + k < |bits| && bits[at + k])
  }

  function ByteWords(b: F.Block): (r: Block)
    requires |b| == F.BSIZE
    ensures |r| == WORDS && forall j | 0 <= j < WORDS :: r[j] == F.GetWord(b, j)
  {
    seq(WORDS, j requires 0 <= j < WORDS => F.GetWord(b, j))
  }

  predicate HasAddrs(n: F.Inode) { |n.addrs| == F.NDIRECT + 1 }

  /** An inode whose fields fit the words they are kept in. */
  predicate Storable(n: F.Inode) {
    && n.typ < SHORT && n.major < SHORT && n.minor < SHORT && n.nlink < SHORT && n.size < U32
    && HasAddrs(n) && forall k | 0 <= k <= F.NDIRECT :: n.addrs[k] < U32
  }

  function InodeWords(n: F.Inode): (w: seq<int>)
    requires HasAddrs(n)
    ensures |w| == 16 && w[0] == n.typ + SHORT * n.major && w[1] == n.minor + SHORT * n.nlink && w[2] == n.size
    ensures forall k | 0 <= k <= F.NDIRECT :: w[3 + k] == n.addrs[k]
  {
    [n.typ + SHORT * n.major as int, n.minor + SHORT * n.nlink, n.size] + n.addrs
  }

  /** Word j of an inode block, for the inodes from `at` on. */
  function InodeWord(inodes: seq<F.Inode>, at: nat, j: nat): (w: int)
    requires forall i | 0 <= i < |inodes| :: HasAddrs(inodes[i])
  {
    if at + j / 16 < |inodes| then InodeWords(inodes[at + j / 16])[j % 16] else 0
  }

  function InodesWords(inodes: seq<F.Inode>, at: nat): (r: Block)
    requires forall i | 0 <= i < |inodes| :: HasAddrs(inodes[i])
    ensures |r| == WORDS && forall j | 0 <= j < WORDS :: r[j] == InodeWord(inodes, at, j)
  {
    seq(WORDS, j requires 0 <= j < WORDS => InodeWord(inodes, at, j))
  }

  // What is stored is read back.

  lemma BitReads(bits: seq<bool>, at: nat, n: nat)
    requires n < F.BPB && at + n < |bits|
    ensures BitAt(BitWords(bits, at), n) == bits[at + n]
  {
    BitOfPack(Bits(bits, at + 32 * (n / 32)), n % 32);
  }

  lemma BytesRead(b: F.Block)
    requires |b| == F.BSIZE
    ensures BytesOf(ByteWords(b)) == b
  {
    forall n | 0 <= n < F.BSIZE ensures Octet(ByteWords(b)[n / 4], n % 4) == b[n] { OctetOfWord(b, n / 4, n % 4); }
  }

  lemma InodeReads(inodes: seq<F.Inode>, at: nat, n: nat)
    requires n < F.IPB && at + n < |inodes| && forall i | 0 <= i < |inodes| :: HasAddrs(inodes[i])
    requires Storable(inodes[at + n])
    ensures InodeAt(InodesWords(inodes, at), n) == inodes[at + n]
  {
    InodeSlice(inodes, at, n);
    InodeOfWords(inodes[at + n]);
  }

  lemma InodeSlice(inodes: seq<F.Inode>, at: nat, n: nat)
    requires n < F.IPB && at + n < |inodes| && forall i | 0 <= i < |inodes| :: HasAddrs(inodes[i])
    ensures InodesWords(inodes, at)[16 * n..16 * n + 16] == InodeWords(inodes[at + n])
  {
    var b, w := InodesWords(inodes, at), InodeWords(inodes[at + n]);
    forall j | 0 <= j < 16 ensures b[16 * n + j] == w[j] { InodeWordReads(inodes, at, n, j); }
  }

  lemma InodeWordReads(inodes: seq<F.Inode>, at: nat, n: nat, j: nat)
    requires n < F.IPB && j < 16 && at + n < |inodes| && forall i | 0 <= i < |inodes| :: HasAddrs(inodes[i])
    ensures InodesWords(inodes, at)[16 * n + j] == InodeWords(inodes[at + n])[j]
  {
    var k := 16 * n + j;
    assert k / 16 == n && k % 16 == j;
  }

  lemma InodeOfWords(m: F.Inode)
    requires Storable(m)
    ensures InodeOf(InodeWords(m)) == m
  {
    assert Numbers(InodeWords(m)) == m.addrs;
  }

  // ----- the disk and the file system on it ----------------------------------------------

  ghost predicate BitLoads(p: F.Places, d: Disk, img: F.Image, b: nat) {
    b < |img.bits| ==> p.BBlock(b) < |d| && |d[p.BBlock(b)]| == WORDS && img.bits[b] == BitAt(d[p.BBlock(b)], b % F.BPB)
  }

  ghost predicate BlockLoads(meta: nat, d: Disk, img: F.Image, b: nat) {
    meta <= b < |img.blocks| ==> b < |d| && |d[b]| == WORDS && img.blocks[b] == BytesOf(d[b])
  }

  ghost predicate InodeLoads(p: F.Places, d: Disk, img: F.Image, i: nat) {
    i < |img.inodes| ==> p.IBlock(i) < |d| && |d[p.IBlock(i)]| == WORDS &&
                         img.inodes[i] == InodeAt(d[p.IBlock(i)], i % F.IPB)
  }

  /** The disk holds this file system. */
  ghost predicate Loads(p: F.Places, meta: nat, d: Disk, img: F.Image) {
    && |img.bits| == |img.blocks| == |d| && p.Fit(meta, |d|, |img.inodes|)
    && (forall b: nat :: BitLoads(p, d, img, b))
    && (forall b: nat :: BlockLoads(meta, d, img, b))
    && (forall i: nat :: InodeLoads(p, d, img, i))
  }

  /** The file system is wherever the log is not. */
  lemma LoadsAlike(l: Layout, p: F.Places, meta: nat, d: Disk, e: Disk, img: F.Image)
    requires Loads(p, meta, d, img) && SameHome(l, d, e) && l.start + l.size <= p.inodestart
    ensures Loads(p, meta, e, img)
  {
    forall b: nat ensures BitLoads(p, e, img, b) { assert BitLoads(p, d, img, b); }
    forall b: nat ensures BlockLoads(meta, e, img, b) { assert BlockLoads(meta, d, img, b); }
    forall i: nat ensures InodeLoads(p, e, img, i) { assert InodeLoads(p, d, img, i); }
  }

  /** Everything in the image can be stored. */
  ghost predicate Fits(img: F.Image) {
    && (forall b | 0 <= b < |img.blocks| :: |img.blocks[b]| == F.BSIZE)
    && (forall i | 0 <= i < |img.inodes| :: Storable(img.inodes[i]))
  }

  /** What block b holds, for this image. */
  function Encoded(p: F.Places, meta: nat, img: F.Image, b: nat): (r: Block)
    requires b < |img.blocks| && p.inodestart <= b && |img.blocks[b]| == F.BSIZE && forall i | 0 <= i < |img.inodes| ::
             HasAddrs(img.inodes[i])
    ensures |r| == WORDS
  {
    if meta <= b then ByteWords(img.blocks[b])
    else if p.bmapstart <= b then BitWords(img.bits, (b - p.bmapstart) * F.BPB)
    else InodesWords(img.inodes, (b - p.inodestart) * F.IPB)
  }

  /** d with the blocks `done` as the image has them. */
  ghost predicate Stored(p: F.Places, meta: nat, img: F.Image, d0: Disk, d: Disk, done: set<nat>) {
    && Fits(img) && |d| == |d0| == |img.blocks|
    && forall b: nat :: StoredAt(p, meta, img, d0, d, done, b)
  }

  ghost predicate StoredAt(p: F.Places, meta: nat, img: F.Image, d0: Disk, d: Disk, done: set<nat>, b: nat)
    requires Fits(img) && |d| == |d0| == |img.blocks|
  {
    if b in done then p.inodestart <= b < |d0| && d[b] == Encoded(p, meta, img, b) else b < |d0| ==> d[b] == d0[b]
  }

  lemma StoredNothing(p: F.Places, meta: nat, img: F.Image, d: Disk)
    requires Fits(img) && |d| == |img.blocks|
    ensures Stored(p, meta, img, d, d, {})
  {
  }

  lemma StoredMore(p: F.Places, meta: nat, img: F.Image, d0: Disk, d: Disk, done: set<nat>, b: nat)
    requires Stored(p, meta, img, d0, d, done) && p.inodestart <= b < |d0|
    ensures Stored(p, meta, img, d0, d[b := Encoded(p, meta, img, b)], done + {b})
  {
    var e := d[b := Encoded(p, meta, img, b)];
    forall c: nat ensures StoredAt(p, meta, img, d0, e, done + {b}, c) {
      assert StoredAt(p, meta, img, d0, d, done, c);
    }
  }

  lemma BitPlace(p: F.Places, meta: nat, n: nat, inodes: nat, b: nat)
    requires p.Fit(meta, n, inodes) && b < n
    ensures p.bmapstart <= p.BBlock(b) < meta && (p.BBlock(b) - p.bmapstart) * F.BPB + b % F.BPB == b
  {
  }

  lemma InodePlace(p: F.Places, meta: nat, n: nat, inodes: nat, i: nat)
    requires p.Fit(meta, n, inodes) && i < inodes
    ensures p.inodestart <= p.IBlock(i) < p.bmapstart && (p.IBlock(i) - p.inodestart) * F.IPB + i % F.IPB == i
  {
  }

  lemma EncodedBit(p: F.Places, meta: nat, img: F.Image, b: nat)
    requires Fits(img) && p.Fit(meta, |img.bits|, |img.inodes|) && b < |img.bits| && p.BBlock(b) < |img.blocks|
    ensures p.inodestart <= p.BBlock(b) && BitAt(Encoded(p, meta, img, p.BBlock(b)), b % F.BPB) == img.bits[b]
  {
    BitPlace(p, meta, |img.bits|, |img.inodes|, b);
    BitReads(img.bits, (p.BBlock(b) - p.bmapstart) * F.BPB, b % F.BPB);
  }

  lemma EncodedInode(p: F.Places, meta: nat, img: F.Image, i: nat)
    requires Fits(img) && p.Fit(meta, |img.bits|, |img.inodes|) && i < |img.inodes| && p.IBlock(i) < |img.blocks|
    ensures InodeAt(Encoded(p, meta, img, p.IBlock(i)), i % F.IPB) == img.inodes[i]
  {
    InodePlace(p, meta, |img.bits|, |img.inodes|, i);
    InodeReads(img.inodes, (p.IBlock(i) - p.inodestart) * F.IPB, i % F.IPB);
  }

  lemma BitStored(p: F.Places, meta: nat, was: F.Image, img: F.Image, d0: Disk, d: Disk, done: set<nat>, b: nat)
    requires Loads(p, meta, d0, was) && F.Noted(p, was, img, {}, done) && Stored(p, meta, img, d0, d, done)
    ensures BitLoads(p, d, img, b)
  {
    assert BitLoads(p, d0, was, b);
    var c := p.BBlock(b);
    assert StoredAt(p, meta, img, d0, d, done, c);
    if b < |img.bits| && c in done { EncodedBit(p, meta, img, b); }
  }

  lemma InodeStored(p: F.Places, meta: nat, was: F.Image, img: F.Image, d0: Disk, d: Disk, done: set<nat>, i: nat)
    requires Loads(p, meta, d0, was) && F.Noted(p, was, img, {}, done) && Stored(p, meta, img, d0, d, done)
    ensures InodeLoads(p, d, img, i)
  {
    assert InodeLoads(p, d0, was, i);
    var c := p.IBlock(i);
    assert StoredAt(p, meta, img, d0, d, done, c);
    if i < |img.inodes| && c in done { EncodedInode(p, meta, img, i); }
  }

  lemma BlockStored(p: F.Places, meta: nat, was: F.Image, img: F.Image, d0: Disk, d: Disk, done: set<nat>, b: nat)
    requires Loads(p, meta, d0, was) && F.Noted(p, was, img, {}, done) && Stored(p, meta, img, d0, d, done)
    ensures BlockLoads(meta, d, img, b)
  {
    assert BlockLoads(meta, d0, was, b) && StoredAt(p, meta, img, d0, d, done, b);
    if meta <= b < |img.blocks| && b in done { BytesRead(img.blocks[b]); }
  }

  /** Storing the blocks that were logged takes the disk from the one image to the other. */
  lemma StoredLoads(p: F.Places, meta: nat, was: F.Image, img: F.Image, d0: Disk, d: Disk, done: set<nat>)
    requires Loads(p, meta, d0, was) && F.Noted(p, was, img, {}, done) && Stored(p, meta, img, d0, d, done)
    ensures Loads(p, meta, d, img)
  {
    forall b: nat ensures BitLoads(p, d, img, b) { BitStored(p, meta, was, img, d0, d, done, b); }
    forall b: nat ensures BlockLoads(meta, d, img, b) { BlockStored(p, meta, was, img, d0, d, done, b); }
    forall i: nat ensures InodeLoads(p, d, img, i) { InodeStored(p, meta, was, img, d0, d, done, i); }
  }

  // ----- the file system at work -------------------------------------------------------

  ghost predicate WellFormed(meta: nat, img: F.Image) {
    exists owner :: F.Ok(meta, img.bits, img.blocks, img.inodes, owner)
  }

  /** The disk holds this file system, and it is well-formed. */
  ghost predicate Good(p: F.Places, meta: nat, d: Disk, img: F.Image) {
    Loads(p, meta, d, img) && WellFormed(meta, img)
  }

  predicate Shorts(n: F.Inode) { n.typ < SHORT && n.major < SHORT && n.minor < SHORT && n.nlink < SHORT }

  /** A well-formed file system can be stored. */
  lemma OkFits(meta: nat, img: F.Image, owner: map<nat, F.Slot>)
    requires F.Ok(meta, img.bits, img.blocks, img.inodes, owner) && forall i | 0 <= i < |img.inodes| ::
             Shorts(img.inodes[i])
    ensures Fits(img)
  {
    forall i | 0 <= i < |img.inodes| ensures Storable(img.inodes[i]) {
      assert F.InodeOk(img.inodes[i]);
      forall k: nat | k <= F.NDIRECT ensures img.inodes[i].addrs[k] < U32 {
        var s := if k < F.NDIRECT then F.Direct(i, k) else F.Indirect(i);
        assert F.SlotOk(meta, img.blocks, img.inodes, owner, s) &&
               F.Addr(img.blocks, img.inodes, s) == img.inodes[i].addrs[k];
      }
    }
  }

  /** Operation op, which has logged `before`, stores block b, the blocks `done` being stored already. */
  method StoreOne(calls: Calls, ghost op: nat, ghost before: set<nat>, p: F.Places, meta: nat, img: F.Image, b: nat,
                  ghost d0: Disk, ghost done: set<nat>, ghost all: set<nat>)
    requires calls.Ready() && calls.log.l.start + calls.log.l.size <= p.inodestart
    requires Stored(p, meta, img, d0, calls.log.logged, done) && p.inodestart <= b < |d0|
    requires calls.Logs(op, before + done) && done <= all && b in all && S.Keeps(before + all, calls.g)
    modifies calls, calls.log`lh, calls.log`pins, calls.log`logged, calls.log.bc`bufs, calls.log.bc`pinned
    modifies calls.log.bc`next, calls.log.bc`prev, calls.log.bc`order, calls.log.bc`moved, calls.log.bc`clock
    ensures calls.Ready() && Stored(p, meta, img, d0, calls.log.logged, done + {b})
    ensures calls.Logs(op, before + (done + {b})) && SameButOne(old(calls.Ops()), calls.Ops(), op)
  {
    S.KeepsLess(before + done + {b}, before + all, calls.g);
    StoredMore(p, meta, img, d0, calls.log.logged, done, b);
    assert before + done + {b} == before + (done + {b});
    calls.Change(op, before + done, b, Encoded(p, meta, img, b));
  }

  /** Operation op stores the blocks `all`. */
  method Store(calls: Calls, ghost op: nat, ghost before: set<nat>, p: F.Places, meta: nat, img: F.Image, all: set<nat>)
    requires calls.Ready() && calls.log.l.start + calls.log.l.size <= p.inodestart
    requires Fits(img) && |calls.log.logged| == |img.blocks| && forall b | b in all :: p.inodestart <= b < |img.blocks|
    requires calls.Logs(op, before) && S.Keeps(before + all, calls.g)
    modifies calls, calls.log`lh, calls.log`pins, calls.log`logged, calls.log.bc`bufs, calls.log.bc`pinned
    modifies calls.log.bc`next, calls.log.bc`prev, calls.log.bc`order, calls.log.bc`moved, calls.log.bc`clock
    ensures calls.Ready() && Stored(p, meta, img, old(calls.log.logged), calls.log.logged, all)
    ensures calls.Logs(op, before + all) && SameButOne(old(calls.Ops()), calls.Ops(), op)
  {
    ghost var d0, ops := calls.log.logged, calls.Ops();
    var done: set<nat> := {};
    StoredNothing(p, meta, img, d0);
    assert before + done == before;
    while done != all
      invariant calls.Ready() && done <= all && Stored(p, meta, img, d0, calls.log.logged, done)
      invariant calls.Logs(op, before + done) && SameButOne(ops, calls.Ops(), op)
      decreases |all - done|
    {
      assert all - done != {};
      var b :| b in all - done;
      StoreOne(calls, op, before, p, meta, img, b, d0, done, all);
      done := done + {b};
    }
  }

  /** Every snapshot holds its image. */
  ghost predicate AllGood(p: F.Places, meta: nat, snapshots: seq<Disk>, images: seq<F.Image>) {
    |images| == |snapshots| && forall k | 0 <= k < |images| :: Good(p, meta, snapshots[k], images[k])
  }

  lemma FirstGood(p: F.Places, meta: nat, d: Disk, img: F.Image, owner: map<nat, F.Slot>)
    requires Loads(p, meta, d, img) && F.Ok(meta, img.bits, img.blocks, img.inodes, owner)
    ensures AllGood(p, meta, [d], [img])
  {
    assert Good(p, meta, d, img);
  }

  /** The last end_op(), which commits transaction lh unless it is empty, leaves the file system on the disk. */
  lemma CommitGood(l: Layout, p: F.Places, meta: nat, lh: seq<nat>, s: seq<Disk>, s': seq<Disk>, e: seq<nat>,
                   e': seq<nat>, d: Disk, logged: Disk,
                   img: F.Image, owner: map<nat, F.Slot>, images: seq<F.Image>)
    requires AllGood(p, meta, s, images) && Committed(lh, s, s', e, e', d) && SameHome(l, d, logged) &&
             l.start + l.size <= p.inodestart
    requires Loads(p, meta, logged, img) && F.Ok(meta, img.bits, img.blocks, img.inodes, owner)
    ensures Loads(p, meta, d, img) && AllGood(p, meta, s', if lh == [] then images else images + [img])
  {
    LoadsAlike(l, p, meta, logged, d, img);
    assert Good(p, meta, d, img);
  }

  /** What writei() makes of file i of an image: r bytes of src are written from off on. */
  ghost predicate Wrote(was: F.Image, now: F.Image, i: nat, src: seq<F.Byte>, off: nat, r: int) {
    && F.Shaped(was.blocks, was.inodes) && F.Shaped(now.blocks, now.inodes) && i < |was.inodes| == |now.inodes|
    && was.inodes[i].size <= F.MAXFILE * F.BSIZE && now.inodes[i].size <= F.MAXFILE * F.BSIZE
    && (r == -1 <==> off > was.inodes[i].size || off + |src| > F.MAXFILE * F.BSIZE)
    && (r == -1 ==> now == was)
    && (r != -1 ==> 0 <= r <= |src| && F.Content(now.blocks, now.inodes, i) ==
                    F.Overwrite(F.Content(was.blocks, was.inodes, i), off, src[..r]))
    && F.SameOthers(was.blocks, was.inodes, now.blocks, now.inodes, i)
  }

  /** A file system mounted: its blocks go through the log. */
  class Mounted {
    const calls: Calls
    const fs: F.Fs
    const disk: nat                  // how many blocks it has
    ghost var images: seq<F.Image>   // the file system in each snapshot of the log

    /** What the file system is in memory can be stored, and is what has been logged. */
    ghost predicate Synced()
      reads fs, calls.log`logged
    {
      && |fs.mem| == |fs.dinodes| && |fs.bits| == disk
      && forall k: nat :: Key(k) ==>
           fs.Valid() && fs.OnDisk() && Fits(fs.Img()) && Loads(fs.places, fs.meta, calls.log.logged, fs.Img())
    }

    lemma SyncedMeans()
      requires Synced()
      ensures F.Ok(fs.meta, fs.bits, fs.blocks, fs.dinodes, fs.owner)
      ensures Loads(fs.places, fs.meta, calls.log.logged, fs.Img())
    {
      assert Key(0);
    }

    /** Between calls, of which any number may be outstanding. */
    ghost predicate Valid()
      reads this, fs, calls, calls.log, calls.log.bc
    {
      && calls.Ready() && Synced() && calls.log.l.start + calls.log.l.size <= fs.places.inodestart
      && calls.g.shared == fs.places.Bitmap(disk) && AllGood(fs.places, fs.meta, calls.log.snapshots, images)
    }

    /** Recovery, on a disk d that then holds a well-formed file system.  Operations are to log at most `bound` blocks,
        of which at most `own` are not of the bitmap. */
    constructor (d: Disk, l: Layout, bound: nat, own: nat, p: F.Places, meta: nat, img: F.Image,
                 ghost owner: map<nat, F.Slot>)
      requires Bootable(l, d) && SafeFor(S.Budget(bound, own, p.Bitmap(|d|)), l.size) &&
               l.start + l.size <= p.inodestart
      requires Loads(p, meta, Recovered(l, d), img) && F.Ok(meta, img.bits, img.blocks, img.inodes, owner) && Fits(img)
      ensures Valid() && calls.log.outstanding == 0 && fs.Img() == img && images == [img]
      ensures calls.g == S.Budget(bound, own, p.Bitmap(|d|)) && disk == |d| && fs.places == p
      ensures fresh(fs) && fresh(calls) && fresh(calls.log) && fresh(calls.log.bc)
    {
      calls := new Calls(d, l, S.Budget(bound, own, p.Bitmap(|d|)));
      fs := new F.Fs(meta, p, img.bits, img.blocks, img.inodes, owner);
      disk := |d|;
      images := [img];
      new;
      FirstGood(p, meta, calls.log.bc.disk, img, owner);
    }

    method Begin() returns (admitted: bool, ghost op: nat)
      requires Valid()
      modifies calls, calls.log`outstanding
      ensures Valid() && (admitted <==> R.Enabled(old(R.After(calls.run)), R.Begin, calls.g.bound))
      ensures admitted ==> op == old(calls.log.outstanding) && calls.log.outstanding == op + 1
      ensures admitted ==> calls.Ops() == old(calls.Ops()) + [{}] && calls.Logs(op, {})
    {
      op := calls.log.outstanding;
      admitted := BeginCall(op);
    }

    method BeginCall(ghost op: nat) returns (admitted: bool)
      requires calls.Ready() && op == calls.log.outstanding
      modifies calls, calls.log`outstanding
      ensures calls.Ready() && (admitted <==> R.Enabled(old(R.After(calls.run)), R.Begin, calls.g.bound))
      ensures admitted ==> calls.log.outstanding == op + 1
      ensures admitted ==> calls.Ops() == old(calls.Ops()) + [{}] && calls.Logs(op, {})
    {
      assert Key(0);
      admitted := calls.Begin();
    }

    /** An operation that has logged `before` may log n blocks more, of which `own` are not of the bitmap. */
    predicate Leaves(before: set<nat>, n: nat, own: nat) {
      |before| + n <= calls.g.bound && |before - calls.g.shared| + own <= calls.g.own
    }

    lemma LeavesRoom(before: set<nat>, w: set<nat>, n: nat, own: nat)
      requires Leaves(before, n, own) && |w| <= n && |w - calls.g.shared| <= own
      ensures S.Keeps(before + w, calls.g)
    {
      F.UnionSize(before, w);
      F.UnionSize(before - calls.g.shared, w - calls.g.shared);
      assert before + w - calls.g.shared == (before - calls.g.shared) + (w - calls.g.shared);
    }

    lemma LeavesOne(before: set<nat>, w: set<nat>)
      requires Leaves(before, 1, 1) && |w| <= 1
      ensures S.Keeps(before + w, calls.g)
    {
      SubsetSize(w - calls.g.shared, w);
      LeavesRoom(before, w, 1, 1);
    }

    /** What a call of the file system has logged, since the image was `was`, goes through the log. */
    method Sync(ghost op: nat, ghost before: set<nat>, ghost was: F.Image)
      requires calls.Ready() && calls.Logs(op, before) && S.Keeps(before + fs.logged, calls.g) && |fs.bits| == disk
      requires fs.Valid() && fs.OnDisk() && Fits(fs.Img()) &&
               calls.log.l.start + calls.log.l.size <= fs.places.inodestart
      requires Loads(fs.places, fs.meta, calls.log.logged, was) && F.Noted(fs.places, was, fs.Img(), {}, fs.logged)
      modifies calls, calls.log`lh, calls.log`pins, calls.log`logged, calls.log.bc`bufs, calls.log.bc`pinned
      modifies calls.log.bc`next, calls.log.bc`prev, calls.log.bc`order, calls.log.bc`moved, calls.log.bc`clock
      ensures calls.Ready() && Synced() && calls.Logs(op, before + fs.logged)
      ensures SameButOne(old(calls.Ops()), calls.Ops(), op)
    {
      ghost var d0 := calls.log.logged;
      Store(calls, op, before, fs.places, fs.meta, F.Image(fs.bits, fs.blocks, fs.dinodes), fs.logged);
      StoredLoads(fs.places, fs.meta, was, fs.Img(), d0, calls.log.logged, fs.logged);
    }

    /** writei() of at most MAXWRITE bytes, by an operation that has logged `before`. */
    method WriteI(ghost op: nat, ghost before: set<nat>, i: nat, src: seq<F.Byte>, off: nat, bad: set<nat>)
      returns (r: int)
      requires Valid() && i < |fs.mem| && fs.mem[i].typ != 0 && off < U32 && |src| <= F.MAXWRITE
      requires calls.Logs(op, before) && Leaves(before, F.RoundBound(disk), 6)
      modifies fs, calls, calls.log`lh, calls.log`pins, calls.log`logged, calls.log.bc`bufs, calls.log.bc`pinned
      modifies calls.log.bc`next, calls.log.bc`prev, calls.log.bc`order, calls.log.bc`moved, calls.log.bc`clock
      ensures Valid() && calls.Logs(op, before + fs.logged) && SameButOne(old(calls.Ops()), calls.Ops(), op)
      ensures Wrote(old(fs.Img()), fs.Img(), i, src, off, r) && F.RoundFits(fs.places, disk, fs.logged)
    {
      assert Key(0);
      ghost var was := fs.Img();
      r := WriteFs(i, src, off, bad);
      LeavesRoom(before, fs.logged, F.RoundBound(disk), 6);
      Sync(op, before, was);
    }

    /** iput(), likewise. */
    method IPut(ghost op: nat, ghost before: set<nat>, i: nat, ref: nat, valid: bool) returns (ref': nat)
      requires Valid() && i < |fs.mem| && ref > 0
      requires calls.Logs(op, before) && Leaves(before, F.BitmapBlocks(disk) + 1, 1)
      modifies fs, calls, calls.log`lh, calls.log`pins, calls.log`logged, calls.log.bc`bufs, calls.log.bc`pinned
      modifies calls.log.bc`next, calls.log.bc`prev, calls.log.bc`order, calls.log.bc`moved, calls.log.bc`clock
      ensures Valid() && calls.Logs(op, before + fs.logged) && SameButOne(old(calls.Ops()), calls.Ops(), op)
      ensures ref' == ref - 1 && F.FreeFits(fs.places, disk, fs.logged)
      ensures if ref == 1 && valid && old(fs.mem)[i].nlink == 0
              then fs.mem == old(fs.mem)[i := F.Empty(old(fs.mem)[i]).(typ := 0)] else fs.mem == old(fs.mem)
    {
      assert Key(0);
      ghost var was := fs.Img();
      ref' := PutFs(i, ref, valid);
      LeavesRoom(before, fs.logged, F.BitmapBlocks(disk) + 1, 1);
      Sync(op, before, was);
    }

    method PutFs(i: nat, ref: nat, valid: bool) returns (ref': nat)
      requires fs.Valid() && fs.OnDisk() && Fits(fs.Img()) && i < |fs.mem| && ref > 0 && |fs.bits| == disk
      modifies fs
      ensures fs.Valid() && fs.OnDisk() && Fits(fs.Img()) && ref' == ref - 1
      ensures F.FreeFits(fs.places, disk, fs.logged) && F.Noted(fs.places, old(fs.Img()), fs.Img(), {}, fs.logged)
      ensures if ref == 1 && valid && old(fs.mem)[i].nlink == 0
              then fs.mem == old(fs.mem)[i := F.Empty(old(fs.mem)[i]).(typ := 0)] else fs.mem == old(fs.mem)
    {
      fs.logged := {};
      ref' := fs.IPut(i, ref, valid);
      assert fs.logged - {} == fs.logged;
      OkFits(fs.meta, fs.Img(), fs.owner);
    }

    /** ialloc(), likewise. */
    method IAlloc(ghost op: nat, ghost before: set<nat>, typ: nat) returns (inum: nat)
      requires Valid() && 0 < typ < SHORT && calls.Logs(op, before) && Leaves(before, 1, 1)
      modifies fs, calls, calls.log`lh, calls.log`pins, calls.log`logged, calls.log.bc`bufs, calls.log.bc`pinned
      modifies calls.log.bc`next, calls.log.bc`prev, calls.log.bc`order, calls.log.bc`moved, calls.log.bc`clock
      ensures Valid() && calls.Logs(op, before + fs.logged) && SameButOne(old(calls.Ops()), calls.Ops(), op)
      ensures inum == 0 ==> fs.mem == old(fs.mem) && forall x | 1 <= x < |fs.mem| :: fs.mem[x].typ != 0
      ensures inum != 0 ==> inum < |old(fs.mem)| && old(fs.mem)[inum].typ == 0 &&
                            fs.mem == old(fs.mem)[inum := F.New(typ)]
    {
      assert Key(0);
      ghost var was := fs.Img();
      inum := AllocFs(typ);
      LeavesOne(before, fs.logged);
      Sync(op, before, was);
    }

    method AllocFs(typ: nat) returns (inum: nat)
      requires fs.Valid() && fs.OnDisk() && Fits(fs.Img()) && 0 < typ < SHORT
      modifies fs
      ensures fs.Valid() && fs.OnDisk() && Fits(fs.Img())
      ensures |fs.logged| <= 1 && F.Noted(fs.places, old(fs.Img()), fs.Img(), {}, fs.logged)
      ensures inum == 0 ==> fs.mem == old(fs.mem) && forall x | 1 <= x < |fs.mem| :: fs.mem[x].typ != 0
      ensures inum != 0 ==> inum < |old(fs.mem)| && old(fs.mem)[inum].typ == 0 &&
                            fs.mem == old(fs.mem)[inum := F.New(typ)]
    {
      fs.logged := {};
      inum := fs.IAlloc(typ);
      OkFits(fs.meta, fs.Img(), fs.owner);
    }

    /** What link(), unlink() and create() do to an inode, likewise. */
    method SetInode(ghost op: nat, ghost before: set<nat>, i: nat, major: nat, minor: nat, nlink: nat)
      requires Valid() && i < |fs.mem| && major < SHORT && minor < SHORT && nlink < SHORT
      requires calls.Logs(op, before) && Leaves(before, 1, 1)
      modifies fs, calls, calls.log`lh, calls.log`pins, calls.log`logged, calls.log.bc`bufs, calls.log.bc`pinned
      modifies calls.log.bc`next, calls.log.bc`prev, calls.log.bc`order, calls.log.bc`moved, calls.log.bc`clock
      ensures Valid() && calls.Logs(op, before + fs.logged) && SameButOne(old(calls.Ops()), calls.Ops(), op)
      ensures fs.mem == old(fs.mem)[i := old(fs.mem)[i].(major := major, minor := minor, nlink := nlink)]
      ensures fs.blocks == old(fs.blocks) && fs.logged == {fs.places.IBlock(i)}
    {
      assert Key(0);
      ghost var was := fs.Img();
      SetFs(i, major, minor, nlink);
      LeavesOne(before, fs.logged);
      Sync(op, before, was);
    }

    method SetFs(i: nat, major: nat, minor: nat, nlink: nat)
      requires fs.Valid() && fs.OnDisk() && Fits(fs.Img()) && i < |fs.mem|
      requires major < SHORT && minor < SHORT && nlink < SHORT
      modifies fs
      ensures fs.Valid() && fs.OnDisk() && Fits(fs.Img()) && fs.blocks == old(fs.blocks) && fs.bits == old(fs.bits)
      ensures fs.logged == {fs.places.IBlock(i)} && F.Noted(fs.places, old(fs.Img()), fs.Img(), {}, fs.logged)
      ensures fs.mem == old(fs.mem)[i := old(fs.mem)[i].(major := major, minor := minor, nlink := nlink)]
    {
      fs.logged := {};
      fs.SetInode(i, major, minor, nlink);
      OkFits(fs.meta, fs.Img(), fs.owner);
    }

    /** The part of writei() that is the file system's. */
    method WriteFs(i: nat, src: seq<F.Byte>, off: nat, bad: set<nat>) returns (r: int)
      requires fs.Valid() && fs.OnDisk() && Fits(fs.Img())
      requires i < |fs.mem| && fs.mem[i].typ != 0 && off < U32 && |src| <= F.MAXWRITE && |fs.bits| == disk
      modifies fs
      ensures fs.Valid() && fs.OnDisk() && Fits(fs.Img()) && Wrote(old(fs.Img()), fs.Img(), i, src, off, r)
      ensures F.RoundFits(fs.places, disk, fs.logged) && F.Noted(fs.places, old(fs.Img()), fs.Img(), {}, fs.logged)
    {
      fs.logged := {};
      r := fs.WriteI(i, src, off, bad);
      assert fs.logged - {} == fs.logged;
      OkFits(fs.meta, fs.Img(), fs.owner);
    }

    /** end_op().  The last one commits what the file system is then. */
    method End(ghost op: nat)
      requires Valid() && op < calls.log.outstanding
      modifies this, calls, calls.log, calls.log.bc
      ensures Valid() && calls.log.outstanding == old(calls.log.outstanding) - 1
      ensures op < |old(calls.Ops())| && calls.Ops() == old(calls.Ops())[..op] + old(calls.Ops())[op + 1..]
      ensures calls.log.outstanding == 0 ==> Loads(fs.places, fs.meta, calls.log.bc.disk, fs.Img())
      ensures images == if calls.log.outstanding == 0 && old(calls.log.lh) != [] then old(images) + [fs.Img()]
              else old(images)
    {
      if calls.log.outstanding > 1 {
        EndCall(op);
      } else {
        EndLast();
      }
    }

    method EndCall(ghost op: nat)
      requires calls.Ready() && Synced() && op < calls.log.outstanding && calls.log.outstanding > 1
      modifies calls, calls.log, calls.log.bc
      ensures calls.Ready() && Synced() && calls.log.outstanding == old(calls.log.outstanding) - 1 &&
              calls.log.snapshots == old(calls.log.snapshots)
      ensures op < |old(calls.Ops())| && calls.Ops() == old(calls.Ops())[..op] + old(calls.Ops())[op + 1..]
    {
      assert Key(0);
      calls.End(op);
    }

    method EndLast()
      requires Valid() && calls.log.outstanding == 1
      modifies this, calls, calls.log, calls.log.bc
      ensures Valid() && calls.log.outstanding == 0 && Loads(fs.places, fs.meta, calls.log.bc.disk, fs.Img())
      ensures images == if old(calls.log.lh) != [] then old(images) + [fs.Img()] else old(images)
      ensures |old(calls.Ops())| == 1 && calls.Ops() == []
    {
      ghost var lh, s, e, i := calls.log.lh, calls.log.snapshots, calls.log.epoch, images;
      calls.EndAlone();
      SyncedMeans();
      images := if lh == [] then i else i + [fs.Img()];
      CommitGood(calls.log.l, fs.places, fs.meta, lh, s, calls.log.snapshots, e, calls.log.epoch, calls.log.bc.disk,
                 calls.log.logged,
                 fs.Img(), fs.owner, i);
    }

    /** A file system call that writes to a file, with no other outstanding: begin_op, writei, end_op.  The disk then
        holds the file system with the bytes written. */
    method Write(i: nat, src: seq<F.Byte>, off: nat, bad: set<nat>) returns (r: int)
      requires Valid() && calls.log.outstanding == 0 && F.RoundBound(disk) <= calls.g.bound && 6 <= calls.g.own
      requires i < |fs.mem| && fs.mem[i].typ != 0 && off < U32 && |src| <= F.MAXWRITE
      modifies this, fs, calls, calls.log, calls.log.bc
      ensures Valid() && calls.log.outstanding == 0 && Loads(fs.places, fs.meta, calls.log.bc.disk, fs.Img())
      ensures Wrote(old(fs.Img()), fs.Img(), i, src, off, r)
    {
      calls.BeginFirst();
      r := WriteI(0, {}, i, src, off, bad);
      EndLast();
    }

    /** With no operation outstanding, a crash loses nothing. */
    lemma WrittenIsDurable(states: seq<Disk>)
      requires Valid() && calls.log.outstanding == 0 && CrashedRecoveries(calls.log.l, states) &&
               states[0] == calls.log.bc.disk
      ensures Bootable(calls.log.l, states[|states| - 1])
      ensures Good(fs.places, fs.meta, Recovered(calls.log.l, states[|states| - 1]), fs.Img())
    {
      assert Key(0);
      assert SameHome(calls.log.l, calls.log.bc.disk, calls.log.logged);
      calls.log.EndedIsDurable(states);
      LoadsAlike(calls.log.l, fs.places, fs.meta, calls.log.logged, Recovered(calls.log.l, states[|states| - 1]),
                 fs.Img());
      assert WellFormed(fs.meta, fs.Img()) by { assert F.Ok(fs.meta, fs.bits, fs.blocks, fs.dinodes, fs.owner); }
    }

    /** A crash at any point, and any crashes during recovery: recovery brings back a well-formed file system, the
        one that was committed last by then. */
    lemma CrashConsistent(i: nat, states: seq<Disk>)
      requires Valid() && i < |calls.log.bc.trace| && CrashedRecoveries(calls.log.l, states) &&
               states[0] == calls.log.bc.trace[i]
      ensures i < |calls.log.epoch| && Bootable(calls.log.l, states[|states| - 1])
      ensures var e, k := states[|states| - 1], calls.log.epoch[i];
              k < |images| && Good(fs.places, fs.meta, Recovered(calls.log.l, e), images[k])
    {
      assert Key(0);
      var e, k := states[|states| - 1], calls.log.epoch[i];
      calls.log.CrashAnywhere(i, states);
      LoadsAlike(calls.log.l, fs.places, fs.meta, calls.log.snapshots[k], Recovered(calls.log.l, e), images[k]);
    }
  }
}
