/**
 The redo log on disk, and what a crash followed by recovery makes of it.

 A disk is a sequence of blocks and a block a sequence of 32-bit words.  The
 only atomic step is the write of one block, so a crash leaves the disk after
 some prefix of the writes a routine performs.  This module gives the writes
 of commit() and of recover_from_log() as sequences, and shows where every
 prefix of them recovers to.
 */
module CrashRecovery {
  import opened Common

  const WORDS: nat := 256          // words in a block
  const MAXOPBLOCKS: nat := 10
  const LOGSIZE: nat := 30              // MAXOPBLOCKS * 3

  type Block = seq<int>
  type Disk = seq<Block>

  datatype Write = Write(addr: nat, data: Block)

  /** Where the log lives: header at `start`, log blocks at start+1 .. start+size-1. */
  datatype Layout = Layout(start: nat, size: nat)
  {
    predicate InLog(b: nat) { start <= b < start + size }

    /** The log region is on the disk, and there is a header. */
    predicate Fits(d: Disk) {
      && start + size <= |d|
      && 1 <= size
      && (forall b | 0 <= b < |d| :: |d[b]| == WORDS)
    }
  }

  /** Block numbers the log may hold: home blocks of this disk, each once, no more than fit. */
  predicate LoggedBlocks(l: Layout, n: nat, lh: seq<nat>) {
    && |lh| <= LOGSIZE && |lh| <= l.size - 1
    && Distinct(lh)
    && forall i | 0 <= i < |lh| :: lh[i] < n && !l.InLog(lh[i])
  }

  // ----- writes ---------------------------------------------------------

  /** The disk after the writes `ws`, oldest first. */
  function Apply(d: Disk, ws: seq<Write>): (r: Disk)
    ensures |r| == |d|
  {
    if ws == [] then d
    else
      var r := Apply(d, ws[..|ws|-1]);
      var w := ws[|ws|-1];
      if w.addr < |r| then r[w.addr := w.data] else r
  }

  predicate Writes(ws: seq<Write>, b: nat) { exists i :: 0 <= i < |ws| && ws[i].addr == b }

  lemma {:induction false} ApplyConcat(d: Disk, ws: seq<Write>, vs: seq<Write>)
    ensures Apply(d, ws + vs) == Apply(Apply(d, ws), vs)
  {
    if vs == [] {
      assert ws + vs == ws;
    } else {
      var us := vs[..|vs|-1];
      assert (ws + vs)[..|ws + vs| - 1] == ws + us;
      ApplyConcat(d, ws, us);
    }
  }

  /** A block that no write touches keeps its contents. */
  lemma {:induction false} ApplyUntouched(d: Disk, ws: seq<Write>, b: nat)
    requires b < |d| && !Writes(ws, b)
    ensures Apply(d, ws)[b] == d[b]
  {
    if ws != [] {
      var us := ws[..|ws|-1];
      assert forall i | 0 <= i < |us| :: us[i] == ws[i];
      ApplyUntouched(d, us, b);
      assert ws[|ws|-1].addr != b;
    }
  }

  /** When no block is written twice, a written block holds what was written. */
  lemma {:induction false} ApplyWritten(d: Disk, ws: seq<Write>, i: nat)
    requires i < |ws| && ws[i].addr < |d|
    requires forall j | i < j < |ws| :: ws[j].addr != ws[i].addr
    ensures Apply(d, ws)[ws[i].addr] == ws[i].data
  {
    if i < |ws| - 1 {
      var us := ws[..|ws|-1];
      assert us[i] == ws[i];
      ApplyWritten(d, us, i);
    }
  }

  lemma PrefixKeepsUntouched(d: Disk, ws: seq<Write>, k: nat, b: nat)
    requires k <= |ws| && b < |d| && !Writes(ws, b)
    ensures Apply(d, ws[..k])[b] == d[b]
  {
    assert forall i | 0 <= i < k :: ws[..k][i] == ws[i];
    ApplyUntouched(d, ws[..k], b);
  }

  // ----- the header -----------------------------------------------------

  /** write_head(): n and the first n block numbers go in, the rest of the block stays. */
  function PutHeader(b: Block, lh: seq<nat>): (r: Block)
    requires |b| == WORDS && |lh| <= LOGSIZE
    ensures HeaderOk(r) && GetHeader(r) == lh
  {
    var r := [|lh| as int] + lh + b[1 + |lh|..];
    assert forall i | 0 <= i < |lh| :: r[i + 1] == lh[i];
    assert forall i | 1 <= i <= |lh| :: r[i] == lh[i - 1];
    r
  }

  /** A header block read_head() can take: a count within bounds, non-negative block numbers. */
  predicate HeaderOk(b: Block) {
    && |b| == WORDS
    && 0 <= b[0] <= LOGSIZE
    && forall i | 1 <= i <= b[0] :: 0 <= b[i]
  }

  /** read_head(). */
  function GetHeader(b: Block): (lh: seq<nat>)
    requires HeaderOk(b)
  {
    seq(b[0], i requires 0 <= i < b[0] => b[i + 1] as nat)
  }

  /** A disk the kernel can boot from: the header names distinct home blocks. */
  predicate Bootable(l: Layout, d: Disk) {
    && l.Fits(d)
    && HeaderOk(d[l.start])
    && LoggedBlocks(l, |d|, GetHeader(d[l.start]))
  }

  // ----- recovery -------------------------------------------------------

  /** install_trans(): log block i goes to home block lh[i]. */
  function InstallWrites(l: Layout, d: Disk, lh: seq<nat>): (ws: seq<Write>)
    requires l.Fits(d) && |lh| <= LOGSIZE && |lh| < l.size
    ensures |ws| == |lh|
    ensures forall i | 0 <= i < |lh| :: ws[i] == Write(lh[i], d[l.start + 1 + i])
  {
    seq(|lh|, i requires 0 <= i < |lh| => Write(lh[i], d[l.start + 1 + i]))
  }

  function ClearWrite(l: Layout, d: Disk): Write
    requires l.Fits(d)
  {
    Write(l.start, PutHeader(d[l.start], []))
  }

  /** Every block write of recover_from_log(), in order. */
  function RecoveryWrites(l: Layout, d: Disk): (ws: seq<Write>)
    requires Bootable(l, d)
    ensures |ws| == |GetHeader(d[l.start])| + 1
  {
    InstallWrites(l, d, GetHeader(d[l.start])) + [ClearWrite(l, d)]
  }

  /** The disk when recovery runs to its end. */
  function Recovered(l: Layout, d: Disk): (r: Disk)
    requires Bootable(l, d)
    ensures |r| == |d|
  {
    Apply(d, RecoveryWrites(l, d))
  }

  /** The two disks agree on every block outside the log. */
  predicate SameHome(l: Layout, d: Disk, e: Disk) {
    && |d| == |e|
    && forall b | 0 <= b < |d| && !l.InLog(b) :: d[b] == e[b]
  }

  /** d with the blocks the transaction lh names taken from v. */
  predicate Overlaid(l: Layout, d: Disk, v: Disk, lh: seq<nat>, r: Disk) {
    && |r| == |d| == |v|
    && forall b | 0 <= b < |d| && !l.InLog(b) :: r[b] == if b in lh then v[b] else d[b]
  }

  lemma InstallTouches(l: Layout, d: Disk, lh: seq<nat>, b: nat)
    requires l.Fits(d) && |lh| <= LOGSIZE && |lh| < l.size
    ensures Writes(InstallWrites(l, d, lh), b) <==> b in lh
  {
    var ws := InstallWrites(l, d, lh);
    if b in lh {
      var i :| 0 <= i < |lh| && lh[i] == b;
      assert ws[i].addr == b;
    }
  }

  /** A prefix of the installs leaves the log region alone and every block the size of a block. */
  lemma InstallPrefix(l: Layout, d: Disk, lh: seq<nat>, k: nat)
    requires l.Fits(d) && LoggedBlocks(l, |d|, lh) && k <= |lh|
    ensures var e := Apply(d, InstallWrites(l, d, lh)[..k]);
            && l.Fits(e)
            && (forall b | 0 <= b < |d| && (l.InLog(b) || b !in lh) :: e[b] == d[b])
            && InstallWrites(l, e, lh) == InstallWrites(l, d, lh)
  {
    var ws := InstallWrites(l, d, lh);
    var e := Apply(d, ws[..k]);
    forall b | 0 <= b < |d| && (l.InLog(b) || b !in lh) ensures e[b] == d[b] {
      assert b !in lh;
      InstallTouches(l, d, lh, b);
      PrefixKeepsUntouched(d, ws, k, b);
    }
    WholeBlocks(d, ws[..k]);
    assert forall b | l.start < b <= l.start + |lh| :: l.InLog(b);
  }

  lemma {:induction false} WholeBlocks(d: Disk, ws: seq<Write>)
    requires forall b | 0 <= b < |d| :: |d[b]| == WORDS
    requires forall i | 0 <= i < |ws| :: |ws[i].data| == WORDS
    ensures forall b | 0 <= b < |d| :: |Apply(d, ws)[b]| == WORDS
  {
    if ws != [] { WholeBlocks(d, ws[..|ws|-1]); }
  }

  /** What recovery does to a bootable disk: the named blocks get their log copies, the
      other home blocks stay, and the log ends empty. */
  lemma RecoveryEffect(l: Layout, d: Disk)
    requires Bootable(l, d)
    ensures var lh := GetHeader(d[l.start]);
            var r := Recovered(l, d);
            && Bootable(l, r) && GetHeader(r[l.start]) == []
            && (forall i | 0 <= i < |lh| :: r[lh[i]] == d[l.start + 1 + i])
            && (forall b | 0 <= b < |d| && !l.InLog(b) && b !in lh :: r[b] == d[b])
  {
    var lh := GetHeader(d[l.start]);
    var ws := InstallWrites(l, d, lh);
    var e := Apply(d, ws);
    assert ws[..|lh|] == ws;
    InstallPrefix(l, d, lh, |lh|);
    ApplyConcat(d, ws, [ClearWrite(l, d)]);
    var r := Recovered(l, d);
    var one := [ClearWrite(l, d)];
    assert Apply(e, one) == e[l.start := PutHeader(d[l.start], [])] by {
      assert one[..0] == [];
    }
    forall i | 0 <= i < |lh| ensures r[lh[i]] == d[l.start + 1 + i] {
      assert !l.InLog(lh[i]);
      ApplyWritten(d, ws, i);
    }
  }

  /** Recovery is interrupted while it installs, on disk e. */
  lemma RestartInstalling(l: Layout, d: Disk, lh: seq<nat>, k: nat, e: Disk)
    requires Bootable(l, d) && lh == GetHeader(d[l.start]) && k <= |lh| && e == Apply(d, InstallWrites(l, d, lh)[..k])
    ensures Bootable(l, e) && SameHome(l, Recovered(l, e), Recovered(l, d))
  {
    InstallPrefix(l, d, lh, k);
    assert e[l.start] == d[l.start];
    RecoveryEffect(l, d);
    RecoveryEffect(l, e);
    forall b | 0 <= b < |d| && !l.InLog(b) ensures Recovered(l, e)[b] == Recovered(l, d)[b] {
      if b in lh {
        var i :| 0 <= i < |lh| && lh[i] == b;
        assert l.InLog(l.start + 1 + i);
      }
    }
  }

  /** Recovery interrupted after any of its writes, started again, ends where it would have. */
  lemma RecoveryRestarts(l: Layout, d: Disk, k: nat)
    requires Bootable(l, d) && k <= |RecoveryWrites(l, d)|
    ensures var e := Apply(d, RecoveryWrites(l, d)[..k]);
            Bootable(l, e) && SameHome(l, Recovered(l, e), Recovered(l, d))
  {
    var lh, all := GetHeader(d[l.start]), RecoveryWrites(l, d);
    if k <= |lh| {
      assert all[..k] == InstallWrites(l, d, lh)[..k];
      RestartInstalling(l, d, lh, k, Apply(d, all[..k]));
    } else {
      assert all[..k] == all;
      RecoveryEffect(l, d);
      RecoveryEffect(l, Recovered(l, d));
    }
  }

  /** `states` is what a machine goes through that crashes during recovery again and again:
      each disk is the previous one after some prefix of the writes recovery makes on it. */
  ghost predicate CrashedRecoveries(l: Layout, states: seq<Disk>) {
    && states != []
    && Bootable(l, states[0])
    && forall i | 0 < i < |states| :: RecoveryStep(l, states[i-1], states[i])
  }

  ghost predicate RecoveryStep(l: Layout, d: Disk, e: Disk) {
    && Bootable(l, d)
    && exists k :: 0 <= k <= |RecoveryWrites(l, d)| && e == Apply(d, RecoveryWrites(l, d)[..k])
  }

  /** However often recovery is cut short, once it completes the home blocks are those that
      the first recovery would have produced, and the log is empty. */
  lemma {:induction false} RecoverySurvivesCrashes(l: Layout, states: seq<Disk>)
    requires CrashedRecoveries(l, states)
    ensures var d := states[0];
            var e := states[|states|-1];
            && Bootable(l, e)
            && SameHome(l, Recovered(l, e), Recovered(l, d))
            && HeaderOk(Recovered(l, e)[l.start])
            && GetHeader(Recovered(l, e)[l.start]) == []
  {
    var n := |states| - 1;
    if n > 0 {
      assert CrashedRecoveries(l, states[..n]);
      RecoverySurvivesCrashes(l, states[..n]);
      var d := states[n-1];
      assert RecoveryStep(l, d, states[n]);
      var k :| 0 <= k <= |RecoveryWrites(l, d)| && states[n] == Apply(d, RecoveryWrites(l, d)[..k]);
      RecoveryRestarts(l, d, k);
    }
    RecoveryEffect(l, states[n]);
  }

  // ----- commit ---------------------------------------------------------

  /** write_log(): the current contents v of block lh[i] go to log block i. */
  function LogWrites(l: Layout, v: Disk, lh: seq<nat>): (ws: seq<Write>)
    requires forall i | 0 <= i < |lh| :: lh[i] < |v|
    ensures |ws| == |lh|
    ensures forall i | 0 <= i < |lh| :: ws[i] == Write(l.start + 1 + i, v[lh[i]])
  {
    seq(|lh|, i requires 0 <= i < |lh| => Write(l.start + 1 + i, v[lh[i]]))
  }

  /** install_trans() during commit: the home blocks get v. */
  function HomeWrites(v: Disk, lh: seq<nat>): (ws: seq<Write>)
    requires forall i | 0 <= i < |lh| :: lh[i] < |v|
    ensures |ws| == |lh|
    ensures forall i | 0 <= i < |lh| :: ws[i] == Write(lh[i], v[lh[i]])
  {
    seq(|lh|, i requires 0 <= i < |lh| => Write(lh[i], v[lh[i]]))
  }

  /** Every block write of commit(), in order: log blocks, header, home blocks, empty header. */
  function CommitWrites(l: Layout, d: Disk, v: Disk, lh: seq<nat>): (ws: seq<Write>)
    requires l.Fits(d) && l.Fits(v) && |v| == |d| && LoggedBlocks(l, |d|, lh)
    ensures |ws| == 2 * |lh| + 2
  {
    var h := PutHeader(d[l.start], lh);
    (LogWrites(l, v, lh) + [Write(l.start, h)]) + (HomeWrites(v, lh) + [Write(l.start, PutHeader(h, []))])
  }

  /** Log block i of d holds v for block lh[i]. */
  predicate StagedAt(l: Layout, v: Disk, d: Disk, lh: seq<nat>, i: nat) {
    i < |lh| ==> lh[i] < |v| && l.start + 1 + i < |d| && d[l.start + 1 + i] == v[lh[i]]
  }

  /** The log blocks hold v for all the blocks of lh. */
  ghost predicate Staged(l: Layout, v: Disk, d: Disk, lh: seq<nat>) { forall i: nat :: StagedAt(l, v, d, lh, i) }

  /** Blocks of the log alone decide what is staged. */
  lemma StagedStays(l: Layout, v: Disk, d: Disk, e: Disk, lh: seq<nat>)
    requires Staged(l, v, d, lh) && |e| == |d| && |lh| <= l.size - 1
    requires forall b | 0 <= b < |d| && l.InLog(b) && b != l.start :: e[b] == d[b]
    ensures Staged(l, v, e, lh)
  {
    forall i: nat ensures StagedAt(l, v, e, lh, i) {
      assert StagedAt(l, v, d, lh, i) && (i < |lh| ==> l.InLog(l.start + 1 + i));
    }
  }

  /** The disk after a prefix of write_log(): still an empty log, home blocks untouched. */
  lemma LogPrefix(l: Layout, d: Disk, v: Disk, lh: seq<nat>, k: nat)
    requires l.Fits(d) && l.Fits(v) && |v| == |d| && LoggedBlocks(l, |d|, lh) && k <= |lh|
    ensures var e := Apply(d, LogWrites(l, v, lh)[..k]);
            l.Fits(e) && e[l.start] == d[l.start] && SameHome(l, e, d)
  {
    var ws := LogWrites(l, v, lh);
    var e := Apply(d, ws[..k]);
    WholeBlocks(d, ws[..k]);
    forall b | 0 <= b < |d| && (!l.InLog(b) || b == l.start) ensures e[b] == d[b] {
      assert !Writes(ws, b);
      PrefixKeepsUntouched(d, ws, k, b);
    }
  }

  lemma LogStaged(l: Layout, d: Disk, v: Disk, lh: seq<nat>)
    requires l.Fits(d) && |v| == |d| && LoggedBlocks(l, |d|, lh)
    ensures Staged(l, v, Apply(d, LogWrites(l, v, lh)), lh)
  {
    var ws := LogWrites(l, v, lh);
    var e := Apply(d, ws);
    forall i: nat ensures StagedAt(l, v, e, lh, i) {
      if i < |lh| { ApplyWritten(d, ws, i); }
    }
  }

  /** A disk whose log holds the whole transaction recovers to the new contents. */
  lemma CommittedRecovers(l: Layout, d: Disk, e: Disk, v: Disk, lh: seq<nat>)
    requires Bootable(l, e) && |d| == |e| == |v|
    requires GetHeader(e[l.start]) == lh && Staged(l, v, e, lh)
    requires forall b | 0 <= b < |d| && !l.InLog(b) && b !in lh :: e[b] == d[b]
    ensures Overlaid(l, d, v, lh, Recovered(l, e))
  {
    RecoveryEffect(l, e);
    forall b | 0 <= b < |d| && !l.InLog(b)
      ensures Recovered(l, e)[b] == if b in lh then v[b] else d[b]
    {
      if b in lh {
        var i: nat :| i < |lh| && lh[i] == b;
        assert StagedAt(l, v, e, lh, i);
      }
    }
  }

  /** The disk from the commit point on: log and header written, k home blocks installed. */
  function Installing(l: Layout, d: Disk, v: Disk, lh: seq<nat>, k: nat): (e: Disk)
    requires l.Fits(d) && l.Fits(v) && |v| == |d| && LoggedBlocks(l, |d|, lh) && k <= |lh|
    ensures |e| == |d|
  {
    Apply(Apply(d, LogWrites(l, v, lh))[l.start := PutHeader(d[l.start], lh)], HomeWrites(v, lh)[..k])
  }

  lemma InstallingFrom(l: Layout, d: Disk, a: Disk, v: Disk, lh: seq<nat>, k: nat)
    requires l.Fits(d) && l.Fits(v) && l.Fits(a) && |v| == |d| && LoggedBlocks(l, |d|, lh) && k <= |lh|
    requires SameHome(l, a, d) && Staged(l, v, a, lh)
    ensures var e := Apply(a[l.start := PutHeader(d[l.start], lh)], HomeWrites(v, lh)[..k]);
            && Bootable(l, e) && e[l.start] == PutHeader(d[l.start], lh)
            && Staged(l, v, e, lh)
            && (forall i | 0 <= i < k :: e[lh[i]] == v[lh[i]])
            && (forall b | 0 <= b < |d| && !l.InLog(b) && b !in lh :: e[b] == d[b])
  {
    var c := a[l.start := PutHeader(d[l.start], lh)];
    HomePrefix(l, c, v, lh, k);
    assert l.InLog(l.start);
    StagedStays(l, v, a, Apply(c, HomeWrites(v, lh)[..k]), lh);
  }

  lemma InstallingDisk(l: Layout, d: Disk, v: Disk, lh: seq<nat>, k: nat)
    requires l.Fits(d) && l.Fits(v) && |v| == |d| && LoggedBlocks(l, |d|, lh) && k <= |lh|
    ensures var e := Installing(l, d, v, lh, k);
            && Bootable(l, e) && e[l.start] == PutHeader(d[l.start], lh)
            && Staged(l, v, e, lh)
            && (forall i | 0 <= i < k :: e[lh[i]] == v[lh[i]])
            && (forall b | 0 <= b < |d| && !l.InLog(b) && b !in lh :: e[b] == d[b])
  {
    var ls := LogWrites(l, v, lh);
    assert ls[..|lh|] == ls;
    LogPrefix(l, d, v, lh, |lh|);
    LogStaged(l, d, v, lh);
    InstallingFrom(l, d, Apply(d, ls), v, lh, k);
  }

  /** A prefix of the home writes of commit. */
  lemma HomePrefix(l: Layout, c: Disk, v: Disk, lh: seq<nat>, k: nat)
    requires l.Fits(c) && l.Fits(v) && |v| == |c| && LoggedBlocks(l, |c|, lh) && k <= |lh|
    ensures var e := Apply(c, HomeWrites(v, lh)[..k]);
            && l.Fits(e)
            && (forall b | 0 <= b < |c| && (l.InLog(b) || b !in lh) :: e[b] == c[b])
            && (forall i | 0 <= i < k :: e[lh[i]] == v[lh[i]])
  {
    var ws := HomeWrites(v, lh);
    var e := Apply(c, ws[..k]);
    WholeBlocks(c, ws[..k]);
    forall b | 0 <= b < |c| && (l.InLog(b) || b !in lh) ensures e[b] == c[b] {
      assert !Writes(ws, b);
      PrefixKeepsUntouched(c, ws, k, b);
    }
    forall i | 0 <= i < k ensures e[lh[i]] == v[lh[i]] {
      ApplyWritten(c, ws[..k], i);
    }
  }

  lemma ApplyOne(d: Disk, w: Write)
    requires w.addr < |d|
    ensures Apply(d, [w]) == d[w.addr := w.data]
  {
    assert [w][..0] == [];
  }

  /** The disk after k of commit's writes, stage by stage. */
  function Committing(l: Layout, d: Disk, v: Disk, lh: seq<nat>, k: nat): (e: Disk)
    requires l.Fits(d) && l.Fits(v) && |v| == |d| && LoggedBlocks(l, |d|, lh) && k <= 2 * |lh| + 2
  {
    if k <= |lh| then Apply(d, LogWrites(l, v, lh)[..k])
    else if k <= 2 * |lh| + 1 then Installing(l, d, v, lh, k - |lh| - 1)
    else Installing(l, d, v, lh, |lh|)[l.start := PutHeader(PutHeader(d[l.start], lh), [])]
  }

  /** A prefix of ws followed by vs stops inside ws, or inside vs with all of ws done. */
  lemma ApplyPrefix(d: Disk, ws: seq<Write>, vs: seq<Write>, k: nat)
    requires k <= |ws| + |vs|
    ensures Apply(d, (ws + vs)[..k]) ==
            if k <= |ws| then Apply(d, ws[..k]) else Apply(Apply(d, ws), vs[..k - |ws|])
  {
    if k <= |ws| {
      assert (ws + vs)[..k] == ws[..k];
    } else {
      assert (ws + vs)[..k] == ws + vs[..k - |ws|];
      ApplyConcat(d, ws, vs[..k - |ws|]);
    }
  }

  /** Writes ws followed by the single write w. */
  lemma StageThenOne(d: Disk, ws: seq<Write>, w: Write, k: nat)
    requires w.addr < |d| && k <= |ws| + 1
    ensures Apply(d, (ws + [w])[..k]) ==
            if k <= |ws| then Apply(d, ws[..k]) else Apply(d, ws)[w.addr := w.data]
  {
    ApplyPrefix(d, ws, [w], k);
    if k == |ws| + 1 {
      assert [w][..1] == [w];
      ApplyOne(Apply(d, ws), w);
    }
  }

  /** Writes a, which are ls and then w, followed by writes b: where the first k of them end. */
  lemma AfterOne(d: Disk, ls: seq<Write>, w: Write, a: seq<Write>, b: seq<Write>, k: nat)
    requires w.addr < |d| && k <= |a| + |b| && a == ls + [w]
    ensures Apply(d, (a + b)[..k]) ==
            if k <= |ls| then Apply(d, ls[..k]) else Apply(Apply(d, ls)[w.addr := w.data], b[..k - |a|])
  {
    ApplyPrefix(d, a, b, k);
    if k <= |a| { StageThenOne(d, ls, w, k); }
    StageThenOne(d, ls, w, |a|);
    assert a[..|a|] == a && b[..0] == [];
  }

  lemma CommitStages(l: Layout, d: Disk, v: Disk, lh: seq<nat>, k: nat)
    requires l.Fits(d) && l.Fits(v) && |v| == |d| && LoggedBlocks(l, |d|, lh) && k <= 2 * |lh| + 2
    ensures Apply(d, CommitWrites(l, d, v, lh)[..k]) == Committing(l, d, v, lh, k)
  {
    var h := PutHeader(d[l.start], lh);
    var hs := HomeWrites(v, lh);
    var ls, w, x := LogWrites(l, v, lh), Write(l.start, h), Write(l.start, PutHeader(h, []));
    AfterOne(d, ls, w, ls + [w], hs + [x], k);
    if k > |lh| { StageThenOne(Apply(d, ls)[l.start := h], hs, x, k - |lh| - 1); }
    assert hs[..|lh|] == hs;
  }

  /**
   Crash atomicity of commit().  Stop the machine after any number k of commit's block
   writes: the disk can be booted, and recovery gives every home block its old contents
   if the header had not been written (k <= |lh|), and every logged block its new
   contents, the others untouched, from then on.
   */
  lemma CommitIsAtomic(l: Layout, d: Disk, v: Disk, lh: seq<nat>, k: nat)
    requires Bootable(l, d) && GetHeader(d[l.start]) == []
    requires l.Fits(v) && |v| == |d| && LoggedBlocks(l, |d|, lh)
    requires k <= 2 * |lh| + 2
    ensures var e := Apply(d, CommitWrites(l, d, v, lh)[..k]);
            && Bootable(l, e)
            && (k <= |lh| ==> SameHome(l, e, d) && SameHome(l, Recovered(l, e), d))
            && (k > |lh| ==> Overlaid(l, d, v, lh, Recovered(l, e)))
            && (k == 2 * |lh| + 2 ==> GetHeader(e[l.start]) == [] && Overlaid(l, d, v, lh, e))
  {
    CommitStages(l, d, v, lh, k);
    if k <= |lh| {
      CrashBeforeHeader(l, d, v, lh, k);
    } else if k <= 2 * |lh| + 1 {
      CrashAfterHeader(l, d, v, lh, k - |lh| - 1);
    } else {
      CommitEnds(l, d, v, lh);
    }
  }

  lemma CrashBeforeHeader(l: Layout, d: Disk, v: Disk, lh: seq<nat>, k: nat)
    requires Bootable(l, d) && GetHeader(d[l.start]) == []
    requires l.Fits(v) && |v| == |d| && LoggedBlocks(l, |d|, lh) && k <= |lh|
    ensures var e := Apply(d, LogWrites(l, v, lh)[..k]);
            Bootable(l, e) && SameHome(l, e, d) && SameHome(l, Recovered(l, e), d)
  {
    LogPrefix(l, d, v, lh, k);
    RecoveryEffect(l, Apply(d, LogWrites(l, v, lh)[..k]));
  }

  lemma CrashAfterHeader(l: Layout, d: Disk, v: Disk, lh: seq<nat>, k: nat)
    requires l.Fits(d) && l.Fits(v) && |v| == |d| && LoggedBlocks(l, |d|, lh) && k <= |lh|
    ensures var e := Installing(l, d, v, lh, k);
            Bootable(l, e) && Overlaid(l, d, v, lh, Recovered(l, e))
  {
    InstallingDisk(l, d, v, lh, k);
    CommittedRecovers(l, d, Installing(l, d, v, lh, k), v, lh);
  }

  lemma CommitEnds(l: Layout, d: Disk, v: Disk, lh: seq<nat>)
    requires l.Fits(d) && l.Fits(v) && |v| == |d| && LoggedBlocks(l, |d|, lh)
    ensures var e := Committing(l, d, v, lh, 2 * |lh| + 2);
            && Bootable(l, e) && GetHeader(e[l.start]) == []
            && Overlaid(l, d, v, lh, e) && Overlaid(l, d, v, lh, Recovered(l, e))
  {
    var e := Committing(l, d, v, lh, 2 * |lh| + 2);
    InstallingDisk(l, d, v, lh, |lh|);
    RecoveryEffect(l, e);
    forall b | 0 <= b < |d| && !l.InLog(b)
      ensures e[b] == if b in lh then v[b] else d[b]
    {
      if b in lh { var i :| 0 <= i < |lh| && lh[i] == b; }
    }
  }

  /** The whole story: a crash anywhere in commit, then any number of crashes in recovery,
      then a recovery that completes.  All of the transaction or none of it. */
  lemma CommitThenCrashes(l: Layout, d: Disk, v: Disk, lh: seq<nat>, k: nat, states: seq<Disk>)
    requires Bootable(l, d) && GetHeader(d[l.start]) == []
    requires l.Fits(v) && |v| == |d| && LoggedBlocks(l, |d|, lh)
    requires k <= 2 * |lh| + 2
    requires CrashedRecoveries(l, states)
    requires states[0] == Apply(d, CommitWrites(l, d, v, lh)[..k])
    ensures var e := states[|states|-1];
            && Bootable(l, e)
            && (if k <= |lh| then SameHome(l, Recovered(l, e), d)
                else Overlaid(l, d, v, lh, Recovered(l, e)))
            && HeaderOk(Recovered(l, e)[l.start])
            && GetHeader(Recovered(l, e)[l.start]) == []
  {
    CommitIsAtomic(l, d, v, lh, k);
    RecoverySurvivesCrashes(l, states);
  }
}
