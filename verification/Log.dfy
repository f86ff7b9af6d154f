/**
 The logging layer: begin_op/log_write/end_op on top of the buffer cache, with
 commit and recovery performed block write by block write.

 Log.Valid() holds before and after every call, so it holds throughout any
 sequence of calls by any number of processes.  It says in particular that
 every state the disk has ever been in recovers to one of the committed
 snapshots, never to an older one than a previous state did.
 */
module Logging {
  import opened Common
  import opened CrashRecovery
  import opened BufferCache

  /** The states the disk goes through while the writes ws are made. */
  function Steps(d: Disk, ws: seq<Write>): (ds: seq<Disk>)
    ensures |ds| == |ws| && forall i | 0 <= i < |ws| :: ds[i] == Apply(d, ws[..i + 1])
  {
    seq(|ws|, i requires 0 <= i < |ws| => Apply(d, ws[..i + 1]))
  }

  lemma StepsConcat(d: Disk, ws: seq<Write>, vs: seq<Write>)
    ensures Steps(d, ws + vs) == Steps(d, ws) + Steps(Apply(d, ws), vs)
  {
    var all, a, b := Steps(d, ws + vs), Steps(d, ws), Steps(Apply(d, ws), vs);
    forall i | 0 <= i < |all| ensures all[i] == (a + b)[i] { StepsAt(d, ws, vs, i); }
  }

  lemma StepsAt(d: Disk, ws: seq<Write>, vs: seq<Write>, i: nat)
    requires i < |ws| + |vs|
    ensures Steps(d, ws + vs)[i] == if i < |ws| then Steps(d, ws)[i] else Steps(Apply(d, ws), vs)[i - |ws|]
  {
    ApplyPrefix(d, ws, vs, i + 1);
  }

  /** One more write of a sequence of writes. */
  lemma StepsNext(d: Disk, ws: seq<Write>, k: nat)
    requires k < |ws| && ws[k].addr < |d|
    ensures Apply(d, ws[..k + 1]) == Apply(d, ws[..k])[ws[k].addr := ws[k].data]
    ensures Steps(d, ws[..k + 1]) == Steps(d, ws[..k]) + [Apply(d, ws[..k + 1])]
  {
    assert ws[..k + 1] == ws[..k] + [ws[k]];
    StepsSnoc(d, ws[..k], ws[k]);
  }

  lemma StepsSnoc(d: Disk, us: seq<Write>, w: Write)
    requires w.addr < |d|
    ensures Apply(d, us + [w]) == Apply(d, us)[w.addr := w.data]
    ensures Steps(d, us + [w]) == Steps(d, us) + [Apply(d, us + [w])]
  {
    ApplyConcat(d, us, [w]);
    ApplyOne(Apply(d, us), w);
    StepsConcat(d, us, [w]);
    StepsOne(Apply(d, us), w);
  }

  lemma StepsOne(d: Disk, w: Write)
    requires w.addr < |d|
    ensures Steps(d, [w]) == [d[w.addr := w.data]]
  {
    ApplyOne(d, w);
    assert [w][..1] == [w];
  }

  /** The disk has gone from d0 through the first k of the writes ws, and nothing else. */
  predicate Progress(d: Disk, t: seq<Disk>, d0: Disk, t0: seq<Disk>, ws: seq<Write>, k: nat) {
    k <= |ws| && d == Apply(d0, ws[..k]) && t == t0 + Steps(d0, ws[..k])
  }

  lemma Advance(d: Disk, t: seq<Disk>, d0: Disk, t0: seq<Disk>, ws: seq<Write>, k: nat)
    requires Progress(d, t, d0, t0, ws, k) && k < |ws| && ws[k].addr < |d|
    ensures var e := d[ws[k].addr := ws[k].data];
            Progress(e, t + [e], d0, t0, ws, k + 1)
  {
    StepsNext(d0, ws, k);
  }

  /** pins[k] is the buffer the log holds for block lh[k]; it holds no others. */
  ghost predicate PinsMatch(bufs: seq<Buf>, pinned: set<nat>, lh: seq<nat>, pins: seq<nat>) {
    && |pins| == |lh|
    && (forall k | 0 <= k < |lh| :: pins[k] in pinned && ReadIn(bufs, pins[k], lh[k]))
    && (forall i | i in pinned :: i in pins)
  }

  /** Outside lh the disk has what was last logged; the unlocked pinned buffers have it for lh. */
  predicate LoggedMatch(l: Layout, disk: Disk, bufs: seq<Buf>, lh: seq<nat>, pins: seq<nat>, logged: Disk) {
    && |logged| == |disk|
    && (forall x | 0 <= x < |logged| && !l.InLog(x) && x !in lh :: logged[x] == disk[x])
    && |pins| == |lh|
    && (forall k | 0 <= k < |lh| :: pins[k] < |bufs| && lh[k] < |logged|)
    && (forall k | 0 <= k < |lh| && !bufs[pins[k]].locked :: bufs[pins[k]].data == logged[lh[k]])
  }

  class Log {
    const bc: Cache
    const l: Layout
    var outstanding: nat
    var committing: bool
    var lh: seq<nat>              // n and block[] of the in-memory header
    ghost var pins: seq<nat>        // the buffers holding the blocks of lh
    ghost var logged: Disk          // what was last logged for each home block
    ghost var snapshots: seq<Disk>  // the disk after recovery and after each commit
    ghost var epoch: seq<nat>       // which snapshot each state of the disk recovers to

    ghost predicate Base()
      reads this`lh, this`pins, bc
    {
      && bc.Valid()
      && l.Fits(bc.disk)
      && LoggedBlocks(l, |bc.disk|, lh)
      && PinsMatch(bc.bufs, bc.pinned, lh, pins)
    }

    /** The in-memory part: what is cached, pinned and logged. */
    ghost predicate Working()
      reads this`lh, this`pins, this`logged, bc
    {
      Base() && LoggedMatch(l, bc.disk, bc.bufs, lh, pins, logged)
    }

    /** The on-disk part, which only commit() changes: the log on disk is empty, the home blocks are
        the last snapshot, and every state the disk has been in recovers to its snapshot. */
    ghost predicate Durable()
      reads this`epoch, this`snapshots, bc`disk, bc`trace
    {
      && RecoverableTo(l, bc.trace, epoch, snapshots)
      && Bootable(l, bc.disk) && GetHeader(bc.disk[l.start]) == []
      && SameHome(l, bc.disk, snapshots[|snapshots| - 1])
      && epoch[|epoch| - 1] == |snapshots| - 1
    }

    /** Between calls.  While a transaction is open some operation is outstanding. */
    ghost predicate Valid()
      reads this, bc
    {
      Working() && Durable() && !committing && (lh != [] ==> outstanding > 0)
    }

    /** Between calls, with no buffer held. */
    ghost predicate Quiet()
      reads this, bc
    {
      |logged| == |bc.disk| && forall k: nat :: Key(k) ==> Valid() && NoneLocked(bc.bufs)
    }

    /** initlog() on the disk d a crash has left: a fresh cache, then recover_from_log(). */
    constructor (d: Disk, l: Layout)
      requires Bootable(l, d)
      ensures Valid() && Quiet() && this.l == l && fresh(bc) && outstanding == 0 && lh == []
      ensures bc.disk == Recovered(l, d) && bc.trace == [d] + Steps(d, RecoveryWrites(l, d))
      ensures snapshots == [bc.disk] && logged == bc.disk && epoch == Zeros(|bc.trace|)
    {
      this.l, outstanding, committing, lh, pins := l, 0, false, [], [];
      bc := new Cache(d);
      new;
      Initialize();
    }

    method Initialize()
      requires bc.Valid() && AllFree(bc.bufs) && NoneLocked(bc.bufs) && bc.pinned == {}
      requires Bootable(l, bc.disk) && bc.trace == [bc.disk] && outstanding == 0 && !committing
      modifies this, bc
      ensures Working() && Durable() && !committing && outstanding == 0 && lh == [] && NoneLocked(bc.bufs)
      ensures bc.disk == Recovered(l, old(bc.disk))
      ensures bc.trace == [old(bc.disk)] + Steps(old(bc.disk), RecoveryWrites(l, old(bc.disk)))
      ensures snapshots == [bc.disk] && logged == bc.disk && epoch == Zeros(|bc.trace|)
    {
      ghost var d := bc.disk;
      RecoverFromLog();
      logged, snapshots, epoch := bc.disk, [bc.disk], Zeros(|bc.trace|);
      RecoveryDurable(l, d, bc.trace);
    }

    method RecoverFromLog()
      requires bc.Valid() && AllFree(bc.bufs) && NoneLocked(bc.bufs) && bc.pinned == {}
      requires Bootable(l, bc.disk)
      modifies this`lh, this`pins, bc
      ensures Base() && lh == [] && NoneLocked(bc.bufs)
      ensures Ran(old(bc.disk), old(bc.trace), RecoveryWrites(l, old(bc.disk)), bc.disk, bc.trace)
    {
      ghost var d, t := bc.disk, bc.trace;
      ReadHead();
      assert bc.bufs[0].refcnt == 0;
      InstallTrans(true, InstallWrites(l, d, lh));
      LogInstalled(l, d, t, bc.disk, bc.trace, lh);
      lh, pins := [], [];
      WriteHead();
    }

    /** read_head(). */
    method ReadHead()
      requires bc.Valid() && AllFree(bc.bufs) && NoneLocked(bc.bufs) && bc.pinned == {}
      requires Bootable(l, bc.disk)
      modifies this`lh, this`pins, bc
      ensures bc.Valid() && AllFree(bc.bufs) && NoneLocked(bc.bufs) && bc.pinned == {} && |lh| == |pins|
      ensures bc.disk == old(bc.disk) && bc.trace == old(bc.trace) && lh == GetHeader(bc.disk[l.start])
    {
      assert bc.bufs[0].refcnt == 0;
      var b := bc.Bread(ROOTDEV, l.start);
      lh := GetHeader(bc.bufs[b].data);
      pins := seq(|lh|, _ => 0);
      bc.Brelse(b);
    }

    /** write_log(): ws are the cached blocks of lh, each going to its log block. */
    method WriteLog(ghost ws: seq<Write>)
      requires Base() && NoneLocked(bc.bufs) && SomeFree(bc.bufs) && |ws| == |lh|
      requires forall i | 0 <= i < |lh| :: ws[i] == Write(l.start + 1 + i, Contents(bc.disk, bc.bufs, lh[i]))
      modifies bc
      ensures Base() && NoneLocked(bc.bufs) && SomeFree(bc.bufs) && bc.pinned == old(bc.pinned)
      ensures |bc.disk| == |old(bc.disk)| && Progress(bc.disk, bc.trace, old(bc.disk), old(bc.trace), ws, |lh|)
    {
      var tail := 0;
      while tail < |lh|
        invariant 0 <= tail <= |lh| && |bc.disk| == |old(bc.disk)|
        invariant Base() && NoneLocked(bc.bufs) && SomeFree(bc.bufs) && bc.pinned == old(bc.pinned)
        invariant Progress(bc.disk, bc.trace, old(bc.disk), old(bc.trace), ws, tail)
        invariant forall i | tail <= i < |lh| :: ws[i] == Write(l.start + 1 + i, Contents(bc.disk, bc.bufs, lh[i]))
      {
        WriteLogBlock(tail, ws, old(bc.disk), old(bc.trace));
        tail := tail + 1;
      }
    }

    method WriteLogBlock(tail: nat, ghost ws: seq<Write>, ghost d0: Disk, ghost t0: seq<Disk>)
      requires Base() && tail < |lh| == |ws| && NoneLocked(bc.bufs) && SomeFree(bc.bufs)
      requires Progress(bc.disk, bc.trace, d0, t0, ws, tail)
      requires ws[tail] == Write(l.start + 1 + tail, Contents(bc.disk, bc.bufs, lh[tail]))
      modifies bc
      ensures Base() && NoneLocked(bc.bufs) && SomeFree(bc.bufs) && bc.pinned == old(bc.pinned)
      ensures |bc.disk| == |old(bc.disk)| && Progress(bc.disk, bc.trace, d0, t0, ws, tail + 1)
      ensures forall i | 0 <= i < |lh| ::
                Contents(bc.disk, bc.bufs, lh[i]) == old(Contents(bc.disk, bc.bufs, lh[i]))
    {
      assert l.InLog(l.start + 1 + tail);
      ghost var d, t := bc.disk, bc.trace;
      bc.CopyToLog(l.start + 1 + tail, lh[tail], pins[tail]);
      Advance(d, t, d0, t0, ws, tail);
    }

    /** What install_trans() still holds when it is about to install block `tail`. */
    ghost predicate Holding(recovering: bool, tail: nat)
      reads this, bc
      requires tail <= |lh| == |pins|
    {
      if recovering then AllFree(bc.bufs) && bc.pinned == {}
      else PinsMatch(bc.bufs, bc.pinned, lh[tail..], pins[tail..])
    }

    /** install_trans(): ws are the log blocks, each going to the home of its block. */
    method InstallTrans(recovering: bool, ghost ws: seq<Write>)
      requires bc.Valid() && l.Fits(bc.disk) && LoggedBlocks(l, |bc.disk|, lh) && |ws| == |lh| == |pins|
      requires NoneLocked(bc.bufs) && SomeFree(bc.bufs) && Holding(recovering, 0)
      requires forall i | 0 <= i < |lh| :: ws[i] == Write(lh[i], bc.disk[l.start + 1 + i])
      modifies bc
      ensures bc.Valid() && NoneLocked(bc.bufs) && SomeFree(bc.bufs) && Holding(recovering, |lh|)
      ensures |bc.disk| == |old(bc.disk)| && Progress(bc.disk, bc.trace, old(bc.disk), old(bc.trace), ws, |lh|)
    {
      var tail := 0;
      while tail < |lh|
        invariant 0 <= tail <= |lh| && |bc.disk| == |old(bc.disk)|
        invariant bc.Valid() && NoneLocked(bc.bufs) && SomeFree(bc.bufs) && Holding(recovering, tail)
        invariant Progress(bc.disk, bc.trace, old(bc.disk), old(bc.trace), ws, tail)
        invariant forall i | tail <= i < |lh| :: ws[i] == Write(lh[i], bc.disk[l.start + 1 + i])
      {
        InstallBlock(tail, recovering, ws, old(bc.disk), old(bc.trace));
        tail := tail + 1;
      }
    }

    method InstallBlock(tail: nat, recovering: bool, ghost ws: seq<Write>, ghost d0: Disk, ghost t0: seq<Disk>)
      requires bc.Valid() && l.Fits(bc.disk) && LoggedBlocks(l, |bc.disk|, lh) && tail < |ws| == |lh| == |pins|
      requires NoneLocked(bc.bufs) && SomeFree(bc.bufs) && Holding(recovering, tail)
      requires Progress(bc.disk, bc.trace, d0, t0, ws, tail)
      requires ws[tail] == Write(lh[tail], bc.disk[l.start + 1 + tail])
      modifies bc
      ensures bc.Valid() && NoneLocked(bc.bufs) && SomeFree(bc.bufs) && Holding(recovering, tail + 1)
      ensures |bc.disk| == |old(bc.disk)| && Progress(bc.disk, bc.trace, d0, t0, ws, tail + 1)
      ensures forall i | 0 <= i < |lh| ::
                Write(lh[i], bc.disk[l.start + 1 + i]) == Write(lh[i], old(bc.disk)[l.start + 1 + i])
    {
      ghost var d, t := bc.disk, bc.trace;
      MoveHome(tail, recovering);
      Advance(d, t, d0, t0, ws, tail);
    }

    /** Log block `tail` goes to its home. */
    method MoveHome(tail: nat, recovering: bool)
      requires bc.Valid() && l.Fits(bc.disk) && LoggedBlocks(l, |bc.disk|, lh) && tail < |lh| == |pins|
      requires NoneLocked(bc.bufs) && SomeFree(bc.bufs) && Holding(recovering, tail)
      modifies bc
      ensures bc.Valid() && NoneLocked(bc.bufs) && SomeFree(bc.bufs) && Holding(recovering, tail + 1)
      ensures bc.disk == old(bc.disk)[lh[tail] := old(bc.disk)[l.start + 1 + tail]] &&
              bc.trace == old(bc.trace) + [bc.disk]
    {
      ghost var was, pinned := bc.bufs, bc.pinned;
      assert !recovering ==> lh[tail..][0] == lh[tail] && pins[tail..][0] == pins[tail];
      NotLogged(l.start + 1 + tail, recovering, tail);
      bc.CopyHome(lh[tail], l.start + 1 + tail, !recovering, pins[tail]);
      if !recovering {
        Unpinned(was, bc.bufs, pinned, lh, pins, tail);
      }
    }

    /** Blocks of the log itself are never pinned, so readers see them as they are on disk. */
    lemma NotLogged(x: nat, recovering: bool, tail: nat)
      requires bc.Valid() && l.Fits(bc.disk) && LoggedBlocks(l, |bc.disk|, lh) && tail <= |lh| == |pins|
      requires NoneLocked(bc.bufs) && Holding(recovering, tail)
      requires l.InLog(x)
      ensures Contents(bc.disk, bc.bufs, x) == bc.disk[x]
    {
      UnpinnedIsOnDisk(bc.disk, bc.bufs, bc.pinned, x);
    }

    /** write_head(): the count and the block numbers go into the header block on disk. */
    method WriteHead()
      requires Base() && NoneLocked(bc.bufs) && SomeFree(bc.bufs)
      modifies bc
      ensures Base() && NoneLocked(bc.bufs) && SomeFree(bc.bufs) && bc.pinned == old(bc.pinned)
      ensures bc.disk == old(bc.disk)[l.start := PutHeader(old(bc.disk[l.start]), lh)]
      ensures bc.trace == old(bc.trace) + [bc.disk]
    {
      assert lh[0..] == lh && pins[0..] == pins;
      NotLogged(l.start, false, 0);
      ghost var was := bc.bufs;
      PutBlock(l.start, lh);
      PinsKept(was, bc.bufs, bc.pinned, lh, pins);
    }

    method PutBlock(b: nat, blocks: seq<nat>)
      requires bc.Valid() && b < |bc.disk| && |blocks| <= LOGSIZE && NoneLocked(bc.bufs) && SomeFree(bc.bufs)
      requires Contents(bc.disk, bc.bufs, b) == bc.disk[b]
      modifies bc
      ensures bc.Valid() && NoneLocked(bc.bufs) && SomeFree(bc.bufs) && Kept(old(bc.bufs), bc.bufs)
      ensures bc.pinned == old(bc.pinned)
      ensures bc.disk == old(bc.disk)[b := PutHeader(old(bc.disk[b]), blocks)]
      ensures bc.trace == old(bc.trace) + [bc.disk]
    {
      var h := bc.Bread(ROOTDEV, b);
      bc.SetData(h, PutHeader(bc.bufs[h].data, blocks));
      bc.Bwrite(h);
      bc.Brelse(h);
    }

    /** commit(), first half: the blocks go to the log, then the header names them. */
    method LogAndMark(ghost v: Disk)
      requires Base() && NoneLocked(bc.bufs) && SomeFree(bc.bufs)
      requires v == View(bc.disk, bc.bufs) && l.Fits(v)
      modifies bc
      ensures Base() && NoneLocked(bc.bufs) && SomeFree(bc.bufs) && |bc.disk| == |v|
      ensures var ws := LogWrites(l, v, lh) + [Write(l.start, PutHeader(old(bc.disk[l.start]), lh))];
              Ran(old(bc.disk), old(bc.trace), ws, bc.disk, bc.trace)
      ensures bc.disk[l.start] == PutHeader(old(bc.disk[l.start]), lh)
      ensures Staged(l, v, bc.disk, lh)
    {
      ghost var d0, t0 := bc.disk, bc.trace;
      LoggedView(l, v, bc.disk, bc.bufs, lh);
      WriteLog(LogWrites(l, v, lh));
      LogWritten(l, d0, t0, bc.disk, bc.trace, v, lh);
      WriteHead();
    }

    /** commit(), second half: the home blocks are written, then the header is cleared. */
    method InstallAndClear(ghost v: Disk)
      requires Base() && NoneLocked(bc.bufs) && SomeFree(bc.bufs) && |v| == |bc.disk| && l.Fits(v)
      requires Staged(l, v, bc.disk, lh)
      modifies this`lh, this`pins, bc
      ensures Base() && lh == [] && NoneLocked(bc.bufs) && |bc.disk| == |v|
      ensures var ws := HomeWrites(v, old(lh)) + [Write(l.start, PutHeader(old(bc.disk[l.start]), []))];
              Ran(old(bc.disk), old(bc.trace), ws, bc.disk, bc.trace)
    {
      ghost var d2, t2 := bc.disk, bc.trace;
      assert lh[0..] == lh && pins[0..] == pins;
      StagedWrites(l, v, bc.disk, lh);
      InstallTrans(false, HomeWrites(v, lh));
      HomeWritten(l, d2, t2, bc.disk, bc.trace, v, lh);
      lh, pins := [], [];
      WriteHead();
    }

    /** The block writes of commit(), and nothing but them, reach the disk. */
    method CommitBlocks(ghost v: Disk)
      requires Base() && NoneLocked(bc.bufs) && SomeFree(bc.bufs)
      requires v == View(bc.disk, bc.bufs) && l.Fits(v)
      modifies this`lh, this`pins, bc
      ensures Base() && lh == [] && NoneLocked(bc.bufs) && |bc.disk| == |v|
      ensures Ran(old(bc.disk), old(bc.trace), CommitWrites(l, old(bc.disk), v, old(lh)), bc.disk, bc.trace)
    {
      ghost var d0, t0, blocks := bc.disk, bc.trace, lh;
      LogAndMark(v);
      ghost var d2, t2 := bc.disk, bc.trace;
      InstallAndClear(v);
      ghost var h := PutHeader(d0[l.start], blocks);
      ghost var ls, hs := LogWrites(l, v, blocks), HomeWrites(v, blocks);
      ghost var w1, w2 := Write(l.start, h), Write(l.start, PutHeader(h, []));
      Then(d0, t0, ls + [w1], d2, t2, hs + [w2], bc.disk, bc.trace);
    }

    /** What readers see of an unlocked home block is what was last logged for it. */
    lemma SeesLogged(x: nat)
      requires Working() && x < |bc.disk| && !l.InLog(x) && bc.Unlocked(x)
      ensures Contents(bc.disk, bc.bufs, x) == logged[x]
    {
      if x in lh {
        var k :| 0 <= k < |lh| && lh[k] == x;
        assert ReadIn(bc.bufs, pins[k], x) && IsFor(bc.bufs, pins[k], ROOTDEV, x);
        forall i: nat | ReadIn(bc.bufs, i, x) ensures i == pins[k] {
          assert IsFor(bc.bufs, i, ROOTDEV, x);
        }
      } else {
        forall i: nat | ReadIn(bc.bufs, i, x) ensures i !in bc.pinned && !bc.bufs[i].locked {
          assert IsFor(bc.bufs, i, ROOTDEV, x);
          assert forall k | 0 <= k < |pins| && pins[k] == i :: ReadIn(bc.bufs, i, lh[k]);
        }
      }
    }

    /** commit(). */
    method Commit()
      requires Working() && Durable() && NoneLocked(bc.bufs) && |lh| < NBUF
      modifies this`lh, this`pins, this`snapshots, this`epoch, bc
      ensures Working() && Durable() && lh == [] && NoneLocked(bc.bufs)
      ensures SameHome(l, bc.disk, logged)
      ensures Committed(old(lh), old(snapshots), snapshots, old(epoch), epoch, bc.disk)
      ensures old(lh) == [] ==> bc.disk == old(bc.disk) && bc.trace == old(bc.trace)
    {
      if |lh| > 0 {
        ghost var v, d0, t0, blocks := View(bc.disk, bc.bufs), bc.disk, bc.trace, lh;
        ViewIsLogged(v);
        FreeBufferIff();
        CommitBlocks(v);
        CommitDurable(l, d0, t0, epoch, snapshots, v, blocks, logged, bc.disk, bc.trace);
        epoch := epoch + CommitEpoch(|snapshots|, |blocks|);
        snapshots := snapshots + [bc.disk];
      }
    }

    lemma ViewIsLogged(v: Disk)
      requires Working() && NoneLocked(bc.bufs) && v == View(bc.disk, bc.bufs)
      ensures l.Fits(v) && SameHome(l, v, logged)
    {
      forall x | 0 <= x < |v| && !l.InLog(x) ensures v[x] == logged[x] {
        SeesLogged(x);
      }
    }

    // ----- what file system calls use ------------------------------------

    /** One pass of begin_op()'s loop: admitted, or to sleep until somebody ends. */
    method BeginOp() returns (admitted: bool)
      modifies this`outstanding
      ensures admitted <==> !committing && |lh| + (old(outstanding) + 1) * MAXOPBLOCKS <= LOGSIZE
      ensures outstanding == old(outstanding) + (if admitted then 1 else 0) && (old(Valid()) ==> Valid()) &&
              (old(Quiet()) ==> Quiet())
    {
      if committing {
        admitted := false;
      } else if |lh| + (outstanding + 1) * MAXOPBLOCKS > LOGSIZE {
        admitted := false;
      } else {
        outstanding := outstanding + 1;
        admitted := true;
      }
    }

    // The next four leave alone what Durable() reads: no disk block is written before commit().

    /** bread() of a home block: the reader gets what was last logged. */
    method Bread(x: nat) returns (b: nat)
      requires Working() && x < |bc.disk| && !l.InLog(x) && bc.HasRoom(x) && bc.Unlocked(x)
      modifies bc`bufs
      ensures Working() && b < NBUF && bc.bufs[b].locked && ReadIn(bc.bufs, b, x)
      ensures bc.bufs[b].data == logged[x]
      ensures forall i | 0 <= i < NBUF && i != b :: bc.bufs[i] == old(bc.bufs[i])
    {
      SeesLogged(x);
      ghost var was := bc.bufs;
      b := bc.Bread(ROOTDEV, x);
      PinsKept(was, bc.bufs, bc.pinned, lh, pins);
    }

    /** The holder of a buffer changes its data. */
    method Store(b: nat, data: Block)
      requires Working() && b < NBUF && bc.bufs[b].locked && bc.bufs[b].valid && |data| == WORDS
      modifies bc`bufs
      ensures Working() && bc.bufs == old(bc.bufs)[b := old(bc.bufs[b]).(data := data)]
    {
      ghost var was := bc.bufs;
      bc.SetData(b, data);
      PinsKept(was, bc.bufs, bc.pinned, lh, pins);
    }

    method LogWrite(b: nat)
      requires Working() && b < NBUF && bc.bufs[b].locked && bc.bufs[b].valid && !l.InLog(bc.bufs[b].blockno)
      requires |lh| < LOGSIZE && |lh| < l.size - 1 && outstanding >= 1
      modifies this`lh, this`pins, this`logged, bc`bufs, bc`pinned
      ensures Working() && bc.bufs[b].blockno < |bc.disk|
      ensures lh == Adding(old(lh), bc.bufs[b].blockno)
      ensures logged == old(logged)[bc.bufs[b].blockno := bc.bufs[b].data]
      ensures forall i | 0 <= i < NBUF :: bc.bufs[i].(refcnt := 0) == old(bc.bufs[i]).(refcnt := 0)
    {
      var x := bc.bufs[b].blockno;
      var i := FindLogged(x);
      if i == |lh| {
        Append(b);
      } else {
        AbsorbedMatch(l, bc.disk, bc.bufs, bc.pinned, lh, pins, logged, b);
      }
      logged := logged[x := bc.bufs[b].data];
    }

    /** log_write()'s search for a block to absorb into. */
    method FindLogged(x: nat) returns (i: nat)
      ensures i <= |lh| && (i < |lh| ==> lh[i] == x) && (i == |lh| ==> x !in lh)
    {
      i := 0;
      while i < |lh| && lh[i] != x
        invariant 0 <= i <= |lh| && forall k | 0 <= k < i :: lh[k] != x
      {
        i := i + 1;
      }
    }

    method Append(b: nat)
      requires Working() && b < NBUF && bc.bufs[b].locked && bc.bufs[b].valid && !l.InLog(bc.bufs[b].blockno)
      requires |lh| < LOGSIZE && |lh| < l.size - 1 && bc.bufs[b].blockno !in lh
      modifies this`lh, this`pins, bc`bufs, bc`pinned
      ensures Base() && bc.bufs == old(bc.bufs)[b := old(bc.bufs[b]).(refcnt := old(bc.bufs[b].refcnt) + 1)]
      ensures lh == old(lh) + [bc.bufs[b].blockno] && bc.bufs[b].blockno < |logged|
      ensures LoggedMatch(l, bc.disk, bc.bufs, lh, pins, logged[bc.bufs[b].blockno := bc.bufs[b].data])
    {
      ghost var was, pinned := bc.bufs, bc.pinned;
      NotYetPinned(b);
      bc.Bpin(b);
      PinsKept(was, bc.bufs, pinned, lh, pins);
      lh, pins := lh + [bc.bufs[b].blockno], pins + [b];
    }

    lemma NotYetPinned(b: nat)
      requires Base() && b < NBUF && bc.bufs[b].blockno !in lh
      ensures b !in bc.pinned
    {
      assert forall k | 0 <= k < |pins| :: ReadIn(bc.bufs, pins[k], lh[k]);
    }

    /** brelse() by a holder that has logged whatever it changed. */
    method Brelse(b: nat)
      requires Working() && b < NBUF && bc.bufs[b].locked && bc.bufs[b].valid && !l.InLog(bc.bufs[b].blockno)
      requires bc.bufs[b].blockno < |logged| && bc.bufs[b].data == logged[bc.bufs[b].blockno]
      modifies bc`bufs, bc`next, bc`prev, bc`order, bc`moved, bc`clock
      ensures Working() && !bc.bufs[b].locked
      ensures forall i | 0 <= i < NBUF && i != b :: bc.bufs[i] == old(bc.bufs[i])
    {
      ghost var x, was := bc.bufs[b].blockno, bc.bufs;
      if x in lh {
        ghost var k :| 0 <= k < |lh| && lh[k] == x;
        assert IsFor(bc.bufs, pins[k], ROOTDEV, x) && IsFor(bc.bufs, b, ROOTDEV, x);
      }
      HeldMatch(bc.disk, bc.bufs, bc.pinned, lh, pins, b);
      bc.Brelse(b);
      PinsKept(was, bc.bufs, bc.pinned, lh, pins);
    }

    /** The holder of b, the only buffer that is locked, logs it and lets go of it. */
    method LogAndRelease(b: nat)
      requires Working() && outstanding >= 1 && b < NBUF && bc.bufs[b].locked && bc.bufs[b].valid &&
               !l.InLog(bc.bufs[b].blockno)
      requires |lh| < LOGSIZE && |lh| < l.size - 1 && forall i | 0 <= i < NBUF && i != b :: !bc.bufs[i].locked
      modifies this`lh, this`pins, this`logged, bc`bufs, bc`pinned, bc`next, bc`prev, bc`order, bc`moved, bc`clock
      ensures Working() && NoneLocked(bc.bufs) && old(bc.bufs[b].blockno) < |bc.disk|
      ensures lh == Adding(old(lh), old(bc.bufs[b].blockno)) &&
              logged == old(logged)[old(bc.bufs[b].blockno) := old(bc.bufs[b].data)]
    {
      LogWrite(b);
      assert forall i | 0 <= i < NBUF && i != b :: !bc.bufs[i].locked;
      Brelse(b);
    }

    /** What an operation does to change block x: bread, a store, log_write, brelse. */
    method ChangeBlock(x: nat, data: Block)
      requires Quiet() && outstanding >= 1 && x < |bc.disk| && !l.InLog(x) && |data| == WORDS
      requires |lh| < LOGSIZE && |lh| < l.size - 1
      modifies this`lh, this`pins, this`logged, bc`bufs, bc`pinned, bc`next, bc`prev, bc`order, bc`moved, bc`clock
      ensures Quiet() && lh == Adding(old(lh), x) && logged == old(logged)[x := data]
    {
      assert Key(0);
      FreeBufferIff();
      var b := Bread(x);
      Store(b, data);
      LogAndRelease(b);
    }

    /** The n blocks from home on are logged, one by one. */
    method LogMany(home: nat, n: nat, data: Block)
      requires Quiet() && outstanding >= 1 && lh == [] && |data| == WORDS
      requires l.start + l.size <= home && home + n <= |bc.disk| && n <= LOGSIZE && n <= l.size - 1
      modifies this`lh, this`pins, this`logged, bc`bufs, bc`pinned, bc`next, bc`prev, bc`order, bc`moved, bc`clock
      ensures Quiet() && lh == Range(home, n)
    {
      var i: nat := 0;
      while i < n
        invariant i <= n && Quiet() && lh == Range(home, i)
      {
        ChangeBlock(home + i, data);
        RangeNext(home, i);
        i := i + 1;
      }
    }

    /** Between file system calls, bget() has a buffer to recycle exactly if the transaction has fewer blocks
        than there are buffers. */
    lemma FreeBufferIff()
      requires Working() && NoneLocked(bc.bufs)
      ensures SomeFree(bc.bufs) <==> |lh| < NBUF
    {
      PinsDistinct();
      if |lh| < NBUF {
        var i := Missing(pins, NBUF);
        assert i !in bc.pinned && BufferOk(bc.disk, false, bc.bufs[i]);
      } else {
        AllPinned();
      }
    }

    lemma PinsDistinct()
      requires Base()
      ensures Distinct(pins) && forall k | 0 <= k < |pins| :: pins[k] < NBUF
    {
      forall i, j | 0 <= i < j < |pins| ensures pins[i] != pins[j] {
        assert ReadIn(bc.bufs, pins[i], lh[i]) && ReadIn(bc.bufs, pins[j], lh[j]);
      }
      forall k | 0 <= k < |pins| ensures pins[k] < NBUF { assert ReadIn(bc.bufs, pins[k], lh[k]); }
    }

    /** A transaction of NBUF blocks has a pin on every buffer, so that bget() panics for any other block: such
        as the first log block, which is what commit() needs next. */
    lemma AllPinned()
      requires Base() && |lh| == NBUF
      ensures !SomeFree(bc.bufs) && forall x: nat | x !in lh :: !bc.HasRoom(x)
    {
      PinsDistinct();
      forall i: nat | i < NBUF ensures bc.bufs[i].refcnt > 0 && bc.bufs[i].blockno in lh {
        DistinctCovers(pins, NBUF, i);
        var k :| 0 <= k < NBUF && pins[k] == i;
        assert ReadIn(bc.bufs, pins[k], lh[k]) && BufferOk(bc.disk, true, bc.bufs[i]);
      }
    }

    /** end_op().  The last one commits; then no buffer is held, and there is one beside those that are pinned. */
    method EndOp()
      requires Valid() && outstanding > 0
      requires outstanding == 1 ==> NoneLocked(bc.bufs) && |lh| < NBUF
      modifies this, bc
      ensures Valid() && outstanding == old(outstanding) - 1 && logged == old(logged)
      ensures outstanding > 0 ==> unchanged(bc) && lh == old(lh) && snapshots == old(snapshots)
      ensures outstanding > 0 ==> epoch == old(epoch)
      ensures outstanding == 0 ==> lh == [] && SameHome(l, bc.disk, logged) && NoneLocked(bc.bufs)
      ensures outstanding == 0 ==> Committed(old(lh), old(snapshots), snapshots, old(epoch), epoch, bc.disk)
      ensures old(lh) == [] ==> bc.disk == old(bc.disk) && bc.trace == old(bc.trace)
    {
      outstanding := outstanding - 1;
      if outstanding == 0 {
        CommitAlone();
      }
    }

    /** What the last end_op() does, with begin_op() locked out meanwhile. */
    method CommitAlone()
      requires Working() && Durable() && NoneLocked(bc.bufs) && |lh| < NBUF
      modifies this`committing, this`lh, this`pins, this`snapshots, this`epoch, bc
      ensures Working() && Durable() && !committing && lh == [] && NoneLocked(bc.bufs)
      ensures SameHome(l, bc.disk, logged)
      ensures Committed(old(lh), old(snapshots), snapshots, old(epoch), epoch, bc.disk)
      ensures old(lh) == [] ==> bc.disk == old(bc.disk) && bc.trace == old(bc.trace)
    {
      committing := true;
      Commit();
      committing := false;
    }

    /** Once the last end_op() has returned, what was logged survives a crash, and any crashes during recovery. */
    lemma EndedIsDurable(states: seq<Disk>)
      requires Durable() && SameHome(l, bc.disk, logged) && CrashedRecoveries(l, states) && states[0] == bc.disk
      ensures Bootable(l, states[|states| - 1]) && SameHome(l, Recovered(l, states[|states| - 1]), logged)
    {
      RecoverySurvivesCrashes(l, states);
      RecoveryEffect(l, bc.disk);
      SameHomeTwice(l, Recovered(l, states[|states| - 1]), Recovered(l, bc.disk), logged);
    }

    /** Whatever state of the disk a crash leaves, and however many crashes interrupt recovery, the
        recovery that completes brings back the transactions committed by then, whole. */
    lemma CrashAnywhere(i: nat, states: seq<Disk>)
      requires Durable() && i < |bc.trace| && CrashedRecoveries(l, states) && states[0] == bc.trace[i]
      ensures var e := states[|states| - 1];
              Bootable(l, e) && SameHome(l, Recovered(l, e), snapshots[epoch[i]]) &&
                GetHeader(Recovered(l, e)[l.start]) == []
    {
      RecoverySurvivesCrashes(l, states);
      SameHomeTwice(l, Recovered(l, states[|states| - 1]), Recovered(l, states[0]), snapshots[epoch[i]]);
    }
  }

  lemma RangeNext(home: nat, i: nat)
    ensures Adding(Range(home, i), home + i) == Range(home, i + 1)
  {
  }

  /** A transaction with block x, absorbed or appended. */
  function Adding(lh: seq<nat>, x: nat): (r: seq<nat>) { if x in lh then lh else lh + [x] }

  /** What committing transaction lh records: nothing if it is empty; else one snapshot, the disk as it is then, to
      which the disk recovers from the header write on, and to the snapshot before until then. */
  ghost predicate Committed(lh: seq<nat>, s: seq<Disk>, s': seq<Disk>, e: seq<nat>, e': seq<nat>, d: Disk) {
    if lh == [] then s' == s && e' == e
    else |s| > 0 && s' == s + [d] && e' == e + CommitEpoch(|s|, |lh|)
  }

  /** State i of the disk recovers to snapshot epoch[i], and later states never to an older one. */
  ghost predicate RecoverableTo(l: Layout, trace: seq<Disk>, epoch: seq<nat>, snapshots: seq<Disk>) {
    && |epoch| == |trace| > 0
    && snapshots != []
    && (forall i: nat, j: nat :: InOrder(epoch, |snapshots|, i, j))
    && (forall i: nat :: i < |epoch| ==> RecoversAs(l, trace[i], epoch[i], snapshots))
  }

  predicate InOrder(epoch: seq<nat>, n: nat, i: nat, j: nat) { i <= j < |epoch| ==> epoch[i] <= epoch[j] < n }

  ghost predicate RecoversAs(l: Layout, d: Disk, k: nat, snapshots: seq<Disk>) {
    k < |snapshots| && RecoversTo(l, d, snapshots[k])
  }

  /** The states a commit takes the disk through keep it recoverable: the old snapshot until the
      header is written, the new one from then on. */
  lemma CommitEpochs(l: Layout, d: Disk, t: seq<Disk>, epoch: seq<nat>, snapshots: seq<Disk>, v: Disk, lh: seq<nat>)
    requires RecoverableTo(l, t, epoch, snapshots)
    requires epoch[|epoch| - 1] == |snapshots| - 1 && SameHome(l, d, snapshots[|snapshots| - 1])
    requires Bootable(l, d) && GetHeader(d[l.start]) == []
    requires l.Fits(v) && |v| == |d| && LoggedBlocks(l, |d|, lh)
    ensures var ws := CommitWrites(l, d, v, lh);
            RecoverableTo(l, t + Steps(d, ws), epoch + CommitEpoch(|snapshots|, |lh|), snapshots + [Apply(d, ws)])
  {
    var ws := CommitWrites(l, d, v, lh);
    forall k | 1 <= k <= |ws|
      ensures RecoversTo(l, Apply(d, ws[..k]), if k <= |lh| then snapshots[|snapshots| - 1] else Apply(d, ws))
    {
      CommitState(l, d, v, lh, k, snapshots[|snapshots| - 1]);
    }
    WritesEpochs(l, d, t, epoch, snapshots, ws, |lh|);
  }

  lemma CommitDurable(l: Layout, d: Disk, t: seq<Disk>, epoch: seq<nat>, snapshots: seq<Disk>, v: Disk, lh: seq<nat>,
                      logged: Disk, e: Disk, u: seq<Disk>)
    requires RecoverableTo(l, t, epoch, snapshots)
    requires epoch[|epoch| - 1] == |snapshots| - 1 && SameHome(l, d, snapshots[|snapshots| - 1])
    requires Bootable(l, d) && GetHeader(d[l.start]) == []
    requires l.Fits(v) && |v| == |d| && LoggedBlocks(l, |d|, lh) && SameHome(l, v, logged)
    requires forall x | 0 <= x < |d| && !l.InLog(x) && x !in lh :: logged[x] == d[x]
    requires Ran(d, t, CommitWrites(l, d, v, lh), e, u)
    ensures RecoverableTo(l, u, epoch + CommitEpoch(|snapshots|, |lh|), snapshots + [e])
    ensures Bootable(l, e) && GetHeader(e[l.start]) == [] && SameHome(l, e, logged) && SameHome(l, e, e)
  {
    CommitReaches(l, d, v, lh, logged);
    CommitEpochs(l, d, t, epoch, snapshots, v, lh);
  }

  ghost predicate RecoversTo(l: Layout, d: Disk, s: Disk) {
    Bootable(l, d) && SameHome(l, Recovered(l, d), s)
  }

  lemma WritesEpochs(l: Layout, d: Disk, t: seq<Disk>, epoch: seq<nat>, snapshots: seq<Disk>, ws: seq<Write>, n: nat)
    requires RecoverableTo(l, t, epoch, snapshots) && epoch[|epoch| - 1] == |snapshots| - 1
    requires |ws| == 2 * n + 2
    requires forall k | 1 <= k <= |ws| ::
               RecoversTo(l, Apply(d, ws[..k]), if k <= n then snapshots[|snapshots| - 1] else Apply(d, ws))
    ensures RecoverableTo(l, t + Steps(d, ws), epoch + CommitEpoch(|snapshots|, n), snapshots + [Apply(d, ws)])
  {
    var e, u := CommitEpoch(|snapshots|, n), Steps(d, ws);
    forall i | 0 <= i < |e| ensures RecoversTo(l, u[i], (snapshots + [Apply(d, ws)])[e[i]]) {
      assert u[i] == Apply(d, ws[..i + 1]);
    }
    MoreEpochs(l, t, epoch, snapshots, u, e, Apply(d, ws));
  }

  lemma SameHomeTwice(l: Layout, d: Disk, e: Disk, f: Disk)
    requires SameHome(l, d, e) && SameHome(l, e, f)
    ensures SameHome(l, d, f)
  {
  }

  lemma OverlaidAlike(l: Layout, d: Disk, v: Disk, lh: seq<nat>, e: Disk, f: Disk)
    requires Overlaid(l, d, v, lh, e) && Overlaid(l, d, v, lh, f)
    ensures SameHome(l, e, f)
  {
  }

  lemma CommitState(l: Layout, d: Disk, v: Disk, lh: seq<nat>, k: nat, s: Disk)
    requires SameHome(l, d, s)
    requires Bootable(l, d) && GetHeader(d[l.start]) == []
    requires l.Fits(v) && |v| == |d| && LoggedBlocks(l, |d|, lh) && k <= 2 * |lh| + 2
    ensures var ws := CommitWrites(l, d, v, lh);
            var e := Apply(d, ws[..k]);
            RecoversTo(l, e, if k <= |lh| then s else Apply(d, ws))
  {
    var ws := CommitWrites(l, d, v, lh);
    var e := Apply(d, ws[..k]);
    CommitIsAtomic(l, d, v, lh, k);
    if k <= |lh| {
      SameHomeTwice(l, Recovered(l, e), d, s);
    } else {
      assert ws[..|ws|] == ws;
      CommitIsAtomic(l, d, v, lh, |ws|);
      OverlaidAlike(l, d, v, lh, Recovered(l, e), Apply(d, ws));
    }
  }

  lemma MoreEpochs(l: Layout, t: seq<Disk>, epoch: seq<nat>, snapshots: seq<Disk>, u: seq<Disk>, e: seq<nat>, d: Disk)
    requires RecoverableTo(l, t, epoch, snapshots) && |e| == |u|
    requires forall i, j | 0 <= i <= j < |e| :: |snapshots| - 1 <= e[i] <= e[j] <= |snapshots|
    requires forall i | 0 <= i < |e| :: RecoversTo(l, u[i], (snapshots + [d])[e[i]])
    ensures RecoverableTo(l, t + u, epoch + e, snapshots + [d])
  {
    var ep, n := epoch + e, |snapshots| + 1;
    forall i: nat, j: nat ensures InOrder(ep, n, i, j) {
      assert InOrder(epoch, |snapshots|, i, j) && InOrder(epoch, |snapshots|, i, i);
    }
  }

  /** The snapshots that the states of a commit of n blocks recover to, when there are s snapshots. */
  function CommitEpoch(s: nat, n: nat): (e: seq<nat>)
    requires s > 0
    ensures |e| == 2 * n + 2 && forall i | 0 <= i < |e| :: e[i] == if i < n then s - 1 else s
  {
    seq(2 * n + 2, i => if i < n then s - 1 else s)
  }

  /** A finished commit leaves every home block as it was last logged. */
  lemma CommitReaches(l: Layout, d: Disk, v: Disk, lh: seq<nat>, logged: Disk)
    requires Bootable(l, d) && GetHeader(d[l.start]) == []
    requires l.Fits(v) && |v| == |d| && LoggedBlocks(l, |d|, lh) && SameHome(l, v, logged)
    requires forall x | 0 <= x < |d| && !l.InLog(x) && x !in lh :: logged[x] == d[x]
    ensures var e := Apply(d, CommitWrites(l, d, v, lh));
            Bootable(l, e) && GetHeader(e[l.start]) == [] && SameHome(l, e, logged)
  {
    var ws := CommitWrites(l, d, v, lh);
    assert ws[..|ws|] == ws;
    CommitIsAtomic(l, d, v, lh, |ws|);
  }

  function Zeros(n: nat): (s: seq<nat>)
    ensures |s| == n && forall i | 0 <= i < n :: s[i] == 0
  {
    seq(n, _ => 0)
  }

  lemma OneEpoch(l: Layout, t: seq<Disk>, r: Disk)
    requires t != [] && forall i | 0 <= i < |t| :: RecoversTo(l, t[i], r)
    ensures RecoverableTo(l, t, Zeros(|t|), [r])
  {
  }

  lemma RecoveryState(l: Layout, d: Disk, k: nat)
    requires Bootable(l, d) && k <= |RecoveryWrites(l, d)|
    ensures RecoversTo(l, Apply(d, RecoveryWrites(l, d)[..k]), Recovered(l, d))
  {
    RecoveryRestarts(l, d, k);
  }

  /** Recovery, like commit, never leaves the disk in a state that recovers to something else. */
  lemma RecoveryEpochs(l: Layout, d: Disk)
    requires Bootable(l, d)
    ensures var t := [d] + Steps(d, RecoveryWrites(l, d));
            RecoverableTo(l, t, Zeros(|t|), [Recovered(l, d)])
  {
    var ws := RecoveryWrites(l, d);
    var t := [d] + Steps(d, ws);
    forall i | 0 <= i < |t| ensures RecoversTo(l, t[i], Recovered(l, d)) {
      assert t[i] == Apply(d, ws[..i]);
      RecoveryState(l, d, i);
    }
    OneEpoch(l, t, Recovered(l, d));
  }

  lemma RecoveryDurable(l: Layout, d: Disk, t: seq<Disk>)
    requires Bootable(l, d) && t == [d] + Steps(d, RecoveryWrites(l, d))
    ensures var r := Recovered(l, d);
            && Bootable(l, r) && GetHeader(r[l.start]) == [] && SameHome(l, r, r)
            && RecoverableTo(l, t, Zeros(|t|), [r])
  {
    RecoveryEffect(l, d);
    RecoveryEpochs(l, d);
  }

  lemma LogInstalled(l: Layout, d: Disk, t: seq<Disk>, d1: Disk, t1: seq<Disk>, lh: seq<nat>)
    requires Bootable(l, d) && lh == GetHeader(d[l.start])
    requires Progress(d1, t1, d, t, InstallWrites(l, d, lh), |lh|)
    ensures l.Fits(d1) && d1[l.start] == d[l.start]
    ensures var d2 := d1[l.start := PutHeader(d1[l.start], [])];
            Ran(d, t, RecoveryWrites(l, d), d2, t1 + [d2])
  {
    var ws := InstallWrites(l, d, lh);
    InstallPrefix(l, d, lh, |lh|);
    assert l.InLog(l.start);
    assert ws[..|lh|] == ws;
    ThenOne(d, t, ws, d1, t1, ClearWrite(l, d));
  }

  /** Logging a held buffer of a block in lh again. */
  lemma AbsorbedMatch(l: Layout, disk: Disk, bufs: seq<Buf>, pinned: set<nat>, lh: seq<nat>, pins: seq<nat>,
                      logged: Disk, b: nat)
    requires LoggedMatch(l, disk, bufs, lh, pins, logged) && PinsMatch(bufs, pinned, lh, pins)
    requires b < |bufs| && bufs[b].valid && bufs[b].locked && bufs[b].blockno in lh
    requires forall i | 0 <= i < |bufs| :: BufferOk(disk, i in pinned, bufs[i])
    requires OneBufferEach(bufs)
    ensures bufs[b].blockno < |logged|
    ensures LoggedMatch(l, disk, bufs, lh, pins, logged[bufs[b].blockno := bufs[b].data])
  {
    HeldMatch(disk, bufs, pinned, lh, pins, b);
  }

  /** The pinned buffer of a block is the only one for it. */
  lemma HeldMatch(disk: Disk, bufs: seq<Buf>, pinned: set<nat>, lh: seq<nat>, pins: seq<nat>, b: nat)
    requires PinsMatch(bufs, pinned, lh, pins) && OneBufferEach(bufs)
    requires b < |bufs| && bufs[b].valid
    requires forall i | 0 <= i < |bufs| :: BufferOk(disk, i in pinned, bufs[i])
    ensures forall k | 0 <= k < |lh| :: lh[k] == bufs[b].blockno <==> pins[k] == b
  {
    forall k | 0 <= k < |lh| ensures lh[k] == bufs[b].blockno <==> pins[k] == b {
      assert ReadIn(bufs, pins[k], lh[k]) && IsFor(bufs, pins[k], ROOTDEV, lh[k]);
      assert IsFor(bufs, b, ROOTDEV, bufs[b].blockno);
    }
  }

  lemma StagedWrites(l: Layout, v: Disk, d: Disk, lh: seq<nat>)
    requires Staged(l, v, d, lh) && l.start + |lh| < |d| && forall i | 0 <= i < |lh| :: lh[i] < |v|
    ensures forall i | 0 <= i < |lh| :: HomeWrites(v, lh)[i] == Write(lh[i], d[l.start + 1 + i])
  {
    var ws := HomeWrites(v, lh);
    forall i | 0 <= i < |lh| ensures ws[i] == Write(lh[i], d[l.start + 1 + i]) {
      assert StagedAt(l, v, d, lh, i);
    }
  }

  lemma LoggedView(l: Layout, v: Disk, disk: Disk, bufs: seq<Buf>, lh: seq<nat>)
    requires v == View(disk, bufs) && forall i | 0 <= i < |lh| :: lh[i] < |v|
    ensures |v| == |disk| && forall i | 0 <= i < |lh| ::
            LogWrites(l, v, lh)[i] == Write(l.start + 1 + i, Contents(disk, bufs, lh[i]))
  {
  }

  lemma LogWritten(l: Layout, d0: Disk, t0: seq<Disk>, d1: Disk, t1: seq<Disk>, v: Disk, lh: seq<nat>)
    requires l.Fits(d0) && l.Fits(v) && |v| == |d0| && LoggedBlocks(l, |d0|, lh)
    requires Progress(d1, t1, d0, t0, LogWrites(l, v, lh), |lh|)
    ensures l.Fits(d1) && d1[l.start] == d0[l.start]
    ensures Staged(l, v, d1, lh) && Staged(l, v, d1[l.start := PutHeader(d1[l.start], lh)], lh)
    ensures var d2 := d1[l.start := PutHeader(d1[l.start], lh)];
            Ran(d0, t0, LogWrites(l, v, lh) + [Write(l.start, PutHeader(d0[l.start], lh))], d2, t1 + [d2])
  {
    var ls := LogWrites(l, v, lh);
    LogPrefix(l, d0, v, lh, |lh|);
    LogStaged(l, d0, v, lh);
    assert ls[..|lh|] == ls;
    StagedStays(l, v, d1, d1[l.start := PutHeader(d1[l.start], lh)], lh);
    ThenOne(d0, t0, ls, d1, t1, Write(l.start, PutHeader(d0[l.start], lh)));
  }

  lemma HomeWritten(l: Layout, d2: Disk, t2: seq<Disk>, d3: Disk, t3: seq<Disk>, v: Disk, lh: seq<nat>)
    requires l.Fits(d2) && l.Fits(v) && |v| == |d2| && LoggedBlocks(l, |d2|, lh)
    requires Progress(d3, t3, d2, t2, HomeWrites(v, lh), |lh|)
    ensures l.Fits(d3) && d3[l.start] == d2[l.start]
    ensures var d4 := d3[l.start := PutHeader(d3[l.start], [])];
            Ran(d2, t2, HomeWrites(v, lh) + [Write(l.start, PutHeader(d2[l.start], []))], d4, t3 + [d4])
  {
    var hs := HomeWrites(v, lh);
    HomePrefix(l, d2, v, lh, |lh|);
    assert l.InLog(l.start);
    assert hs[..|lh|] == hs;
    ThenOne(d2, t2, hs, d3, t3, Write(l.start, PutHeader(d2[l.start], [])));
  }

  lemma PinsKept(was: seq<Buf>, now: seq<Buf>, pinned: set<nat>, lh: seq<nat>, pins: seq<nat>)
    requires PinsMatch(was, pinned, lh, pins) && Kept(was, now)
    requires forall i | 0 <= i < |was| && i in pinned :: was[i].refcnt > 0
    ensures PinsMatch(now, pinned, lh, pins)
  {
    forall k | 0 <= k < |lh| ensures pins[k] in pinned && ReadIn(now, pins[k], lh[k]) {
      assert ReadIn(was, pins[k], lh[k]);
    }
  }

  /** The disk has gone from d0 to d1 through the writes ws, and nothing else. */
  predicate Ran(d0: Disk, t0: seq<Disk>, ws: seq<Write>, d1: Disk, t1: seq<Disk>) {
    d1 == Apply(d0, ws) && t1 == t0 + Steps(d0, ws)
  }

  lemma Then(d0: Disk, t0: seq<Disk>, ws: seq<Write>, d1: Disk, t1: seq<Disk>, vs: seq<Write>, d2: Disk, t2: seq<Disk>)
    requires Ran(d0, t0, ws, d1, t1) && Ran(d1, t1, vs, d2, t2)
    ensures Ran(d0, t0, ws + vs, d2, t2)
  {
    ApplyConcat(d0, ws, vs);
    StepsConcat(d0, ws, vs);
  }

  lemma ThenOne(d0: Disk, t0: seq<Disk>, ws: seq<Write>, d1: Disk, t1: seq<Disk>, w: Write)
    requires Ran(d0, t0, ws, d1, t1) && w.addr < |d1|
    ensures Ran(d0, t0, ws + [w], d1[w.addr := w.data], t1 + [d1[w.addr := w.data]])
  {
    ApplyOne(d1, w);
    assert [w][..0] == [];
    Then(d0, t0, ws, d1, t1, [w], d1[w.addr := w.data], t1 + [d1[w.addr := w.data]]);
  }

  /** Dropping the pin of lh[tail] leaves the pins of the blocks after it. */
  lemma Unpinned(was: seq<Buf>, now: seq<Buf>, pinned: set<nat>, lh: seq<nat>, pins: seq<nat>, tail: nat)
    requires tail < |lh| == |pins| && Distinct(lh)
    requires PinsMatch(was, pinned, lh[tail..], pins[tail..])
    requires Kept(was, now) && (forall i | 0 <= i < |was| && i in pinned :: was[i].refcnt > 0)
    ensures PinsMatch(now, pinned - {pins[tail]}, lh[tail + 1..], pins[tail + 1..])
  {
    var lt, pt := lh[tail..], pins[tail..];
    assert lh[tail + 1..] == lt[1..] && pins[tail + 1..] == pt[1..];
    forall k | 0 <= k < |lt| - 1
      ensures pt[1..][k] in pinned - {pt[0]} && ReadIn(now, pt[1..][k], lt[1..][k])
    {
      assert pt[k + 1] in pinned && ReadIn(was, pt[k + 1], lt[k + 1]);
      assert ReadIn(was, pt[0], lt[0]);
      assert lt[0] == lh[tail] && lt[k + 1] == lh[tail + 1 + k];
    }
  }
}
