/**
 File system calls that keep to their budget never meet a precondition of the log that begin_op() does not
 see to: the reservation of LogReservation and LogSharing, joined to the log that runs over the buffer cache.
 */
module LogOps {
  import opened Common
  import opened CrashRecovery
  import opened BufferCache
  import opened Logging
  import R = LogReservation
  import S = LogSharing
  import F = FileSystem

  /** After `run`, by operations that keep to the budget g on a log of `size` blocks that is safe for them, lh is
      logged and n operations are outstanding. */
  ghost predicate Tracks(run: R.Run, g: S.Budget, size: nat, lh: seq<nat>, n: nat, committing: bool) {
    && S.Within(run, g, size) && SafeFor(g, size)
    && var s := R.After(run); s.lh == lh && |s.ops| == n && s.committing == committing
  }

  predicate SafeFor(g: S.Budget, size: nat) { g.own <= g.bound <= MAXOPBLOCKS && S.Top(g) < R.Room(size) }

  lemma BeginTracks(run: R.Run, g: S.Budget, size: nat, lh: seq<nat>, n: nat)
    requires Tracks(run, g, size, lh, n, false) && |lh| + (n + 1) * MAXOPBLOCKS <= LOGSIZE
    ensures Tracks(R.Then(run, R.Begin), g, size, lh, n + 1, false) &&
            R.After(R.Then(run, R.Begin)) == R.Next(R.After(run), R.Begin)
  {
    var s := R.After(run);
    S.OneMoreWithin(run, R.Begin, s, R.Next(s, R.Begin), g, size);
  }

  /** An operation within its budget finds room in the log, and leaves it for the others. */
  lemma WriteTracks(run: R.Run, g: S.Budget, size: nat, lh: seq<nat>, n: nat, committing: bool, op: nat, x: nat)
    requires Tracks(run, g, size, lh, n, committing) && S.Allowed(R.After(run), R.Write(op, x), g)
    ensures |lh| < LOGSIZE && |lh| < size - 1 && n >= 1
    ensures Tracks(R.Then(run, R.Write(op, x)), g, size, Adding(lh, x), n, committing)
    ensures R.After(R.Then(run, R.Write(op, x))) == R.Next(R.After(run), R.Write(op, x))
  {
    var s, e := R.After(run), R.Write(op, x);
    S.NeverMore(run, g, size);
    S.OneMoreWithin(run, e, s, R.Next(s, e), g, size);
  }

  lemma ChangeTracks(run: R.Run, g: S.Budget, size: nat, lh: seq<nat>, n: nat, committing: bool, op: nat,
                     done: set<nat>, x: nat)
    requires Tracks(run, g, size, lh, n, committing) && S.Keeps(done + {x}, g)
    requires var ops := R.After(run).ops; op < |ops| && ops[op] == done
    ensures |lh| < LOGSIZE && |lh| < size - 1 && n >= 1
    ensures Tracks(R.Then(run, R.Write(op, x)), g, size, Adding(lh, x), n, committing)
    ensures var ops := R.After(R.Then(run, R.Write(op, x))).ops;
            op < |ops| && ops[op] == done + {x} && SameButOne(R.After(run).ops, ops, op)
  {
    WriteTracks(run, g, size, lh, n, committing, op, x);
  }

  /** When an operation ends, the transaction has fewer blocks than there are buffers. */
  lemma EndTracks(run: R.Run, g: S.Budget, size: nat, lh: seq<nat>, n: nat, op: nat)
    requires Tracks(run, g, size, lh, n, false) && op < n
    ensures |lh| < NBUF
    ensures n > 1 ==> Tracks(R.Then(run, R.End(op)), g, size, lh, n - 1, false)
    ensures n == 1 ==> Tracks(R.Then(R.Then(run, R.End(op)), R.Commit), g, size, [], 0, false)
  {
    var s, e := R.After(run), R.End(op);
    S.NeverMore(run, g, size);
    var t := R.Next(s, e);
    S.OneMoreWithin(run, e, s, t, g, size);
    if n == 1 { S.OneMoreWithin(R.Then(run, e), R.Commit, t, R.Next(t, R.Commit), g, size); }
  }

  /** The first operation to begin is admitted, and has logged nothing. */
  lemma FirstLogs(run: R.Run, g: S.Budget, size: nat)
    requires Tracks(run, g, size, [], 0, false)
    ensures R.Enabled(R.After(run), R.Begin, g.bound) && R.After(R.Then(run, R.Begin)).ops == [{}]
  {
  }

  // ----- filewrite() ---------------------------------------------------------------------

  /** What F.WriteRound() keeps to on a disk of `disk` blocks, whose bitmap is shared. */
  function RoundBudget(p: F.Places, disk: nat): (g: S.Budget) {
    S.Budget(F.RoundBound(disk), 6, p.Bitmap(disk))
  }

  /** A round of filewrite() that logs the blocks `round` in all keeps to its budget at each of them. */
  lemma RoundAllowed(s: R.State, op: nat, round: set<nat>, b: nat, p: F.Places, disk: nat)
    requires op < |s.ops| && s.ops[op] <= round && F.RoundFits(p, disk, round) && b in round
    ensures S.Allowed(s, R.Write(op, b), RoundBudget(p, disk))
  {
    S.KeepsLess(s.ops[op] + {b}, round, RoundBudget(p, disk));
  }

  /** Any number of operations that keep to the budget of a round of filewrite(), on a disk of `disk` blocks with a
      log of `size`: no log_write() panics exactly if the bitmap has at most 7 blocks and the log 24 more than the
      bitmap.  So filewrite() is safe there, as its rounds keep to that budget; that it is not elsewhere is not
      said, for a round may log less.  (mkfs makes a disk of 2000 blocks, with a bitmap of one, and a log of 30.) */
  lemma FileWritesSafeIff(p: F.Places, disk: nat, size: nat)
    requires size >= 1
    ensures (forall run, e :: !S.PanicsWithin(run, e, RoundBudget(p, disk), size)) <==>
            disk <= 7 * F.BPB && size >= 24 + F.BitmapBlocks(disk)
  {
    S.SharedSafeIff(p.bmapstart, F.BitmapBlocks(disk), RoundBudget(p, disk), size);
  }

  // ----- a transaction that cannot commit ---------------------------------------------

  /** On a log that has room for LOGSIZE blocks, three operations within their bound log NBUF blocks between
      them; when two have ended, bget() has no buffer for the log block that the third end_op() begins with. */
  method FillTransaction(d: Disk, l: Layout) returns (log: Log, ghost run: R.Run)
    requires Bootable(l, d) && l.size - 1 >= LOGSIZE && l.start + l.size + NBUF <= |d|
    ensures R.Legal(run, MAXOPBLOCKS, l.size) && R.After(run).lh == log.lh && |R.After(run).ops| == log.outstanding &&
            !R.After(run).committing
    ensures log.Quiet() && log.l == l && log.outstanding == 1 && |log.lh| == NBUF
    ensures !log.bc.HasRoom(l.start + 1)
  {
    run := R.TwoEnd(l.start + l.size, NBUF, l.size);
    log := LogThree(d, l);
    EndTwo(log);
  }

  method LogThree(d: Disk, l: Layout) returns (log: Log)
    requires Bootable(l, d) && l.size - 1 >= LOGSIZE && l.start + l.size + NBUF <= |d|
    ensures log.Quiet() && log.l == l && log.outstanding == 3 && fresh(log) && fresh(log.bc)
    ensures log.lh == Range(l.start + l.size, NBUF)
  {
    log := new Log(d, l);
    BeginThree(log);
    log.LogMany(l.start + l.size, NBUF, d[l.start]);
  }

  method BeginThree(log: Log)
    requires log.Quiet() && log.outstanding == 0 && log.lh == []
    modifies log`outstanding
    ensures log.Quiet() && log.outstanding == 3
  {
    assert Key(0);
    var one := log.BeginOp();
    var two := log.BeginOp();
    var three := log.BeginOp();
  }

  method EndTwo(log: Log)
    requires log.Quiet() && log.outstanding == 3 && log.lh == Range(log.l.start + log.l.size, NBUF)
    modifies log, log.bc
    ensures log.Quiet() && log.outstanding == 1 && log.lh == old(log.lh) && !log.bc.HasRoom(log.l.start + 1)
  {
    assert Key(0);
    log.EndOp();
    log.EndOp();
    log.AllPinned();
  }

  // ----- operations within their bound ------------------------------------------------

  /** Operations other than op have logged what they had. */
  predicate SameButOne(ops: seq<set<nat>>, ops': seq<set<nat>>, op: nat) {
    |ops'| == |ops| && forall q | 0 <= q < |ops| && q != op :: ops'[q] == ops[q]
  }

  class Calls {
    const log: Log
    const g: S.Budget
    ghost var run: R.Run      // what the operations have done

    ghost predicate Reserved()
      reads this, log
    {
      Tracks(run, g, log.l.size, log.lh, log.outstanding, log.committing)
    }

    /** Between calls, with no buffer held. */
    ghost predicate Ready()
      reads this, log, log.bc
    {
      |log.logged| == |log.bc.disk| && forall k: nat :: Key(k) ==> log.Quiet() && Reserved()
    }

    /** What each of the outstanding operations has logged. */
    ghost function Ops(): seq<set<nat>>
      reads this
    {
      R.After(run).ops
    }

    /** Operation op has logged these blocks. */
    ghost predicate Logs(op: nat, blocks: set<nat>)
      reads this
    {
      op < |Ops()| && Ops()[op] == blocks
    }

    constructor (d: Disk, l: Layout, g: S.Budget)
      requires Bootable(l, d) && SafeFor(g, l.size)
      ensures Ready() && fresh(log) && fresh(log.bc) && log.l == l && this.g == g && run == R.Start
      ensures log.outstanding == 0 && log.bc.disk == log.logged == Recovered(l, d) && log.snapshots == [log.bc.disk]
    {
      log := new Log(d, l);
      this.g, run := g, R.Start;
    }

    method Begin() returns (admitted: bool)
      requires log.Valid() && Reserved()
      modifies this, log`outstanding
      ensures log.Valid() && Reserved()
      ensures admitted <==> R.Enabled(old(R.After(run)), R.Begin, g.bound)
      ensures run == if admitted then R.Then(old(run), R.Begin) else old(run)
      ensures admitted ==> R.After(run) == R.Next(old(R.After(run)), R.Begin)
      ensures log.outstanding == if admitted then old(log.outstanding) + 1 else old(log.outstanding)
    {
      ghost var n := log.outstanding;
      admitted := log.BeginOp();
      if admitted {
        BeginTracks(run, g, log.l.size, log.lh, n);
        run := R.Then(run, R.Begin);
      }
    }

    /** log_write() of a held buffer by operation op, within its budget: the log is never full. */
    method Write(ghost op: nat, b: nat)
      requires log.Working() && Reserved() && b < NBUF
      requires log.bc.bufs[b].locked && log.bc.bufs[b].valid && !log.l.InLog(log.bc.bufs[b].blockno)
      requires S.Allowed(R.After(run), R.Write(op, log.bc.bufs[b].blockno), g)
      modifies this, log`lh, log`pins, log`logged, log.bc`bufs, log.bc`pinned
      ensures log.Working() && Reserved() && run == R.Then(old(run), R.Write(op, old(log.bc.bufs[b].blockno)))
      ensures log.bc.bufs[b].blockno < |log.bc.disk| && log.lh == Adding(old(log.lh), log.bc.bufs[b].blockno)
      ensures log.logged == old(log.logged)[log.bc.bufs[b].blockno := log.bc.bufs[b].data]
      ensures forall i | 0 <= i < NBUF :: log.bc.bufs[i].(refcnt := 0) == old(log.bc.bufs[i]).(refcnt := 0)
    {
      ghost var x := log.bc.bufs[b].blockno;
      WriteTracks(run, g, log.l.size, log.lh, log.outstanding, log.committing, op, x);
      log.LogWrite(b);
      run := R.Then(run, R.Write(op, x));
    }

    /** end_op() of operation op.  The last one commits, and finds a buffer for it. */
    method End(ghost op: nat)
      requires log.Valid() && Reserved() && op < log.outstanding && (log.outstanding == 1 ==> NoneLocked(log.bc.bufs))
      modifies this, log, log.bc
      ensures log.Valid() && Reserved()
      ensures run == if old(log.outstanding) == 1 then R.Then(R.Then(old(run), R.End(op)), R.Commit)
              else R.Then(old(run), R.End(op))
      ensures log.outstanding == old(log.outstanding) - 1 && log.logged == old(log.logged)
      ensures log.outstanding > 0 ==> unchanged(log.bc) && log.lh == old(log.lh) &&
                                      log.snapshots == old(log.snapshots) && log.epoch == old(log.epoch)
      ensures log.outstanding == 0 ==> log.lh == [] && SameHome(log.l, log.bc.disk, log.logged) &&
                                       NoneLocked(log.bc.bufs)
      ensures log.outstanding == 0 ==> Committed(old(log.lh), old(log.snapshots), log.snapshots, old(log.epoch),
                                                 log.epoch, log.bc.disk)
    {
      if log.outstanding > 1 {
        EndTracks(run, g, log.l.size, log.lh, log.outstanding, op);
        log.EndOp();
        run := R.Then(run, R.End(op));
      } else {
        EndLast(op);
      }
    }

    method EndLast(ghost op: nat)
      requires log.Valid() && Reserved() && op < log.outstanding == 1 && NoneLocked(log.bc.bufs)
      modifies this, log, log.bc
      ensures log.Valid() && Reserved() && run == R.Then(R.Then(old(run), R.End(op)), R.Commit)
      ensures log.outstanding == 0 && log.logged == old(log.logged)
      ensures log.lh == [] && SameHome(log.l, log.bc.disk, log.logged) && NoneLocked(log.bc.bufs)
      ensures Committed(old(log.lh), old(log.snapshots), log.snapshots, old(log.epoch), log.epoch, log.bc.disk)
    {
      EndTracks(run, g, log.l.size, log.lh, 1, op);
      log.EndOp();
      run := R.Then(R.Then(run, R.End(op)), R.Commit);
    }

    /** The first operation to begin is admitted. */
    method BeginFirst()
      requires Ready() && log.outstanding == 0
      modifies this, log`outstanding
      ensures Ready() && log.outstanding == 1 && Logs(0, {})
    {
      assert Key(0);
      FirstLogs(run, g, log.l.size);
      var admitted := Begin();
    }

    /** Operation op, which has logged `done`, changes a block: bread, a store, log_write, brelse. */
    method Change(ghost op: nat, ghost done: set<nat>, x: nat, data: Block)
      requires Ready() && Logs(op, done) && S.Keeps(done + {x}, g)
      requires x < |log.bc.disk| && !log.l.InLog(x) && |data| == WORDS
      modifies this, log`lh, log`pins, log`logged
      modifies log.bc`bufs, log.bc`pinned, log.bc`next, log.bc`prev, log.bc`order, log.bc`moved, log.bc`clock
      ensures Ready() && Logs(op, done + {x}) && run == R.Then(old(run), R.Write(op, x))
      ensures SameButOne(old(Ops()), Ops(), op)
      ensures log.logged == old(log.logged)[x := data] && log.lh == Adding(old(log.lh), x)
    {
      assert Key(0);
      ChangeTracks(run, g, log.l.size, log.lh, log.outstanding, log.committing, op, done, x);
      log.ChangeBlock(x, data);
      run := R.Then(run, R.Write(op, x));
    }

    /** end_op(), of the last operation. */
    method EndAlone()
      requires Ready() && log.outstanding == 1
      modifies this, log, log.bc
      ensures Ready() && log.outstanding == 0 && log.logged == old(log.logged) &&
              SameHome(log.l, log.bc.disk, log.logged)
      ensures Committed(old(log.lh), old(log.snapshots), log.snapshots, old(log.epoch), log.epoch, log.bc.disk)
      ensures |old(Ops())| == 1 && Ops() == []
    {
      assert Key(0);
      EndLast(0);
    }

    /** A file system call that changes one block, with no other outstanding.  The block is then on the disk, the
        others are as they were, and it stays so through crashes (Log.EndedIsDurable). */
    method Update(x: nat, data: Block)
      requires Ready() && g.own >= 1 && log.outstanding == 0
      requires x < |log.bc.disk| && !log.l.InLog(x) && |data| == WORDS
      modifies this, log, log.bc
      ensures Ready() && log.outstanding == 0
      ensures log.logged == old(log.logged)[x := data] && SameHome(log.l, log.bc.disk, log.logged) &&
              log.bc.disk[x] == data
      ensures log.snapshots == old(log.snapshots) + [log.bc.disk]
    {
      assert g.own <= g.bound by { assert Key(0); }
      S.KeepsOne(x, g);
      BeginFirst();
      Change(0, {}, x, data);
      EndAlone();
    }
  }
}
