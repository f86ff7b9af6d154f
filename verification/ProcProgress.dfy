/**
 The locks of the process machine cannot deadlock: whoever holds a p->lock never waits, and
 whoever holds wait_lock or the spinlock of a monitor waits only for a p->lock.
 */
module ProcProgress {
  import opened Common
  import opened ProcModel
  import opened ProcInvariant
  import opened ProcWakeup
  import opened ProcMonitor
  import opened ProcSafety

  /** The CPU that holds the lock which the thread of process p needs next, if anyone does. */
  function ThreadAwaits(s: State, p: nat): (d: Option<nat>)
    requires p < |s.procs|
  {
    var pc, n := s.procs[p].pc, |s.procs|;
    if pc.Sleep1? || pc.Exit3? then s.procs[p].lock
    else if (pc.Woken? && pc.r.InWait?) || pc.Exit1? || pc.Wait1? || pc.Fork2? then s.waitLock
    else if pc.Woken? then if HasLk(s, pc.r.k) then s.spins[s.lk[pc.r.k]] else None
    else if pc.Acquire1? || pc.Release1? then if HasLk(s, pc.k) then s.spins[s.lk[pc.k]] else None
    else if pc.Enter? then if pc.l < |s.spins| then s.spins[pc.l] else None
    else if pc.Waking? then if pc.m < n && pc.m != p then s.procs[pc.m].lock else None
    else if pc.Wait2? then if pc.i < n && s.procs[pc.i].parent == Some(p) then s.procs[pc.i].lock else None
    else if pc.Fork1? || pc.Fork3? then if pc.i < n then s.procs[pc.i].lock else None
    else None
  }

  function Awaits(s: State, c: nat): (d: Option<nat>)
    requires c < |s.cpus|
  {
    var cpu := s.cpus[c];
    match cpu.stack
    case OfScheduler => if cpu.spc.Scan? && cpu.spc.i < |s.procs| then s.procs[cpu.spc.i].lock else None
    case OfProcess(p) => if p < |s.procs| then ThreadAwaits(s, p) else None
  }

  /** The thread of p, on CPU c, has a next step other than being preempted. */
  ghost predicate ThreadGoes(s: State, c: nat, p: nat) {
    || SwitchEnabled(s, c, p, Go) || SleepEnabled(s, c, p) || WakeEnabled(s, c, p)
    || MonitorEnabled(s, c, p, Go) || (exists k: nat :: MonitorEnabled(s, c, p, CallWakeup(k)))
    || LockEnabled(s, c, p, Go) || ExitEnabled(s, c, p, Go)
    || WaitEnabled(s, c, p, Go) || WaitEnabled(s, c, p, Fail) || ForkEnabled(s, c, p, Go) ||
      ForkEnabled(s, c, p, CallFork)
  }

  ghost predicate Goes(s: State, c: nat)
    requires c < |s.cpus|
  {
    match s.cpus[c].stack
    case OfScheduler => SchedEnabled(s, c)
    case OfProcess(p) => ThreadGoes(s, c, p)
  }

  lemma ThreadGoesUnless(s: State, c: nat, p: nat)
    requires Here(s, c, p)
    ensures ThreadGoes(s, c, p) <==> ThreadAwaits(s, p).None?
  {
    var pc := s.procs[p].pc;
    if pc.Inside? && pc.owed != {} {
      var k :| k in pc.owed;
      assert MonitorEnabled(s, c, p, CallWakeup(k));
    }
  }

  /** A CPU is stopped exactly by a lock that a CPU holds. */
  lemma GoesUnlessAwaits(s: State, c: nat)
    requires Reachable(s) && c < |s.cpus|
    ensures Goes(s, c) <==> Awaits(s, c).None?
  {
    ReachableBase(s);
    if s.cpus[c].stack.OfProcess? {
      BaseHere(s, c, s.cpus[c].stack.p);
      ThreadGoesUnless(s, c, s.cpus[c].stack.p);
    }
  }

  lemma SelfOwnerAwaitsNothing(s: State, p: nat)
    requires p < |s.procs| && OwnsSelf(s.procs[p].pc)
    ensures ThreadAwaits(s, p).None?
  {
  }

  /** Who holds a p->lock waits for nothing. */
  lemma ProcLockHolder(s: State, c: nat, p: nat)
    requires Base(s) && p < |s.procs| && s.procs[p].lock == Some(c)
    ensures c < |s.cpus| && Awaits(s, c).None?
  {
    assert HoldsProc(s.cpus[c], p, s.procs[p].pc);
    if s.cpus[c].stack == OfProcess(p) { SelfOwnerAwaitsNothing(s, p); }
  }

  /** What the awaited lock is. */
  predicate AwaitsProcLock(s: State, p: nat)
    requires p < |s.procs|
  {
    var pc := s.procs[p].pc;
    pc.Sleep1? || pc.Exit3? || pc.Waking? || pc.Wait2? || pc.Fork1? || pc.Fork3?
  }

  lemma ProcLockAwaited(s: State, p: nat)
    requires Base(s) && p < |s.procs| && AwaitsProcLock(s, p) && ThreadAwaits(s, p).Some?
    ensures ThreadAwaits(s, p).value < |s.cpus| && Awaits(s, ThreadAwaits(s, p).value).None?
  {
    var pc, d := s.procs[p].pc, ThreadAwaits(s, p).value;
    if pc.Sleep1? || pc.Exit3? { ProcLockHolder(s, d, p); }
    else if pc.Waking? { ProcLockHolder(s, d, pc.m); }
    else { ProcLockHolder(s, d, pc.i); }
  }

  lemma WaitLockHolder(s: State)
    requires Base(s) && s.waitLock.Some?
    ensures s.waitLock.value < |s.cpus| && s.cpus[s.waitLock.value].stack.OfProcess?
    ensures HoldsWait(s, s.cpus[s.waitLock.value])
  {
  }

  lemma SpinLockHolder(s: State, l: nat)
    requires Base(s) && l < |s.spins| && s.spins[l].Some?
    ensures s.spins[l].value < |s.cpus| && s.cpus[s.spins[l].value].stack.OfProcess?
    ensures HoldsSpin(s, s.cpus[s.spins[l].value], l)
  {
  }

  /** CPU d can go on, or waits for one that can. */
  predicate Within1(s: State, d: nat) {
    d < |s.cpus| && (Awaits(s, d).Some? ==> Awaits(s, d).value < |s.cpus| && Awaits(s, Awaits(s, d).value).None?)
  }

  /** Who holds wait_lock or a monitor's spinlock waits, if at all, for a p->lock. */
  lemma OuterLockHolder(s: State, d: nat, p: nat, l: nat)
    requires Base(s) && At(s, d, p) && (OwnsWait(s.procs[p].pc) || OwnsSpin(s.lk, s.procs[p].pc, l))
    ensures Within1(s, d)
  {
    if ThreadAwaits(s, p).Some? {
      assert AwaitsProcLock(s, p);
      ProcLockAwaited(s, p);
    }
  }

  lemma OuterLockAwaited(s: State, p: nat)
    requires Base(s) && p < |s.procs| && !AwaitsProcLock(s, p) && ThreadAwaits(s, p).Some?
    ensures Within1(s, ThreadAwaits(s, p).value)
  {
    var pc, d := s.procs[p].pc, ThreadAwaits(s, p).value;
    if (pc.Woken? && pc.r.InWait?) || pc.Exit1? || pc.Wait1? || pc.Fork2? {
      WaitLockHolder(s);
      OuterLockHolder(s, d, s.cpus[d].stack.p, 0);
    } else {
      var l := if pc.Enter? then pc.l else s.lk[if pc.Woken? then pc.r.k else pc.k];
      SpinLockHolder(s, l);
      OuterLockHolder(s, d, s.cpus[d].stack.p, l);
    }
  }

  /** A thread never waits for a lock it holds. */
  lemma NoSelfWait(s: State, c: nat, p: nat)
    requires Here(s, c, p)
    requires forall j: nat | j < |s.procs| :: s.procs[j].lock == Some(c) <==> j == p && OwnsSelf(s.procs[p].pc)
    ensures ThreadAwaits(s, p) != Some(c)
  {
  }

  lemma AwaitsAnother(s: State, c: nat)
    requires Base(s) && c < |s.cpus|
    ensures Awaits(s, c) != Some(c)
  {
    if s.cpus[c].stack.OfProcess? {
      BaseHere(s, c, s.cpus[c].stack.p);
      OwnLockOnly(s, c, s.cpus[c].stack.p);
      NoSelfWait(s, c, s.cpus[c].stack.p);
    } else {
      assert s.procs[s.cpus[c].spc.i].lock == Some(c) <==>
             HoldsProc(s.cpus[c], s.cpus[c].spc.i, s.procs[s.cpus[c].spc.i].pc);
    }
  }

  /** Every CPU can go on, or waits for one that can, or waits for one that waits for one that can. */
  lemma NoDeadlock(s: State, c: nat)
    requires Reachable(s) && c < |s.cpus|
    ensures Awaits(s, c) != Some(c)
    ensures Awaits(s, c).Some? ==> Within1(s, Awaits(s, c).value)
  {
    ReachableBase(s);
    AwaitsAnother(s, c);
    if Awaits(s, c).Some? {
      if s.cpus[c].stack == OfScheduler {
        ProcLockHolder(s, Awaits(s, c).value, s.cpus[c].spc.i);
      } else if AwaitsProcLock(s, s.cpus[c].stack.p) {
        ProcLockAwaited(s, s.cpus[c].stack.p);
      } else {
        OuterLockAwaited(s, s.cpus[c].stack.p);
      }
    }
  }
}
