/**
 What holds in every state of every run: on any number of CPUs, under any interleaving.
 */
module ProcSafety {
  import opened Common
  import opened ProcModel
  import opened ProcInvariant
  import opened ProcWakeup
  import opened ProcMonitor

  /** A scheduler that is about to clear c->proc finds nobody on the stack of that process. */
  ghost predicate Parked(s: State) {
    forall c: nat, p: nat | c < |s.cpus| && p < |s.procs| && s.cpus[c].stack == OfScheduler &&
      s.cpus[c].spc == Switched(p) ::
      s.procs[p].on.None?
  }

  ghost predicate Inv(s: State) {
    Base(s) && Families(s) && Awake(s) && Monitors(s) && Parked(s)
  }

  // ----- every step keeps it ---------------------------------------------------------

  /** No process is dispatched, and a CPU that returns to its scheduler has left the stack. */
  lemma ParkedKept(s: State, t: State)
    requires Parked(s) && |t.procs| == |s.procs| && |t.cpus| == |s.cpus|
    requires forall p: nat | p < |s.procs| :: t.procs[p].on == s.procs[p].on || t.procs[p].on.None?
    requires forall c: nat | c < |s.cpus| :: t.cpus[c] == s.cpus[c] ||
               (t.cpus[c].stack == OfScheduler && t.cpus[c].spc.Switched? ==>
                  t.cpus[c].spc.i < |t.procs| && t.procs[t.cpus[c].spc.i].on.None?)
    ensures Parked(t)
  {
  }

  lemma DispatchParked(s: State, c: nat, i: nat)
    requires Base(s) && Parked(s) && SchedEnabled(s, c) && s.cpus[c].spc == Holding(i) && s.procs[i].state == RUNNABLE
    ensures Parked(SchedNext(s, c))
  {
    var t := SchedNext(s, c);
    forall d: nat, p: nat | d < |t.cpus| && p < |t.procs| && t.cpus[d].stack == OfScheduler &&
      t.cpus[d].spc == Switched(p)
      ensures t.procs[p].on.None?
    {
      assert s.cpus[d] == t.cpus[d];
      assert HoldsProc(s.cpus[d], p, s.procs[p].pc) && HoldsProc(s.cpus[c], i, s.procs[i].pc);
    }
  }

  lemma SchedParked(s: State, c: nat)
    requires Base(s) && Parked(s) && SchedEnabled(s, c)
    ensures Parked(SchedNext(s, c))
  {
    if s.cpus[c].spc.Holding? && s.procs[s.cpus[c].spc.i].state == RUNNABLE {
      DispatchParked(s, c, s.cpus[c].spc.i);
    } else {
      ParkedKept(s, SchedNext(s, c));
    }
  }

  lemma SchedKeeps(s: State, c: nat)
    requires Inv(s) && SchedEnabled(s, c)
    ensures Inv(SchedNext(s, c))
  {
    SchedBase(s, c);
    SchedFamilies(s, c);
    SchedAwake(s, c);
    SchedMonitors(s, c);
    SchedParked(s, c);
  }

  lemma SwitchKeeps(s: State, c: nat, p: nat, ch: Choice)
    requires Inv(s) && SwitchEnabled(s, c, p, ch)
    ensures Inv(SwitchNext(s, c, p, ch))
  {
    BaseHere(s, c, p);
    SwitchBase(s, c, p, ch);
    SwitchFamilies(s, c, p, ch);
    SwitchAwake(s, c, p, ch);
    SwitchMonitors(s, c, p, ch);
    ParkedKept(s, SwitchNext(s, c, p, ch));
  }

  lemma SleepParked(s: State, c: nat, p: nat)
    requires Parked(s) && SleepEnabled(s, c, p) && CpuOk(|s.procs|, s.cpus[c])
    ensures Parked(SleepNext(s, c, p))
  {
    ParkedKept(s, SleepNext(s, c, p));
  }

  lemma SleepKeeps(s: State, c: nat, p: nat)
    requires Inv(s) && SleepEnabled(s, c, p)
    ensures Inv(SleepNext(s, c, p))
  {
    BaseHere(s, c, p);
    WaitIsExclusive(s);
    SleepBase(s, c, p);
    SleepFamilies(s, c, p);
    SleepAwake(s, c, p);
    SleepMonitors(s, c, p);
    SleepParked(s, c, p);
  }

  lemma WakeParked(s: State, c: nat, p: nat)
    requires Parked(s) && WakeEnabled(s, c, p)
    ensures Parked(WakeNext(s, c, p))
  {
    ParkedKept(s, WakeNext(s, c, p));
  }

  lemma WakeKeeps(s: State, c: nat, p: nat)
    requires Inv(s) && WakeEnabled(s, c, p)
    ensures Inv(WakeNext(s, c, p))
  {
    var m := s.procs[p].pc.m;
    if m < |s.procs| { NotFallingAsleep(s, m); }
    WaitIsExclusive(s);
    WakeBase(s, c, p);
    WakeFamilies(s, c, p);
    WakeAwake(s, c, p);
    WakeMonitors(s, c, p);
    WakeParked(s, c, p);
  }

  lemma HasLocks(s: State, p: nat)
    requires Owned(s) && p < |s.procs|
    ensures forall k | k in s.procs[p].has :: k < |s.mons|
  {
    assert forall k | k in s.procs[p].has :: LockedBy(s.mons, k, p);
  }

  lemma LockParked(s: State, c: nat, p: nat, ch: Choice)
    requires Parked(s) && LockEnabled(s, c, p, ch)
    ensures Parked(LockNext(s, c, p, ch))
  {
    ParkedKept(s, LockNext(s, c, p, ch));
  }

  lemma MonitorParked(s: State, c: nat, p: nat, ch: Choice)
    requires Parked(s) && MonitorEnabled(s, c, p, ch)
    ensures Parked(MonitorNext(s, c, p, ch))
  {
    ParkedKept(s, MonitorNext(s, c, p, ch));
  }

  lemma MonitorKeeps(s: State, c: nat, p: nat, ch: Choice)
    requires Inv(s) && MonitorEnabled(s, c, p, ch)
    ensures Inv(MonitorNext(s, c, p, ch))
  {
    BaseHere(s, c, p);
    SpinIsExclusive(s);
    MonitorBase(s, c, p, ch);
    MonitorFamilies(s, c, p, ch);
    MonitorAwake(s, c, p, ch);
    MonitorMonitors(s, c, p, ch);
    MonitorParked(s, c, p, ch);
  }

  lemma LockKeeps(s: State, c: nat, p: nat, ch: Choice)
    requires Inv(s) && LockEnabled(s, c, p, ch)
    ensures Inv(LockNext(s, c, p, ch))
  {
    BaseHere(s, c, p);
    SpinIsExclusive(s);
    HasLocks(s, p);
    LockBase(s, c, p, ch);
    LockFamilies(s, c, p, ch);
    LockAwake(s, c, p, ch);
    LockMonitors(s, c, p, ch);
    LockParked(s, c, p, ch);
  }

  lemma ExitParked(s: State, c: nat, p: nat, ch: Choice)
    requires Parked(s) && ExitEnabled(s, c, p, ch) && CpuOk(|s.procs|, s.cpus[c])
    ensures Parked(ExitNext(s, c, p, ch))
  {
    ParkedKept(s, ExitNext(s, c, p, ch));
  }

  lemma ExitKeeps(s: State, c: nat, p: nat, ch: Choice)
    requires Inv(s) && ExitEnabled(s, c, p, ch)
    ensures Inv(ExitNext(s, c, p, ch))
  {
    BaseHere(s, c, p);
    WaitIsExclusive(s);
    ExitBase(s, c, p, ch);
    ExitFamilies(s, c, p, ch);
    ExitAwake(s, c, p, ch);
    ExitMonitors(s, c, p, ch);
    ExitParked(s, c, p, ch);
  }

  /** A zombie whose lock is free has left its stack for good. */
  lemma UnlockedZombie(s: State, i: nat)
    requires Base(s) && i < |s.procs| && s.procs[i].state == ZOMBIE
    ensures s.procs[i].pc.Dead? || s.procs[i].lock.Some?
  {
    if !s.procs[i].pc.Dead? {
      OnHere(s, i);
    }
  }

  lemma WaitParked(s: State, c: nat, p: nat, ch: Choice)
    requires Parked(s) && WaitEnabled(s, c, p, ch)
    ensures Parked(WaitNext(s, c, p, ch))
  {
    ParkedKept(s, WaitNext(s, c, p, ch));
  }

  lemma WaitKeeps(s: State, c: nat, p: nat, ch: Choice)
    requires Inv(s) && WaitEnabled(s, c, p, ch)
    ensures Inv(WaitNext(s, c, p, ch))
  {
    if Reaps(s, p, ch) { UnlockedZombie(s, s.procs[p].pc.i); }
    WaitIsExclusive(s);
    WaitBase(s, c, p, ch);
    WaitFamilies(s, c, p, ch);
    WaitAwake(s, c, p, ch);
    WaitMonitors(s, c, p, ch);
    WaitParked(s, c, p, ch);
  }

  lemma ForkParked(s: State, c: nat, p: nat, ch: Choice)
    requires Parked(s) && ForkEnabled(s, c, p, ch)
    ensures Parked(ForkNext(s, c, p, ch))
  {
    ParkedKept(s, ForkNext(s, c, p, ch));
  }

  /** The slot that fork() is filling is USED, its thread yet to start. */
  lemma ForkReady(s: State, c: nat, p: nat, ch: Choice)
    requires Placed(s) && ForksOk(s) && ForkEnabled(s, c, p, ch) && (s.procs[p].pc.Fork2? || s.procs[p].pc.Fork3?)
    ensures s.procs[s.procs[p].pc.i].state == USED && s.procs[s.procs[p].pc.i].pc == Entry
  {
    assert ForkTarget(s.procs[p].pc) == Some(s.procs[p].pc.i);
  }

  lemma FreeSlots(s: State)
    requires Placed(s)
    ensures forall i: nat | i < |s.procs| && s.procs[i].state == UNUSED ::
            s.procs[i].pc.Idle? && s.procs[i].parent.None?
  {
  }

  lemma ForkKeeps(s: State, c: nat, p: nat, ch: Choice)
    requires Inv(s) && ForkEnabled(s, c, p, ch)
    ensures Inv(ForkNext(s, c, p, ch))
  {
    if s.procs[p].pc.Fork2? || s.procs[p].pc.Fork3? { ForkReady(s, c, p, ch); }
    FreeSlots(s);
    ForkBase(s, c, p, ch);
    ForkFamilies(s, c, p, ch);
    ForkAwake(s, c, p, ch);
    ForkMonitors(s, c, p, ch);
    ForkParked(s, c, p, ch);
  }

  lemma KillKeeps(s: State, c: nat, p: nat, ch: Choice)
    requires Inv(s) && KillEnabled(s, c, p, ch)
    ensures Inv(KillNext(s, c, p, ch))
  {
    KillBase(s, c, p, ch);
    KillFamilies(s, c, p, ch);
    KillAwake(s, c, p, ch);
    KillMonitors(s, c, p, ch);
    ParkedKept(s, KillNext(s, c, p, ch));
  }

  lemma SwitchingStepKeeps(s: State, t: State)
    requires Inv(s) && SwitchingStep(s, t)
    ensures Inv(t)
  {
    if c: nat :| SchedEnabled(s, c) && t == SchedNext(s, c) {
      SchedKeeps(s, c);
    } else if c: nat, p: nat, ch :| SwitchEnabled(s, c, p, ch) && t == SwitchNext(s, c, p, ch) {
      SwitchKeeps(s, c, p, ch);
    } else if c: nat, p: nat :| SleepEnabled(s, c, p) && t == SleepNext(s, c, p) {
      SleepKeeps(s, c, p);
    } else if c: nat, p: nat :| WakeEnabled(s, c, p) && t == WakeNext(s, c, p) {
      WakeKeeps(s, c, p);
    } else if c: nat, p: nat, ch :| MonitorEnabled(s, c, p, ch) && t == MonitorNext(s, c, p, ch) {
      MonitorKeeps(s, c, p, ch);
    } else {
      var c: nat, p: nat, ch :| LockEnabled(s, c, p, ch) && t == LockNext(s, c, p, ch);
      LockKeeps(s, c, p, ch);
    }
  }

  lemma LifeStepKeeps(s: State, t: State)
    requires Inv(s) && LifeStep(s, t)
    ensures Inv(t)
  {
    if c: nat, p: nat, ch :| ExitEnabled(s, c, p, ch) && t == ExitNext(s, c, p, ch) {
      ExitKeeps(s, c, p, ch);
    } else if c: nat, p: nat, ch :| WaitEnabled(s, c, p, ch) && t == WaitNext(s, c, p, ch) {
      WaitKeeps(s, c, p, ch);
    } else if c: nat, p: nat, ch :| ForkEnabled(s, c, p, ch) && t == ForkNext(s, c, p, ch) {
      ForkKeeps(s, c, p, ch);
    } else {
      var c: nat, p: nat, ch :| KillEnabled(s, c, p, ch) && t == KillNext(s, c, p, ch);
      KillKeeps(s, c, p, ch);
    }
  }

  /** Which CPU a process is on, at the start. */
  lemma StartOn(s: State, c: nat, p: nat)
    requires Start(s) && c < |s.cpus| && p < |s.procs|
    ensures s.procs[p].on == Some(c) <==> s.cpus[c].stack == OfProcess(p)
  {
  }

  lemma StartPlaced(s: State)
    requires Start(s)
    ensures Placed(s)
  {
    forall p: nat, c: nat | p < |s.procs| && c < |s.cpus|
      ensures s.procs[p].on == Some(c) <==> s.cpus[c].stack == OfProcess(p) {
      StartOn(s, c, p);
    }
  }

  lemma StartLocked(s: State)
    requires Start(s)
    ensures ProcLocked(s) && WaitLocked(s) && SpinLocked(s)
  {
    assert forall c: nat | c < |s.cpus| && s.cpus[c].stack.OfProcess? :: Server(s, c, s.cpus[c].stack.p);
  }

  lemma StartFamilies(s: State)
    requires Start(s)
    ensures Families(s)
  {
    forall p: nat | p < |s.procs| ensures s.procs[p].parent == None && ForkTarget(s.procs[p].pc) == None {
      StartProc(s, p);
    }
    StartProc(s, INIT);
  }

  lemma StartProc(s: State, p: nat)
    requires Start(s) && p < |s.procs|
    ensures s.procs[p].parent == None && (s.procs[p].pc.Idle? || s.procs[p].pc.Entry? || s.procs[p].pc.Out?)
    ensures p == INIT ==> s.procs[p].pc.Entry?
  {
  }

  /** Nobody has a parent yet. */
  lemma StartAwake(s: State)
    requires Start(s)
    ensures Awake(s)
  {
    assert forall j: nat | j < |s.procs| :: s.procs[j].parent == None;
  }

  lemma StartMonitors(s: State)
    requires Start(s)
    ensures Monitors(s) && Parked(s)
  {
  }

  lemma StartInv(s: State)
    requires Start(s)
    ensures Inv(s)
  {
    StartPlaced(s);
    StartLocked(s);
    StartFamilies(s);
    StartAwake(s);
    StartMonitors(s);
  }

  lemma {:induction false} RunKeeps(run: seq<State>, i: nat)
    requires Run(run) && i < |run|
    ensures Inv(run[i])
    decreases i
  {
    if i == 0 {
      StartInv(run[0]);
    } else {
      RunKeeps(run, i - 1);
      if SwitchingStep(run[i - 1], run[i]) {
        SwitchingStepKeeps(run[i - 1], run[i]);
      } else {
        LifeStepKeeps(run[i - 1], run[i]);
      }
    }
  }

  /** s occurs in some run. */
  ghost predicate Reachable(s: State) { exists run: seq<State>, i: nat :: Occurs(run, i, s) }

  ghost predicate Occurs(run: seq<State>, i: nat, s: State) { Run(run) && i < |run| && run[i] == s }

  lemma ReachableKeeps(s: State)
    requires Reachable(s)
    ensures Inv(s)
  {
    var run: seq<State>, i: nat :| Occurs(run, i, s);
    RunKeeps(run, i);
  }

  lemma ReachableBase(s: State)
    requires Reachable(s)
    ensures Base(s)
  {
    ReachableKeeps(s);
  }

  // ----- scheduling -----------------------------------------------------------------------

  /** No process is current on two CPUs, and no two CPUs are on one kernel stack. */
  lemma OneCpuEach(s: State, c: nat, d: nat, p: nat)
    requires Reachable(s) && c < |s.cpus| && d < |s.cpus| && p < |s.procs|
    requires (s.cpus[c].proc == Some(p) && s.cpus[d].proc == Some(p)) ||
             (s.cpus[c].stack == OfProcess(p) && s.cpus[d].stack == OfProcess(p))
    ensures c == d
  {
    ReachableKeeps(s);
    if s.cpus[c].stack == OfScheduler && s.cpus[d].stack == OfScheduler {
      assert HoldsProc(s.cpus[c], p, s.procs[p].pc) && HoldsProc(s.cpus[d], p, s.procs[p].pc);
    }
  }

  lemma CurrentIsRunning(s: State, c: nat, p: nat)
    requires Base(s) && c < |s.cpus| && p < |s.procs| && s.cpus[c].proc == Some(p)
    ensures s.procs[p].state == RUNNING || s.procs[p].lock == Some(c)
  {
    assert s.procs[p].lock == Some(c) <==> HoldsProc(s.cpus[c], p, s.procs[p].pc);
  }

  lemma RunningIsCurrent(s: State, p: nat)
    requires Base(s) && p < |s.procs| && s.procs[p].state == RUNNING
    ensures s.procs[p].on.Some? && s.procs[p].on.value < |s.cpus| && s.cpus[s.procs[p].on.value].proc == Some(p)
  {
  }

  /** While p->lock is free, p is RUNNING exactly when it is some CPU's current process. */
  lemma RunningIffCurrent(s: State, p: nat)
    requires Reachable(s) && p < |s.procs| && s.procs[p].lock.None?
    ensures s.procs[p].state == RUNNING <==> exists c: nat | c < |s.cpus| :: s.cpus[c].proc == Some(p)
  {
    ReachableBase(s);
    if s.procs[p].state == RUNNING { RunningIsCurrent(s, p); }
    forall c: nat | c < |s.cpus| && s.cpus[c].proc == Some(p) ensures s.procs[p].state == RUNNING {
      CurrentIsRunning(s, c, p);
    }
  }

  /** A process that is not RUNNING, and whose lock is free, has left its stack and every CPU: its
      registers are in its saved context, so another CPU may take it up, or its slot be recycled. */
  lemma UnlockedHasLeft(s: State, p: nat, c: nat)
    requires Reachable(s) && p < |s.procs| && c < |s.cpus|
    requires s.procs[p].lock.None? && s.procs[p].state != RUNNING
    ensures s.cpus[c].proc != Some(p) && s.cpus[c].stack != OfProcess(p)
  {
    RunningIffCurrent(s, p);
    ReachableBase(s);
  }

  /** The only p->lock a running thread can hold is its own. */
  lemma OwnLockOnly(s: State, c: nat, p: nat)
    requires Base(s) && At(s, c, p)
    ensures forall j: nat | j < |s.procs| :: s.procs[j].lock == Some(c) <==> j == p && OwnsSelf(s.procs[p].pc)
  {
    assert forall j: nat | j < |s.procs| :: s.procs[j].lock == Some(c) <==> HoldsProc(s.cpus[c], j, s.procs[j].pc);
  }

  /** The step that p is about to take calls sched(), no longer RUNNING. */
  predicate CallsSched(s: State, c: nat, p: nat) {
    || (SwitchEnabled(s, c, p, Go) && SwitchNext(s, c, p, Go).procs[p].state != RUNNING &&
        SwitchNext(s, c, p, Go).cpus[c].stack == OfScheduler)
    || (SleepEnabled(s, c, p) && SleepNext(s, c, p).procs[p].state != RUNNING &&
        SleepNext(s, c, p).cpus[c].stack == OfScheduler)
    || (ExitEnabled(s, c, p, Go) && ExitNext(s, c, p, Go).procs[p].state != RUNNING &&
        ExitNext(s, c, p, Go).cpus[c].stack == OfScheduler)
  }

  lemma SchedCalls(s: State, c: nat, p: nat)
    requires Here(s, c, p)
    requires s.procs[p].pc.Yielding? || s.procs[p].pc.Sleep3? || s.procs[p].pc.Exit6?
    ensures CallsSched(s, c, p)
  {
  }

  /** What sched() demands of its caller, at each of its three calls: the CPU holds p->lock and
      no other lock, and p is no longer RUNNING. */
  lemma SchedPreconditions(s: State, c: nat, p: nat)
    requires Reachable(s) && At(s, c, p)
    requires s.procs[p].pc.Yielding? || s.procs[p].pc.Sleep3? || s.procs[p].pc.Exit6?
    ensures forall j: nat | j < |s.procs| :: s.procs[j].lock == Some(c) <==> j == p
    ensures s.waitLock != Some(c)
    ensures forall l: nat | l < |s.spins| :: s.spins[l] != Some(c)
    ensures CallsSched(s, c, p)
  {
    ReachableBase(s);
    BaseHere(s, c, p);
    OwnLockOnly(s, c, p);
    SchedCalls(s, c, p);
  }

  // ----- exit and wait ----------------------------------------------------------------------

  /** A parent is never a zombie or a free slot. */
  lemma NoOrphans(s: State, j: nat, q: nat)
    requires Reachable(s) && j < |s.procs| && s.procs[j].parent == Some(q)
    ensures q < |s.procs| && s.procs[q].state != ZOMBIE && s.procs[q].state != UNUSED
  {
    ReachableKeeps(s);
    assert q < |s.procs| && StateOk(q, s.procs[q]);
    assert q == INIT || j >= Bound(|s.procs|, s.procs[q].pc);
  }

  /** A parent that sleeps in wait() has no zombie child, unless it is initproc with a wakeup on its way. */
  lemma NoLostWait(s: State, q: nat, j: nat)
    requires Reachable(s) && q < |s.procs| && j < |s.procs|
    requires s.procs[j].parent == Some(q) && s.procs[j].state == ZOMBIE && Waits(q, s.procs[q])
    ensures q == INIT && s.waitLock.Some?
    ensures exists p: nat | p < |s.procs| :: InitPending(s.procs[p].pc)
  {
    ReachableKeeps(s);
    var p: nat :| p < |s.procs| && InitPending(s.procs[p].pc);
    WaitHolder(s, p);
  }

  /** Every exit of a slot is answered by at most one wait(), which it is still owed while a zombie. */
  lemma ReapedOnce(s: State, p: nat)
    requires Reachable(s) && p < |s.procs|
    ensures s.procs[p].exited == s.procs[p].reaped + (if s.procs[p].state == ZOMBIE then 1 else 0)
  {
    ReachableBase(s);
  }

  // ----- monitors ------------------------------------------------------------------------------

  /** No lost wakeup.  While the spinlock of a monitor is free and its condition holds, no process sleeps on
      the channel, and none has let go of the spinlock on its way to sleep there. */
  lemma NoLostWakeup(s: State, p: nat, k: nat)
    requires Reachable(s) && p < |s.procs| && HasLk(s, k) && s.spins[s.lk[k]].None? && s.mons[k].ready
    ensures !WaitsOn(p, s.procs[p], OfMonitor(k))
  {
    ReachableKeeps(s);
    NobodyPending(s, p, k);
    assert Ready(s.mons, k);
  }

  /** Who owes or runs a wakeup on a channel holds the spinlock that goes with it. */
  lemma PendingOwns(s: State, q: nat, k: nat, p: nat)
    requires Base(s) && HasLk(s, k) && q < |s.procs| && Pending(s.procs[q].pc, k, p)
    ensures OwnsSpin(s.lk, s.procs[q].pc, s.lk[k])
  {
    assert PcOk(|s.procs|, |s.spins|, s.lk, s.procs[q]);
  }

  lemma NobodyPending(s: State, p: nat, k: nat)
    requires Base(s) && HasLk(s, k) && s.spins[s.lk[k]].None?
    ensures !SomePending(s, k, p)
  {
    forall q: nat | q < |s.procs| ensures !Pending(s.procs[q].pc, k, p) {
      if Pending(s.procs[q].pc, k, p) {
        PendingOwns(s, q, k, p);
        SpinHolder(s, q, s.lk[k]);
      }
    }
  }

  /** A sleeper on a channel that is ready is about to be woken by the one holder of its spinlock. */
  lemma SleeperIsOwed(s: State, p: nat, k: nat) returns (q: nat)
    requires Reachable(s) && p < |s.procs| && HasLk(s, k) && s.mons[k].ready && WaitsOn(p, s.procs[p], OfMonitor(k))
    ensures q < |s.procs| && Pending(s.procs[q].pc, k, p) && s.spins[s.lk[k]].Some? && s.spins[s.lk[k]] == s.procs[q].on
  {
    ReachableKeeps(s);
    assert Ready(s.mons, k) && SomePending(s, k, p);
    q :| q < |s.procs| && Pending(s.procs[q].pc, k, p);
    PendingOwns(s, q, k, p);
    SpinHolder(s, q, s.lk[k]);
  }

  // ----- sleeplocks --------------------------------------------------------------------------

  lemma OneOwner(s: State, p: nat, q: nat, k: nat)
    requires Reachable(s) && p < |s.procs| && q < |s.procs|
    requires k in s.procs[p].has && k in s.procs[q].has
    ensures p == q && Locked(s.mons, k)
  {
    ReachableKeeps(s);
    assert LockedBy(s.mons, k, p) && LockedBy(s.mons, k, q);
  }

  /** The instance of NoLostWakeup for a sleeplock, which is ready while it is not locked. */
  lemma NoLostUnlock(s: State, p: nat, k: nat)
    requires Reachable(s) && p < |s.procs| && HasLk(s, k) && s.spins[s.lk[k]].None?
    requires IsLock(s.mons, k) && !Locked(s.mons, k)
    ensures !WaitsOn(p, s.procs[p], OfMonitor(k))
  {
    NoLostWakeup(s, p, k);
  }
}
