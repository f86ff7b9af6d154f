/**
 What every step of the process machine keeps.
 */
module ProcInvariant {
  import opened Common
  import opened ProcModel

  // ----- stacks, states and locks --------------------------------------------

  /** A CPU on a process's stack has c->proc set to it and its scheduler parked in swtch(). */
  predicate CpuOk(n: nat, cpu: Cpu) {
    && cpu.spc.i < n
    && match cpu.stack
       case OfProcess(p) => p < n && cpu.proc == Some(p) && cpu.spc == Switched(p)
       case OfScheduler => cpu.proc == if cpu.spc.Switched? then Some(cpu.spc.i) else None
  }

  /** What p->state may be, given where the thread is and whether a CPU is on its stack. */
  predicate StateOk(p: nat, q: Proc) {
    && q.exited == q.reaped + (if q.state == ZOMBIE then 1 else 0)
    && (if q.pc.Idle? then q.on == None && q.state == UNUSED && q.parent == None
        else if q.pc.Dead? then q.on == None && q.state == ZOMBIE
        else if q.pc.Exit5? || q.pc.Exit6? then q.on.Some? && q.state == ZOMBIE
        else if q.on.Some? then q.state == RUNNING
        else if q.pc.Entry? then q.state == USED || q.state == RUNNABLE
        else if q.pc.Yielded? then q.state == RUNNABLE
        else q.pc.Asleep? && (q.state == RUNNABLE || (q.state == SLEEPING && q.chan == SleepChan(p, q.pc.r))))
  }

  /** A thread in spinlock l owes wakeup() only on channels that go with it. */
  predicate OwesOk(lk: seq<nat>, l: nat, owed: set<nat>) { forall k <- owed :: IsLk(lk, k, l) }

  predicate PcOk(n: nat, ns: nat, lk: seq<nat>, q: Proc) {
    var pc := Core(q.pc);
    && (q.pc.Yielding? || q.pc.Yielded? ==> Interruptible(pc))
    && (pc.Sleep1? || pc.Sleep2? || pc.Sleep3? || pc.Asleep? || pc.Woken? ==> pc.r.InWait? || pc.r.k < |lk|)
    && (pc.Waking? ==> pc.m <= n && (pc.w.Unlock? ==> pc.w.k < |lk|) &&
                       (pc.w.Notify? ==> pc.w.l < ns && IsLk(lk, pc.w.k, pc.w.l) && OwesOk(lk, pc.w.l, pc.w.owed)))
    && (pc.Acquire1? || pc.Acquire2? || pc.Release1? || pc.Release2? || pc.Release3? ==> pc.k < |lk|)
    && (pc.Release1? || pc.Release2? ==> pc.k in q.has)
    && (pc.Enter? ==> pc.l < ns) && (pc.Inside? ==> pc.l < ns && OwesOk(lk, pc.l, pc.owed))
    && (pc.Fork2? || pc.Fork3? ==> pc.i < n)
  }

  ghost predicate Placed(s: State) {
    && INIT < |s.procs| && |s.lk| == |s.mons| && (forall k: nat | k < |s.lk| :: s.lk[k] < |s.spins|)
    && (forall c | 0 <= c < |s.cpus| :: CpuOk(|s.procs|, s.cpus[c]))
    && (forall p | 0 <= p < |s.procs| :: StateOk(p, s.procs[p]) && PcOk(|s.procs|, |s.spins|, s.lk, s.procs[p]))
    && (forall p: nat | p < |s.procs| && s.procs[p].on.Some? :: s.procs[p].on.value < |s.cpus|)
    && (forall p: nat, c: nat | p < |s.procs| && c < |s.cpus| ::
          s.procs[p].on == Some(c) <==> s.cpus[c].stack == OfProcess(p))
  }

  predicate HoldsProc(cpu: Cpu, p: nat, pc: Pc) {
    match cpu.stack
    case OfScheduler => !cpu.spc.Scan? && cpu.spc.i == p
    case OfProcess(q) => q == p && OwnsSelf(pc)
  }

  predicate HoldsWait(s: State, cpu: Cpu) {
    cpu.stack.OfProcess? && cpu.stack.p < |s.procs| && OwnsWait(s.procs[cpu.stack.p].pc)
  }

  predicate HoldsSpin(s: State, cpu: Cpu, l: nat) {
    cpu.stack.OfProcess? && cpu.stack.p < |s.procs| && OwnsSpin(s.lk, s.procs[cpu.stack.p].pc, l)
  }

  /** Every p->lock is held by exactly the CPU whose current thread is inside it. */
  ghost predicate ProcLocked(s: State) {
    && (forall p | 0 <= p < |s.procs| && s.procs[p].lock.Some? :: s.procs[p].lock.value < |s.cpus|)
    && (forall p: nat, c: nat | p < |s.procs| && c < |s.cpus| ::
          s.procs[p].lock == Some(c) <==> HoldsProc(s.cpus[c], p, s.procs[p].pc))
  }

  /** So is wait_lock. */
  ghost predicate WaitLocked(s: State) {
    && (s.waitLock.Some? ==> s.waitLock.value < |s.cpus|)
    && (forall c: nat | c < |s.cpus| :: s.waitLock == Some(c) <==> HoldsWait(s, s.cpus[c]))
  }

  /** So is every other spinlock. */
  ghost predicate SpinLocked(s: State) {
    && (forall l | 0 <= l < |s.spins| && s.spins[l].Some? :: s.spins[l].value < |s.cpus|)
    && (forall l: nat, c: nat | l < |s.spins| && c < |s.cpus| :: s.spins[l] == Some(c) <==> HoldsSpin(s, s.cpus[c], l))
  }

  ghost predicate Base(s: State) {
    Placed(s) && ProcLocked(s) && WaitLocked(s) && SpinLocked(s)
  }

  // ----- one step changes one CPU and one or two processes ---------------------

  /** The CPU is busy with process p, or holds no p->lock at all. */
  predicate About(cpu: Cpu, p: nat) {
    match cpu.stack
    case OfProcess(q) => q == p
    case OfScheduler => cpu.spc.Scan? || cpu.spc.i == p
  }

  /** CPU c and process p change together, in a way that only they can tell. */
  predicate LocalChange(s: State, t: State, c: nat, p: nat) {
    && c < |s.cpus| == |t.cpus| && p < |s.procs| == |t.procs| && |t.spins| == |s.spins| && t.lk == s.lk &&
      |t.mons| == |s.mons|
    && t.procs == s.procs[p := t.procs[p]] && t.cpus == s.cpus[c := t.cpus[c]]
    && About(s.cpus[c], p) && About(t.cpus[c], p)
  }

  /** Where the new p and c are agrees. */
  predicate LocalPlaced(s: State, t: State, c: nat, p: nat)
    requires LocalChange(s, t, c, p)
  {
    && CpuOk(|s.procs|, t.cpus[c])
    && StateOk(p, t.procs[p]) && PcOk(|s.procs|, |s.spins|, s.lk, t.procs[p])
    && (t.procs[p].on == s.procs[p].on || (s.procs[p].on.None? && t.procs[p].on == Some(c))
        || (s.procs[p].on == Some(c) && t.procs[p].on.None?))
    && (t.procs[p].on == Some(c) <==> t.cpus[c].stack == OfProcess(p))
    && (t.cpus[c].stack.OfScheduler? || t.cpus[c].stack == OfProcess(p))
  }

  /** A lock that is taken was free, one that is given up was held by c. */
  predicate Handed(was: Option<nat>, now: Option<nat>, c: nat) {
    was == now || (was == None && now == Some(c)) || (was == Some(c) && now == None)
  }

  predicate LocalLocked(s: State, t: State, c: nat, p: nat)
    requires LocalChange(s, t, c, p)
  {
    && (t.procs[p].pc == s.procs[p].pc || s.procs[p].on.None? || s.procs[p].on == Some(c))
    && Handed(s.procs[p].lock, t.procs[p].lock, c)
    && (t.procs[p].lock == Some(c) <==> HoldsProc(t.cpus[c], p, t.procs[p].pc))
    && Handed(s.waitLock, t.waitLock, c)
    && (t.waitLock == Some(c) <==> HoldsWait(t, t.cpus[c]))
  }

  /** The other spinlocks. */
  predicate LocalSpin(s: State, t: State, c: nat, p: nat)
    requires LocalChange(s, t, c, p)
  {
    forall l: nat | l < |s.spins| ::
      Handed(s.spins[l], t.spins[l], c) && (t.spins[l] == Some(c) <==> HoldsSpin(t, t.cpus[c], l))
  }

  lemma LocalPlacedKept(s: State, t: State, c: nat, p: nat)
    requires Base(s) && LocalChange(s, t, c, p) && LocalPlaced(s, t, c, p)
    ensures Placed(t)
  {
  }

  lemma LocalProcLockedKept(s: State, t: State, c: nat, p: nat)
    requires Base(s) && LocalChange(s, t, c, p) && LocalPlaced(s, t, c, p) && LocalLocked(s, t, c, p)
    ensures ProcLocked(t)
  {
  }

  lemma LocalWaitLockedKept(s: State, t: State, c: nat, p: nat)
    requires Base(s) && LocalChange(s, t, c, p) && LocalPlaced(s, t, c, p) && LocalLocked(s, t, c, p)
    ensures WaitLocked(t)
  {
  }

  lemma LocalSpinLockedKept(s: State, t: State, c: nat, p: nat)
    requires Base(s) && LocalChange(s, t, c, p) && LocalPlaced(s, t, c, p) && LocalLocked(s, t, c, p)
    requires LocalSpin(s, t, c, p)
    ensures SpinLocked(t)
  {
  }

  lemma LocalKept(s: State, t: State, c: nat, p: nat)
    requires Base(s) && LocalChange(s, t, c, p) && LocalPlaced(s, t, c, p) && LocalLocked(s, t, c, p)
    requires LocalSpin(s, t, c, p)
    ensures Base(t)
  {
    LocalPlacedKept(s, t, c, p);
    LocalProcLockedKept(s, t, c, p);
    LocalWaitLockedKept(s, t, c, p);
    LocalSpinLockedKept(s, t, c, p);
  }

  /** A process changes that keeps its place and its lock: what one thread does to another. */
  predicate OtherChange(s: State, t: State, j: nat) {
    && j < |s.procs| == |t.procs|
    && t == s.(procs := s.procs[j := t.procs[j]])
    && t.procs[j].on == s.procs[j].on && t.procs[j].lock == s.procs[j].lock
    && (t.procs[j].pc == s.procs[j].pc || s.procs[j].on.None?)
    && StateOk(j, t.procs[j]) && PcOk(|s.procs|, |s.spins|, s.lk, t.procs[j])
  }

  /** What CPU c, on the stack of p, knows of the two of them. */
  ghost predicate Here(s: State, c: nat, p: nat) {
    && At(s, c, p) && CpuOk(|s.procs|, s.cpus[c]) && s.procs[p].on == Some(c)
    && StateOk(p, s.procs[p]) && PcOk(|s.procs|, |s.spins|, s.lk, s.procs[p])
    && (s.procs[p].lock == Some(c) <==> OwnsSelf(s.procs[p].pc))
    && (s.waitLock == Some(c) <==> OwnsWait(s.procs[p].pc))
    && (forall l: nat | l < |s.spins| :: s.spins[l] == Some(c) <==> OwnsSpin(s.lk, s.procs[p].pc, l))
    && |s.lk| == |s.mons| && (forall k: nat | k < |s.lk| :: s.lk[k] < |s.spins|)
  }

  lemma BaseHere(s: State, c: nat, p: nat)
    requires Base(s) && At(s, c, p)
    ensures Here(s, c, p)
  {
    assert HoldsProc(s.cpus[c], p, s.procs[p].pc) == OwnsSelf(s.procs[p].pc);
    assert forall l: nat | l < |s.spins| :: HoldsSpin(s, s.cpus[c], l) == OwnsSpin(s.lk, s.procs[p].pc, l);
  }

  /** A running process is on the stack of the CPU it says. */
  lemma OnStack(s: State, p: nat)
    requires Base(s) && p < |s.procs| && s.procs[p].on.Some?
    ensures At(s, s.procs[p].on.value, p)
  {
  }

  lemma OnHere(s: State, p: nat)
    requires Base(s) && p < |s.procs| && s.procs[p].on.Some?
    ensures Here(s, s.procs[p].on.value, p)
  {
    OnStack(s, p);
    BaseHere(s, s.procs[p].on.value, p);
  }

  /** A thread outside monitors moves on, perhaps taking or releasing wait_lock on the way. */
  ghost predicate MoveOk(s: State, c: nat, p: nat, pc: Pc, w: Option<nat>) {
    && At(s, c, p)
    && StateOk(p, s.procs[p].(pc := pc)) && PcOk(|s.procs|, |s.spins|, s.lk, s.procs[p].(pc := pc))
    && OwnsSelf(pc) == OwnsSelf(s.procs[p].pc)
    && (forall l: nat :: !OwnsSpin(s.lk, pc, l) && !OwnsSpin(s.lk, s.procs[p].pc, l))
    && Handed(s.waitLock, w, c) && (w == Some(c) <==> OwnsWait(pc))
  }

  lemma MoveKept(s: State, c: nat, p: nat, pc: Pc, w: Option<nat>)
    requires Base(s) && MoveOk(s, c, p, pc, w)
    ensures Base(Goto(s, p, pc).(waitLock := w))
  {
    LocalKept(s, Goto(s, p, pc).(waitLock := w), c, p);
  }

  lemma OtherPlacedKept(s: State, t: State, j: nat)
    requires Base(s) && OtherChange(s, t, j)
    ensures Placed(t)
  {
  }

  lemma OtherProcLockedKept(s: State, t: State, j: nat)
    requires Base(s) && OtherChange(s, t, j)
    ensures ProcLocked(t)
  {
    assert forall c: nat | c < |s.cpus| ::
             HoldsProc(t.cpus[c], j, t.procs[j].pc) == HoldsProc(s.cpus[c], j, s.procs[j].pc);
  }

  lemma OtherWaitLockedKept(s: State, t: State, j: nat)
    requires Base(s) && OtherChange(s, t, j)
    ensures WaitLocked(t)
  {
    assert forall c: nat | c < |s.cpus| :: HoldsWait(t, t.cpus[c]) == HoldsWait(s, s.cpus[c]);
  }

  lemma OtherSpinLockedKept(s: State, t: State, j: nat)
    requires Base(s) && OtherChange(s, t, j)
    ensures SpinLocked(t)
  {
    assert forall c: nat, l: nat | c < |s.cpus| && l < |s.spins| ::
           HoldsSpin(t, t.cpus[c], l) == HoldsSpin(s, s.cpus[c], l);
  }

  lemma OtherKept(s: State, t: State, j: nat)
    requires Base(s) && OtherChange(s, t, j)
    ensures Base(t)
  {
    OtherPlacedKept(s, t, j);
    OtherProcLockedKept(s, t, j);
    OtherWaitLockedKept(s, t, j);
    OtherSpinLockedKept(s, t, j);
  }

  ghost predicate Local(s: State, t: State, c: nat, p: nat) {
    LocalChange(s, t, c, p) && LocalPlaced(s, t, c, p) && LocalLocked(s, t, c, p) && LocalSpin(s, t, c, p)
  }

  /** A process that the scheduler takes up holds no spinlock but its own. */
  lemma RunnableHolds(s: State, i: nat)
    requires Base(s) && i < |s.procs| && s.procs[i].state == RUNNABLE
    ensures OwnsSelf(s.procs[i].pc) && !OwnsWait(s.procs[i].pc) && s.procs[i].on.None?
    ensures forall l: nat :: !OwnsSpin(s.lk, s.procs[i].pc, l)
  {
  }

  lemma DispatchBase(s: State, c: nat, i: nat)
    requires Base(s) && SchedEnabled(s, c) && s.cpus[c].spc == Holding(i) && s.procs[i].state == RUNNABLE
    ensures Base(SchedNext(s, c))
  {
    RunnableHolds(s, i);
    LocalKept(s, SchedNext(s, c), c, i);
  }

  lemma SchedBase(s: State, c: nat)
    requires Base(s) && SchedEnabled(s, c)
    ensures Base(SchedNext(s, c))
  {
    var i := s.cpus[c].spc.i;
    if s.cpus[c].spc.Holding? && s.procs[i].state == RUNNABLE {
      DispatchBase(s, c, i);
    } else {
      LocalKept(s, SchedNext(s, c), c, i);
    }
  }

  lemma PreemptLocal(s: State, c: nat, p: nat)
    requires Here(s, c, p) && SwitchEnabled(s, c, p, Preempted)
    ensures Local(s, SwitchNext(s, c, p, Preempted), c, p)
  {
  }

  lemma SwitchLocal(s: State, c: nat, p: nat, ch: Choice)
    requires Here(s, c, p) && SwitchEnabled(s, c, p, ch)
    ensures Local(s, SwitchNext(s, c, p, ch), c, p)
  {
    if ch.Preempted? { PreemptLocal(s, c, p); }
  }

  lemma SwitchBase(s: State, c: nat, p: nat, ch: Choice)
    requires Base(s) && SwitchEnabled(s, c, p, ch)
    ensures Base(SwitchNext(s, c, p, ch))
  {
    BaseHere(s, c, p);
    SwitchLocal(s, c, p, ch);
    LocalKept(s, SwitchNext(s, c, p, ch), c, p);
  }

  lemma SleepReleaseLocal(s: State, c: nat, p: nat)
    requires Here(s, c, p) && SleepEnabled(s, c, p) && s.procs[p].pc.Sleep2?
    ensures Local(s, SleepNext(s, c, p), c, p)
  {
  }

  lemma SleepReacquireLocal(s: State, c: nat, p: nat)
    requires Here(s, c, p) && SleepEnabled(s, c, p) && s.procs[p].pc.Woken?
    ensures Local(s, SleepNext(s, c, p), c, p)
  {
  }

  lemma SleepLocal(s: State, c: nat, p: nat)
    requires Here(s, c, p) && SleepEnabled(s, c, p)
    ensures Local(s, SleepNext(s, c, p), c, p)
  {
    if s.procs[p].pc.Sleep2? {
      SleepReleaseLocal(s, c, p);
    } else if s.procs[p].pc.Woken? {
      SleepReacquireLocal(s, c, p);
    }
  }

  lemma SleepBase(s: State, c: nat, p: nat)
    requires Base(s) && SleepEnabled(s, c, p)
    ensures Base(SleepNext(s, c, p))
  {
    BaseHere(s, c, p);
    SleepLocal(s, c, p);
    LocalKept(s, SleepNext(s, c, p), c, p);
  }

  lemma RouseKept(s: State, j: nat, ch: Chan)
    requires Base(s) && j < |s.procs|
    ensures Base(SetProc(s, j, Roused(s.procs[j], ch)))
  {
    OtherKept(s, SetProc(s, j, Roused(s.procs[j], ch)), j);
  }

  lemma WakeMoveBase(s: State, c: nat, p: nat, pc: Pc)
    requires Base(s) && At(s, c, p) && s.procs[p].pc.Waking? && PcOk(|s.procs|, |s.spins|, s.lk, s.procs[p].(pc := pc))
    requires pc == AfterWakeup(s.procs[p].pc.w) || (pc.Waking? && pc.w == s.procs[p].pc.w)
    ensures Base(Goto(s, p, pc))
  {
    var was := s.procs[p].pc;
    assert OwnsSelf(pc) == OwnsSelf(was) && OwnsWait(pc) == OwnsWait(was);
    assert forall l: nat :: OwnsSpin(s.lk, pc, l) == OwnsSpin(s.lk, was, l);
    LocalKept(s, Goto(s, p, pc), c, p);
  }

  lemma WakeBase(s: State, c: nat, p: nat)
    requires Base(s) && WakeEnabled(s, c, p)
    ensures Base(WakeNext(s, c, p))
  {
    var w, m, t := s.procs[p].pc.w, s.procs[p].pc.m, WakeNext(s, c, p);
    WakeMoveBase(s, c, p, t.procs[p].pc);
    var u := Goto(s, p, t.procs[p].pc);
    if m < |s.procs| && m != p {
      RouseKept(u, m, WakeChan(s, p, w));
      assert t == SetProc(u, m, Roused(u.procs[m], WakeChan(s, p, w)));
    } else {
      assert t == u;
    }
  }

  lemma MonitorSpinLocal(s: State, c: nat, p: nat)
    requires Here(s, c, p) && MonitorEnabled(s, c, p, Go)
    ensures Local(s, MonitorNext(s, c, p, Go), c, p)
  {
  }

  lemma MonitorInsideLocal(s: State, c: nat, p: nat, ch: Choice)
    requires Here(s, c, p) && MonitorEnabled(s, c, p, ch) && s.procs[p].pc.Inside? && !ch.Go?
    ensures Local(s, MonitorNext(s, c, p, ch), c, p)
  {
    var pc := MonitorNext(s, c, p, ch).procs[p].pc;
    assert forall l: nat :: OwnsSpin(s.lk, pc, l) == OwnsSpin(s.lk, s.procs[p].pc, l);
  }

  lemma MonitorBase(s: State, c: nat, p: nat, ch: Choice)
    requires Base(s) && MonitorEnabled(s, c, p, ch)
    ensures Base(MonitorNext(s, c, p, ch))
  {
    BaseHere(s, c, p);
    if s.procs[p].pc.Out? {
      MoveKept(s, c, p, Enter(ch.l), s.waitLock);
    } else {
      if ch.Go? { MonitorSpinLocal(s, c, p); } else { MonitorInsideLocal(s, c, p, ch); }
      LocalKept(s, MonitorNext(s, c, p, ch), c, p);
    }
  }

  lemma LockTestLocal(s: State, c: nat, p: nat)
    requires Here(s, c, p) && LockEnabled(s, c, p, Go) && (s.procs[p].pc.Acquire2? || s.procs[p].pc.Release2?)
    ensures Local(s, LockNext(s, c, p, Go), c, p)
  {
  }

  lemma LockSpinLocal(s: State, c: nat, p: nat)
    requires Here(s, c, p) && LockEnabled(s, c, p, Go)
    requires s.procs[p].pc.Acquire1? || s.procs[p].pc.Release1? || s.procs[p].pc.Release3?
    ensures Local(s, LockNext(s, c, p, Go), c, p)
  {
  }

  lemma LockBase(s: State, c: nat, p: nat, ch: Choice)
    requires Base(s) && LockEnabled(s, c, p, ch)
    requires forall k | k in s.procs[p].has :: k < |s.mons|
    ensures Base(LockNext(s, c, p, ch))
  {
    BaseHere(s, c, p);
    if s.procs[p].pc.Acquire2? || s.procs[p].pc.Release2? {
      LockTestLocal(s, c, p);
      LocalKept(s, LockNext(s, c, p, ch), c, p);
    } else if s.procs[p].pc.Out? {
      MoveKept(s, c, p, LockNext(s, c, p, ch).procs[p].pc, s.waitLock);
    } else {
      LockSpinLocal(s, c, p);
      LocalKept(s, LockNext(s, c, p, ch), c, p);
    }
  }

  lemma ExitMove(s: State, c: nat, p: nat, ch: Choice)
    requires Here(s, c, p) && ExitEnabled(s, c, p, ch) && !s.procs[p].pc.Exit3? && !s.procs[p].pc.Exit4? &&
             !s.procs[p].pc.Exit6?
    ensures MoveOk(s, c, p, ExitNext(s, c, p, ch).procs[p].pc, ExitNext(s, c, p, ch).waitLock)
  {
  }

  lemma ReparentKept(s: State, i: nat, q: nat)
    requires Base(s) && i < |s.procs| && s.procs[i].parent.Some?
    ensures Base(SetProc(s, i, s.procs[i].(parent := Some(q))))
  {
    OtherKept(s, SetProc(s, i, s.procs[i].(parent := Some(q))), i);
  }

  lemma ExitScanBase(s: State, c: nat, p: nat)
    requires Base(s) && ExitEnabled(s, c, p, Go) && s.procs[p].pc.Exit2?
    ensures Base(ExitNext(s, c, p, Go))
  {
    var i, t := s.procs[p].pc.i, ExitNext(s, c, p, Go);
    BaseHere(s, c, p);
    ExitMove(s, c, p, Go);
    MoveKept(s, c, p, t.procs[p].pc, s.waitLock);
    var u := Goto(s, p, t.procs[p].pc);
    if i < |s.procs| && s.procs[i].parent == Some(p) {
      ReparentKept(u, i, INIT);
      assert t == SetProc(u, i, u.procs[i].(parent := Some(INIT)));
    } else {
      assert t == u;
    }
  }

  lemma ExitLockBase(s: State, c: nat, p: nat)
    requires Base(s) && ExitEnabled(s, c, p, Go)
    requires s.procs[p].pc.Exit3? || s.procs[p].pc.Exit4? || s.procs[p].pc.Exit6?
    ensures Base(ExitNext(s, c, p, Go))
  {
    LocalKept(s, ExitNext(s, c, p, Go), c, p);
  }

  lemma ExitBase(s: State, c: nat, p: nat, ch: Choice)
    requires Base(s) && ExitEnabled(s, c, p, ch)
    ensures Base(ExitNext(s, c, p, ch))
  {
    var pc, t := s.procs[p].pc, ExitNext(s, c, p, ch);
    if pc.Exit2? {
      ExitScanBase(s, c, p);
    } else if pc.Exit3? || pc.Exit4? || pc.Exit6? {
      ExitLockBase(s, c, p);
    } else {
      BaseHere(s, c, p);
      ExitMove(s, c, p, ch);
      MoveKept(s, c, p, t.procs[p].pc, t.waitLock);
    }
  }

  /** wait() finds a zombie child and can copy out its status. */
  predicate Reaps(s: State, p: nat, ch: Choice)
    requires p < |s.procs|
  {
    var pc := s.procs[p].pc;
    pc.Wait2? && pc.i < |s.procs| && s.procs[pc.i].parent == Some(p) && s.procs[pc.i].state == ZOMBIE && ch.Go?
  }

  lemma WaitMove(s: State, c: nat, p: nat, ch: Choice)
    requires Here(s, c, p) && WaitEnabled(s, c, p, ch) && !Reaps(s, p, ch)
    ensures var t := WaitNext(s, c, p, ch);
            MoveOk(s, c, p, t.procs[p].pc, t.waitLock) && t == Goto(s, p, t.procs[p].pc).(waitLock := t.waitLock)
  {
  }

  lemma ReapKept(s: State, i: nat)
    requires Base(s) && i < |s.procs| && s.procs[i].state == ZOMBIE && s.procs[i].pc.Dead?
    ensures Base(SetProc(s, i, Freed(s.procs[i]).(reaped := s.procs[i].reaped + 1)))
  {
    OtherKept(s, SetProc(s, i, Freed(s.procs[i]).(reaped := s.procs[i].reaped + 1)), i);
  }

  lemma ReapMove(s: State, c: nat, p: nat)
    requires Here(s, c, p) && s.procs[p].pc.Wait2?
    ensures MoveOk(s, c, p, Wait3, s.waitLock)
  {
  }

  lemma ReapMoveBase(s: State, c: nat, p: nat)
    requires Base(s) && At(s, c, p) && s.procs[p].pc.Wait2?
    ensures Base(Goto(s, p, Wait3))
  {
    BaseHere(s, c, p);
    ReapMove(s, c, p);
    MoveKept(s, c, p, Wait3, s.waitLock);
    assert Goto(s, p, Wait3).(waitLock := s.waitLock) == Goto(s, p, Wait3);
  }

  lemma ReapStep(s: State, c: nat, p: nat, i: nat, u: State)
    requires WaitEnabled(s, c, p, Go) && Reaps(s, p, Go) && s.procs[p].pc.i == i && s.procs[i].pc.Dead? &&
             u == Goto(s, p, Wait3)
    ensures i < |u.procs| && u.procs[i].state == ZOMBIE && u.procs[i].pc.Dead?
    ensures WaitNext(s, c, p, Go) == SetProc(u, i, Freed(u.procs[i]).(reaped := u.procs[i].reaped + 1))
  {
  }

  lemma WaitReapBase(s: State, c: nat, p: nat, i: nat)
    requires Base(s) && WaitEnabled(s, c, p, Go) && Reaps(s, p, Go) && s.procs[p].pc.i == i && s.procs[i].pc.Dead?
    ensures Base(WaitNext(s, c, p, Go))
  {
    var u := Goto(s, p, Wait3);
    ReapMoveBase(s, c, p);
    ReapStep(s, c, p, i, u);
    ReapKept(u, i);
  }

  lemma WaitBase(s: State, c: nat, p: nat, ch: Choice)
    requires Base(s) && WaitEnabled(s, c, p, ch) && (Reaps(s, p, ch) ==> s.procs[s.procs[p].pc.i].pc.Dead?)
    ensures Base(WaitNext(s, c, p, ch))
  {
    BaseHere(s, c, p);
    var t := WaitNext(s, c, p, ch);
    if Reaps(s, p, ch) {
      WaitReapBase(s, c, p, s.procs[p].pc.i);
    } else {
      WaitMove(s, c, p, ch);
      MoveKept(s, c, p, t.procs[p].pc, t.waitLock);
    }
  }

  /** The slot fork() is filling. */
  function ForkTarget(pc: Pc): (i: Option<nat>) {
    if Core(pc).Fork2? || Core(pc).Fork3? then Some(Core(pc).i) else None
  }

  lemma ForkMove(s: State, c: nat, p: nat, ch: Choice)
    requires Here(s, c, p) && ForkEnabled(s, c, p, ch) && s.procs[p].pc.Fork1? && StateOk(p, s.procs[p])
    ensures MoveOk(s, c, p, ForkNext(s, c, p, ch).procs[p].pc, s.waitLock)
  {
  }

  lemma ForkAllocBase(s: State, c: nat, p: nat, ch: Choice)
    requires Base(s) && ForkEnabled(s, c, p, ch) && s.procs[p].pc.Fork1?
    ensures Base(ForkNext(s, c, p, ch))
  {
    var i, t := s.procs[p].pc.i, ForkNext(s, c, p, ch);
    var u := Goto(s, p, t.procs[p].pc);
    BaseHere(s, c, p);
    ForkMove(s, c, p, ch);
    MoveKept(s, c, p, t.procs[p].pc, s.waitLock);
    if t.procs[p].pc.Fork2? {
      OtherKept(u, t, i);
    } else {
      assert t == u;
    }
  }

  lemma ForkFillBase(s: State, c: nat, p: nat)
    requires Base(s) && ForkEnabled(s, c, p, Go) && (s.procs[p].pc.Fork2? || s.procs[p].pc.Fork3?)
    requires s.procs[s.procs[p].pc.i].state == USED
    ensures Base(ForkNext(s, c, p, Go))
  {
    var i, t := s.procs[p].pc.i, ForkNext(s, c, p, Go);
    MoveKept(s, c, p, t.procs[p].pc, s.waitLock);
    OtherKept(Goto(s, p, t.procs[p].pc), t, i);
  }

  lemma ForkBase(s: State, c: nat, p: nat, ch: Choice)
    requires Base(s) && ForkEnabled(s, c, p, ch)
    requires s.procs[p].pc.Fork2? || s.procs[p].pc.Fork3? ==> s.procs[s.procs[p].pc.i].state == USED
    ensures Base(ForkNext(s, c, p, ch))
  {
    if s.procs[p].pc.Fork1? {
      ForkAllocBase(s, c, p, ch);
    } else if s.procs[p].pc.Out? {
      MoveKept(s, c, p, Fork1(0), s.waitLock);
    } else {
      ForkFillBase(s, c, p);
    }
  }

  lemma KillBase(s: State, c: nat, p: nat, ch: Choice)
    requires Base(s) && KillEnabled(s, c, p, ch)
    ensures Base(KillNext(s, c, p, ch))
  {
    OtherKept(s, KillNext(s, c, p, ch), ch.j);
  }

  // ----- parents and children ---------------------------------------------------

  /** Process q, with its thread at pc, is nobody's parent among the first Bound processes: exit()
      has handed those to initproc; a slot that never ran or has exited has no children at all. */
  function Bound(n: nat, pc: Pc): (b: nat) {
    if pc.Idle? || pc.Entry? || pc.Dead? || pc.Exit3? || pc.Exit4? || pc.Exit5? || pc.Exit6? then n
    else if pc.Exit2? then pc.i
    else if pc.Waking? && pc.w.ExitParent? then n
    else if pc.Waking? && pc.w.Reparent? then pc.w.i + 1
    else 0
  }

  predicate InExit(pc: Pc) {
    || Core(pc).Exit1? || pc.Exit2? || pc.Exit3? || pc.Exit4? || pc.Exit5? || pc.Exit6? || pc.Dead?
    || (pc.Waking? && OfExit(pc.w))
  }

  ghost predicate ParentsOk(s: State) {
    && (forall j: nat | j < |s.procs| && s.procs[j].parent.Some? :: s.procs[j].parent.value < |s.procs|)
    && (forall j: nat, q: nat | j < |s.procs| && q < |s.procs| && q != INIT && s.procs[j].parent == Some(q) ::
          j >= Bound(|s.procs|, s.procs[q].pc))
  }

  /** A slot that fork() is filling is filled by one process only, and stays USED meanwhile. */
  ghost predicate ForksOk(s: State) {
    && (forall p: nat, i: nat | p < |s.procs| && i < |s.procs| && ForkTarget(s.procs[p].pc) == Some(i) ::
          s.procs[i].state == USED)
    && (forall p: nat, q: nat | p < q < |s.procs| && ForkTarget(s.procs[p].pc).Some? ::
          ForkTarget(s.procs[p].pc) != ForkTarget(s.procs[q].pc))
  }

  /** initproc never exits. */
  ghost predicate InitOk(s: State) {
    && INIT < |s.procs|
    && !InExit(s.procs[INIT].pc) && !s.procs[INIT].pc.Idle?
  }

  ghost predicate Families(s: State) { ParentsOk(s) && ForksOk(s) && InitOk(s) }

  /** A thread moves from a to b without touching a parent or a fork, and without taking on exit(). */
  predicate PcMove(n: nat, a: Pc, b: Pc) {
    && (ForkTarget(b) == ForkTarget(a) || ForkTarget(b).None?)
    && a.Idle? == b.Idle? && (b.Entry? ==> a.Entry?)
    && (InExit(b) ==> InExit(a))
    && Bound(n, b) <= Bound(n, a)
  }

  /** Process p becomes q and keeps its parent. */
  predicate Moved(s: State, t: State, p: nat) {
    && p < |s.procs| == |t.procs|
    && t.procs == s.procs[p := t.procs[p]]
    && t.procs[p].parent == s.procs[p].parent
    && (s.procs[p].state == USED ==> t.procs[p].state == USED)
  }

  lemma MovedFamilies(s: State, t: State, p: nat)
    requires Families(s) && Moved(s, t, p) && PcMove(|s.procs|, s.procs[p].pc, t.procs[p].pc)
    ensures Families(t)
  {
  }

  /** exit() moves on: the processes below the new bound are not its children. */
  lemma ExitMovedFamilies(s: State, t: State, p: nat)
    requires Families(s) && Moved(s, t, p) && p != INIT
    requires ForkTarget(t.procs[p].pc) == ForkTarget(s.procs[p].pc) == None
    requires !t.procs[p].pc.Idle? && !s.procs[p].pc.Idle? && !t.procs[p].pc.Entry?
    requires forall j: nat | j < |s.procs| && s.procs[j].parent == Some(p) :: j >= Bound(|s.procs|, t.procs[p].pc)
    ensures Families(t)
  {
  }

  lemma SchedFamilies(s: State, c: nat)
    requires Families(s) && SchedEnabled(s, c)
    ensures Families(SchedNext(s, c))
  {
    MovedFamilies(s, SchedNext(s, c), s.cpus[c].spc.i);
  }

  lemma SwitchFamilies(s: State, c: nat, p: nat, ch: Choice)
    requires Families(s) && SwitchEnabled(s, c, p, ch) && StateOk(p, s.procs[p])
    requires PcOk(|s.procs|, |s.spins|, s.lk, s.procs[p])
    ensures Families(SwitchNext(s, c, p, ch))
  {
    var t := SwitchNext(s, c, p, ch);
    assert PcMove(|s.procs|, s.procs[p].pc, t.procs[p].pc);
    MovedFamilies(s, t, p);
  }

  lemma SleepFamilies(s: State, c: nat, p: nat)
    requires Families(s) && SleepEnabled(s, c, p) && StateOk(p, s.procs[p])
    ensures Families(SleepNext(s, c, p))
  {
    var t := SleepNext(s, c, p);
    assert PcMove(|s.procs|, s.procs[p].pc, t.procs[p].pc);
    MovedFamilies(s, t, p);
  }

  lemma RouseFamilies(s: State, j: nat, q: Proc)
    requires Families(s) && j < |s.procs| && s.procs[j].state == SLEEPING && q == s.procs[j].(state := RUNNABLE)
    ensures Families(SetProc(s, j, q))
  {
    MovedFamilies(s, SetProc(s, j, q), j);
  }

  lemma WakeFamilies(s: State, c: nat, p: nat)
    requires Families(s) && WakeEnabled(s, c, p) && StateOk(p, s.procs[p])
    ensures Families(WakeNext(s, c, p))
  {
    var w, m, t := s.procs[p].pc.w, s.procs[p].pc.m, WakeNext(s, c, p);
    var u := Goto(s, p, t.procs[p].pc);
    assert PcMove(|s.procs|, s.procs[p].pc, t.procs[p].pc);
    MovedFamilies(s, u, p);
    if t != u { RouseFamilies(u, m, t.procs[m]); }
  }

  lemma MonitorFamilies(s: State, c: nat, p: nat, ch: Choice)
    requires Families(s) && MonitorEnabled(s, c, p, ch) && StateOk(p, s.procs[p])
    ensures Families(MonitorNext(s, c, p, ch))
  {
    var t := MonitorNext(s, c, p, ch);
    assert PcMove(|s.procs|, s.procs[p].pc, t.procs[p].pc);
    MovedFamilies(s, t, p);
  }

  lemma LockFamilies(s: State, c: nat, p: nat, ch: Choice)
    requires Families(s) && LockEnabled(s, c, p, ch) && StateOk(p, s.procs[p])
    ensures Families(LockNext(s, c, p, ch))
  {
    var t := LockNext(s, c, p, ch);
    assert PcMove(|s.procs|, s.procs[p].pc, t.procs[p].pc);
    MovedFamilies(s, t, p);
  }

  /** Process i gets a parent that is not exiting. */
  lemma ParentFamilies(s: State, i: nat, q: nat)
    requires Families(s) && i < |s.procs| && q < |s.procs| && (q == INIT || Bound(|s.procs|, s.procs[q].pc) == 0)
    ensures Families(SetProc(s, i, s.procs[i].(parent := Some(q))))
  {
  }

  lemma ReparentFamilies(s: State, t: State, p: nat, i: nat)
    requires Families(s) && p < |s.procs| && p != INIT && s.procs[p].pc == Exit2(i) && i < |s.procs|
    requires s.procs[p].state == RUNNING
    requires t == Goto(SetProc(s, i, s.procs[i].(parent := Some(INIT))), p, Waking(Reparent(i), 0))
    ensures Families(t)
  {
    ParentFamilies(s, i, INIT);
    ExitMovedFamilies(SetProc(s, i, s.procs[i].(parent := Some(INIT))), t, p);
  }

  /** exit() is at a child of its own, for initproc to take over. */
  predicate Reparents(s: State, p: nat) {
    p < |s.procs| && s.procs[p].pc.Exit2? && s.procs[p].pc.i < |s.procs| && s.procs[s.procs[p].pc.i].parent == Some(p)
  }

  lemma ExitMovesOnly(s: State, c: nat, p: nat, ch: Choice)
    requires InitOk(s) && ExitEnabled(s, c, p, ch) && StateOk(p, s.procs[p]) && !Reparents(s, p)
    ensures Moved(s, ExitNext(s, c, p, ch), p) && p != INIT
    ensures var pc := ExitNext(s, c, p, ch).procs[p].pc;
            !pc.Idle? && !pc.Entry? && ForkTarget(pc) == ForkTarget(s.procs[p].pc) == None
  {
    assert s.procs[p].pc.Out? || InExit(s.procs[p].pc);
  }

  lemma ExitMoves(s: State, c: nat, p: nat, ch: Choice)
    requires Families(s) && ExitEnabled(s, c, p, ch) && StateOk(p, s.procs[p]) && !Reparents(s, p)
    ensures Families(ExitNext(s, c, p, ch))
  {
    var t, pc := ExitNext(s, c, p, ch), s.procs[p].pc;
    ExitMovesOnly(s, c, p, ch);
    assert forall j: nat | j < |s.procs| && s.procs[j].parent == Some(p) :: j >= Bound(|s.procs|, pc);
    ExitMovedFamilies(s, t, p);
  }

  lemma ExitFamilies(s: State, c: nat, p: nat, ch: Choice)
    requires Families(s) && ExitEnabled(s, c, p, ch) && StateOk(p, s.procs[p])
    ensures Families(ExitNext(s, c, p, ch))
  {
    if Reparents(s, p) {
      ReparentFamilies(s, ExitNext(s, c, p, ch), p, s.procs[p].pc.i);
    } else {
      ExitMoves(s, c, p, ch);
    }
  }

  lemma ReapFamilies(s: State, t: State, i: nat)
    requires Families(s) && i < |s.procs| && s.procs[i].state == ZOMBIE && s.procs[i].pc.Dead?
    requires t.procs == s.procs[i := Freed(s.procs[i]).(reaped := s.procs[i].reaped + 1)]
    ensures Families(t)
  {
  }

  lemma WaitReapFamilies(s: State, t: State, p: nat, i: nat)
    requires Families(s) && p < |s.procs| && i < |s.procs| && s.procs[p].pc.Wait2? && s.procs[p].state == RUNNING
    requires s.procs[i].state == ZOMBIE && s.procs[i].pc.Dead?
    requires t.procs == Goto(s, p, Wait3).procs[i := Freed(s.procs[i]).(reaped := s.procs[i].reaped + 1)]
    ensures Families(t)
  {
    MovedFamilies(s, Goto(s, p, Wait3), p);
    ReapFamilies(Goto(s, p, Wait3), t, i);
  }

  lemma WaitFamilies(s: State, c: nat, p: nat, ch: Choice)
    requires Families(s) && WaitEnabled(s, c, p, ch) && StateOk(p, s.procs[p])
    requires Reaps(s, p, ch) ==> s.procs[s.procs[p].pc.i].pc.Dead?
    ensures Families(WaitNext(s, c, p, ch))
  {
    var t, pc := WaitNext(s, c, p, ch), s.procs[p].pc;
    if Reaps(s, p, ch) {
      WaitReapFamilies(s, t, p, pc.i);
    } else {
      MovedFamilies(s, t, p);
    }
  }

  /** No fork() is filling slot i. */
  ghost predicate Untargeted(s: State, i: nat) {
    forall q: nat | q < |s.procs| :: ForkTarget(s.procs[q].pc) != Some(i)
  }

  /** Nobody is filling slot i, so its state is free to change. */
  lemma UntargetedFamilies(s: State, i: nat, x: PState)
    requires Families(s) && i < |s.procs| && Untargeted(s, i)
    ensures Families(SetProc(s, i, s.procs[i].(state := x))) && Untargeted(SetProc(s, i, s.procs[i].(state := x)), i)
  {
  }

  /** allocproc() gives slot i a thread that is yet to start. */
  lemma SlotTakenFamilies(s: State, i: nat)
    requires Families(s) && i < |s.procs| && s.procs[i].pc.Idle? && Untargeted(s, i)
    ensures Families(Goto(s, i, Entry)) && Untargeted(Goto(s, i, Entry), i)
  {
  }

  lemma TargetFamilies(s: State, p: nat, i: nat)
    requires Families(s) && p < |s.procs| && i < |s.procs| && i != p && s.procs[p].pc == Fork1(i)
    requires s.procs[i].state == USED && Untargeted(s, i)
    ensures Families(Goto(s, p, Fork2(i)))
  {
    var t := Goto(s, p, Fork2(i));
    assert ForksOk(t) by {
      assert ForkTarget(Fork2(i)) == Some(i) && ForkTarget(Fork1(i)) == None;
      assert forall q: nat | q < |s.procs| && q != p ::
             ForkTarget(t.procs[q].pc) == ForkTarget(s.procs[q].pc) != Some(i);
    }
  }

  lemma ForkAllocFamilies(s: State, t: State, p: nat, i: nat)
    requires Families(s) && p < |s.procs| && s.procs[p].pc == Fork1(i) && s.procs[p].state == RUNNING
    requires i < |s.procs| && s.procs[i].state == UNUSED && s.procs[i].pc.Idle?
    requires t.procs == s.procs[p := s.procs[p].(pc := Fork2(i))][i := s.procs[i].(state := USED, pc := Entry)]
    ensures Families(t)
  {
    assert Untargeted(s, i);
    var u := SetProc(s, i, s.procs[i].(state := USED));
    UntargetedFamilies(s, i, USED);
    SlotTakenFamilies(u, i);
    TargetFamilies(Goto(u, i, Entry), p, i);
    assert Goto(Goto(u, i, Entry), p, Fork2(i)).procs == t.procs;
  }

  lemma ForkParentFamilies(s: State, t: State, p: nat, i: nat)
    requires Families(s) && p < |s.procs| && s.procs[p].pc == Fork2(i) && s.procs[p].state == RUNNING &&
             i < |s.procs| && i != p
    requires t.procs == s.procs[p := s.procs[p].(pc := Fork3(i))][i := s.procs[i].(parent := Some(p))]
    ensures Families(t)
  {
    var u := SetProc(s, i, s.procs[i].(parent := Some(p)));
    ParentFamilies(s, i, p);
    MovedFamilies(u, t, p);
  }

  lemma ForkReadyFamilies(s: State, t: State, p: nat, i: nat)
    requires Families(s) && p < |s.procs| && s.procs[p].pc == Fork3(i) && s.procs[p].state == RUNNING && i < |s.procs|
    requires t.procs == s.procs[p := s.procs[p].(pc := Out)][i := s.procs[i].(state := RUNNABLE)]
    ensures Families(t)
  {
    assert ForkTarget(s.procs[p].pc) == Some(i) && i != p;
    var u := Goto(s, p, Out);
    MovedFamilies(s, u, p);
    assert Untargeted(u, i);
    UntargetedFamilies(u, i, RUNNABLE);
    assert SetProc(u, i, u.procs[i].(state := RUNNABLE)).procs == t.procs;
  }

  lemma ForkFamilies(s: State, c: nat, p: nat, ch: Choice)
    requires Families(s) && ForkEnabled(s, c, p, ch) && StateOk(p, s.procs[p])
    requires forall i: nat | i < |s.procs| && s.procs[i].state == UNUSED ::
             s.procs[i].pc.Idle? && s.procs[i].parent.None?
    ensures Families(ForkNext(s, c, p, ch))
  {
    var t, pc := ForkNext(s, c, p, ch), s.procs[p].pc;
    if pc.Fork2? {
      ForkParentFamilies(s, t, p, pc.i);
    } else if pc.Fork3? {
      ForkReadyFamilies(s, t, p, pc.i);
    } else if t.procs[p].pc.Fork2? {
      ForkAllocFamilies(s, t, p, pc.i);
    } else {
      MovedFamilies(s, t, p);
    }
  }

  lemma KillFamilies(s: State, c: nat, p: nat, ch: Choice)
    requires Families(s) && KillEnabled(s, c, p, ch)
    ensures Families(KillNext(s, c, p, ch))
  {
    var q := s.procs[ch.j];
    if q.state == SLEEPING {
      RouseFamilies(s, ch.j, q.(state := RUNNABLE));
    } else {
      assert KillNext(s, c, p, ch) == s;
    }
  }
}
