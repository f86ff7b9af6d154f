/**
 Who is asleep, and who holds what: at most one thread at a time is inside a spinlock, and a parent
 asleep in wait() has no zombie child, except while the wakeup that will rouse it is under way.
 */
module ProcWakeup {
  import opened Common
  import opened ProcModel
  import opened ProcInvariant

  // ----- sleeping ----------------------------------------------------------------

  /** Process q, at slot p, sleeps on ch, or has let go of the lock of ch on the way to sleep. */
  predicate WaitsOn(p: nat, q: Proc, ch: Chan) {
    || (q.state == SLEEPING && q.chan == ch)
    || (q.pc.Sleep3? && SleepChan(p, q.pc.r) == ch)
  }

  /** At most one thread is in a section protected by wait_lock, and it is running. */
  ghost predicate OneInWait(s: State) {
    forall p: nat, q: nat | p < |s.procs| && q < |s.procs| && OwnsWait(s.procs[p].pc) && OwnsWait(s.procs[q].pc) ::
      p == q
  }

  lemma WaitHolder(s: State, p: nat)
    requires Base(s) && p < |s.procs| && OwnsWait(s.procs[p].pc)
    ensures s.procs[p].on.Some? && s.waitLock == s.procs[p].on
    ensures s.procs[p].on.value < |s.cpus| && s.cpus[s.procs[p].on.value].stack == OfProcess(p)
  {
    OnHere(s, p);
  }

  lemma WaitIsExclusive(s: State)
    requires Base(s)
    ensures OneInWait(s)
  {
    forall p: nat, q: nat | p < |s.procs| && q < |s.procs| && OwnsWait(s.procs[p].pc) && OwnsWait(s.procs[q].pc)
      ensures p == q
    {
      WaitHolder(s, p);
      WaitHolder(s, q);
    }
  }

  ghost predicate OneInSpin(s: State) {
    forall p: nat, q: nat, l: nat | p < |s.procs| && q < |s.procs| && l < |s.spins| &&
                                    OwnsSpin(s.lk, s.procs[p].pc, l) && OwnsSpin(s.lk, s.procs[q].pc, l) :: p == q
  }

  lemma SpinHolder(s: State, p: nat, l: nat)
    requires Base(s) && p < |s.procs| && l < |s.spins| && OwnsSpin(s.lk, s.procs[p].pc, l)
    ensures s.procs[p].on.Some? && s.spins[l] == s.procs[p].on
    ensures s.procs[p].on.value < |s.cpus| && s.cpus[s.procs[p].on.value].stack == OfProcess(p)
  {
    OnHere(s, p);
  }

  lemma SpinIsExclusive(s: State)
    requires Base(s)
    ensures OneInSpin(s)
  {
    forall p: nat, q: nat, l: nat | p < |s.procs| && q < |s.procs| && l < |s.spins| &&
                                    OwnsSpin(s.lk, s.procs[p].pc, l) && OwnsSpin(s.lk, s.procs[q].pc, l)
      ensures p == q
    {
      SpinHolder(s, p, l);
      SpinHolder(s, q, l);
    }
  }

  // ----- parents that wait ---------------------------------------------------------

  /** Process q, at slot p, sleeps in wait(). */
  predicate Waits(p: nat, q: Proc) { WaitsOn(p, q, OfProc(p)) }

  /** How many processes exit()'s wakeup of the parent has gone past. */
  function Seen(n: nat, pc: Pc): (m: nat) {
    if pc.Waking? && pc.w.ExitParent? then pc.m else if pc.Exit3? || pc.Exit4? then n else 0
  }

  /** How many processes wait()'s scan has gone past. */
  function Scanned(n: nat, pc: Pc): (m: nat) {
    if pc.Wait2? then pc.i else if (pc.Sleep1? || pc.Sleep2?) && pc.r.InWait? then n else 0
  }

  /** A wakeup of initproc is under way and has not reached it. */
  predicate InitPending(pc: Pc) { pc.Waking? && pc.w.Reparent? && pc.m <= INIT }

  ghost predicate Notified(s: State) {
    forall p: nat, q: nat | p < |s.procs| && q < |s.procs| && s.procs[p].parent == Some(q) &&
      q < Seen(|s.procs|, s.procs[p].pc) ::
      !Waits(q, s.procs[q])
  }

  ghost predicate ScannedOk(s: State) {
    forall p: nat, j: nat | p < |s.procs| && j < |s.procs| && s.procs[j].parent == Some(p) &&
      j < Scanned(|s.procs|, s.procs[p].pc) ::
      s.procs[j].state != ZOMBIE
  }

  /** Only initproc may sleep over a zombie child, and only until a pending wakeup gets to it. */
  ghost predicate NoneMissed(s: State) {
    forall q: nat, j: nat | q < |s.procs| && j < |s.procs| && s.procs[j].parent == Some(q) &&
      s.procs[j].state == ZOMBIE && Waits(q, s.procs[q]) ::
      q == INIT && exists p: nat | p < |s.procs| :: InitPending(s.procs[p].pc)
  }

  ghost predicate Awake(s: State) { Notified(s) && ScannedOk(s) && NoneMissed(s) }

  /** A process moves on in a way no parent or child can tell. */
  ghost predicate QuietMove(s: State, t: State, p: nat) {
    && p < |s.procs| == |t.procs|
    && t.procs == s.procs[p := t.procs[p]]
    && t.procs[p].parent == s.procs[p].parent
    && (t.procs[p].state == ZOMBIE ==> s.procs[p].state == ZOMBIE)
    && (Waits(p, t.procs[p]) ==> Waits(p, s.procs[p]))
    && Seen(|s.procs|, t.procs[p].pc) <= Seen(|s.procs|, s.procs[p].pc)
    && Scanned(|s.procs|, t.procs[p].pc) <= Scanned(|s.procs|, s.procs[p].pc)
    && (InitPending(s.procs[p].pc) ==> InitPending(t.procs[p].pc))
  }

  lemma QuietScanned(s: State, t: State, p: nat)
    requires Awake(s) && QuietMove(s, t, p)
    ensures Notified(t) && ScannedOk(t)
  {
  }

  lemma QuietMissed(s: State, t: State, p: nat)
    requires Awake(s) && QuietMove(s, t, p)
    ensures NoneMissed(t)
  {
    assert forall q: nat | q < |s.procs| && InitPending(s.procs[q].pc) :: InitPending(t.procs[q].pc);
  }

  lemma QuietAwake(s: State, t: State, p: nat)
    requires Awake(s) && QuietMove(s, t, p)
    ensures Awake(t)
  {
    QuietScanned(s, t, p);
    QuietMissed(s, t, p);
  }

  lemma SchedAwake(s: State, c: nat)
    requires Awake(s) && SchedEnabled(s, c)
    ensures Awake(SchedNext(s, c))
  {
    QuietAwake(s, SchedNext(s, c), s.cpus[c].spc.i);
  }

  lemma SwitchAwake(s: State, c: nat, p: nat, ch: Choice)
    requires Awake(s) && SwitchEnabled(s, c, p, ch) && Here(s, c, p)
    ensures Awake(SwitchNext(s, c, p, ch))
  {
    QuietAwake(s, SwitchNext(s, c, p, ch), p);
  }

  /** The parent lets go of wait_lock, having found no zombie child. */
  ghost predicate FallsAsleep(s: State, t: State, p: nat) {
    && p < |s.procs| && s.procs[p].pc == Sleep2(InWait) && s.procs[p].state == RUNNING
    && t.procs == s.procs[p := s.procs[p].(pc := Sleep3(InWait))]
  }

  lemma FallAsleepScanned(s: State, t: State, p: nat)
    requires Awake(s) && OneInWait(s) && FallsAsleep(s, t, p)
    ensures Notified(t) && ScannedOk(t)
  {
  }

  lemma FallAsleepAwake(s: State, t: State, p: nat)
    requires Awake(s) && OneInWait(s) && FallsAsleep(s, t, p)
    ensures Awake(t)
  {
    FallAsleepScanned(s, t, p);
    assert forall q: nat | q < |s.procs| && InitPending(s.procs[q].pc) :: InitPending(t.procs[q].pc);
  }

  lemma SleepAwake(s: State, c: nat, p: nat)
    requires Awake(s) && OneInWait(s) && SleepEnabled(s, c, p) && Here(s, c, p)
    ensures Awake(SleepNext(s, c, p))
  {
    var t, pc := SleepNext(s, c, p), s.procs[p].pc;
    if pc.Sleep2? && pc.r.InWait? {
      FallAsleepAwake(s, t, p);
    } else {
      QuietAwake(s, t, p);
    }
  }

  lemma MonitorAwake(s: State, c: nat, p: nat, ch: Choice)
    requires Awake(s) && MonitorEnabled(s, c, p, ch) && Here(s, c, p)
    ensures Awake(MonitorNext(s, c, p, ch))
  {
    QuietAwake(s, MonitorNext(s, c, p, ch), p);
  }

  lemma LockAwake(s: State, c: nat, p: nat, ch: Choice)
    requires Awake(s) && LockEnabled(s, c, p, ch) && Here(s, c, p)
    ensures Awake(LockNext(s, c, p, ch))
  {
    QuietAwake(s, LockNext(s, c, p, ch), p);
  }

  lemma RouseAwake(s: State, j: nat, q: Proc)
    requires Awake(s) && j < |s.procs| && s.procs[j].state == SLEEPING && s.procs[j].pc.Asleep? &&
             q == s.procs[j].(state := RUNNABLE)
    ensures Awake(SetProc(s, j, q))
  {
    QuietAwake(s, SetProc(s, j, q), j);
  }

  lemma KillAwake(s: State, c: nat, p: nat, ch: Choice)
    requires Awake(s) && KillEnabled(s, c, p, ch) && StateOk(ch.j, s.procs[ch.j])
    ensures Awake(KillNext(s, c, p, ch))
  {
    var q := s.procs[ch.j];
    if q.state == SLEEPING {
      RouseAwake(s, ch.j, q.(state := RUNNABLE));
    } else {
      assert KillNext(s, c, p, ch) == s;
    }
  }

  /** wakeup() goes past m, which then no longer sleeps on the channel. */
  lemma WakePastAwake(s: State, t: State, p: nat, m: nat)
    requires Awake(s) && OneInWait(s) && p < |s.procs| && m < |s.procs| && s.procs[p].pc.Waking? && s.procs[p].pc.m == m
    requires t.procs == s.procs[p := s.procs[p].(pc := Waking(s.procs[p].pc.w, m + 1))]
    requires !WaitsOn(m, s.procs[m], WakeChan(s, p, s.procs[p].pc.w))
    requires s.procs[p].state == RUNNING
    ensures Awake(t)
  {
    if !OfExit(s.procs[p].pc.w) { QuietAwake(s, t, p); }
  }

  /** A process whose lock is free is not on its way to sleep. */
  lemma NotFallingAsleep(s: State, m: nat)
    requires Base(s) && m < |s.procs|
    ensures s.procs[m].pc.Sleep3? ==> s.procs[m].lock.Some?
  {
    if s.procs[m].pc.Sleep3? {
      OnHere(s, m);
    }
  }

  lemma WakeAwake(s: State, c: nat, p: nat)
    requires Awake(s) && OneInWait(s) && WakeEnabled(s, c, p) && StateOk(p, s.procs[p])
    requires s.procs[p].pc.m < |s.procs| ==>
               StateOk(s.procs[p].pc.m, s.procs[s.procs[p].pc.m]) &&
                 (s.procs[p].pc.m != p ==> !s.procs[s.procs[p].pc.m].pc.Sleep3?)
    ensures Awake(WakeNext(s, c, p))
  {
    var w, m, t := s.procs[p].pc.w, s.procs[p].pc.m, WakeNext(s, c, p);
    if m == |s.procs| {
      QuietAwake(s, t, p);
    } else if m == p {
      WakePastAwake(s, t, p, m);
    } else {
      var q := Roused(s.procs[m], WakeChan(s, p, w));
      var u := SetProc(s, m, q);
      if q != s.procs[m] { RouseAwake(s, m, q); } else { assert u == s; }
      assert t.procs == u.procs[p := u.procs[p].(pc := Waking(w, m + 1))];
      WakePastAwake(u, t, p, m);
    }
  }

  /** exit() in process p hands its child i to initproc, and is about to wake it. */
  ghost predicate Reparented(s: State, t: State, p: nat, i: nat) {
    && p < |s.procs| && s.procs[p].pc == Exit2(i) && s.procs[p].state == RUNNING
    && i < |s.procs| && t == Goto(SetProc(s, i, s.procs[i].(parent := Some(INIT))), p, Waking(Reparent(i), 0))
    && Seen(|s.procs|, s.procs[i].pc) == 0
  }

  lemma ReparentScanned(s: State, t: State, p: nat, i: nat)
    requires Awake(s) && OneInWait(s) && Reparented(s, t, p, i)
    ensures Notified(t) && ScannedOk(t)
  {
  }

  lemma ReparentAwake(s: State, t: State, p: nat, i: nat)
    requires Awake(s) && OneInWait(s) && Reparented(s, t, p, i)
    ensures Awake(t)
  {
    ReparentScanned(s, t, p, i);
    assert InitPending(t.procs[p].pc);
  }

  lemma ZombieAwake(s: State, t: State, p: nat)
    requires Awake(s) && OneInWait(s) && p < |s.procs| && s.procs[p].pc == Exit4 && s.procs[p].state == RUNNING
    requires t.procs == s.procs[p := s.procs[p].(state := ZOMBIE, pc := Exit5, exited := s.procs[p].exited + 1)]
    ensures Awake(t)
  {
    assert Notified(t) && ScannedOk(t);
    assert forall q: nat | q < |s.procs| && InitPending(s.procs[q].pc) :: InitPending(t.procs[q].pc);
  }

  lemma ExitAwake(s: State, c: nat, p: nat, ch: Choice)
    requires Awake(s) && OneInWait(s) && ExitEnabled(s, c, p, ch) && Here(s, c, p)
    ensures Awake(ExitNext(s, c, p, ch))
  {
    var t, pc := ExitNext(s, c, p, ch), s.procs[p].pc;
    if pc.Exit2? && pc.i < |s.procs| && s.procs[pc.i].parent == Some(p) {
      assert OwnsWait(s.procs[p].pc);
      ReparentAwake(s, t, p, pc.i);
    } else if pc.Exit4? {
      ZombieAwake(s, t, p);
    } else {
      QuietAwake(s, t, p);
    }
  }

  lemma ScanAwake(s: State, t: State, p: nat, i: nat, kids: bool)
    requires Awake(s) && p < |s.procs| && s.procs[p].pc.Wait2? && s.procs[p].pc.i == i && s.procs[p].state == RUNNING
    requires i < |s.procs| && (s.procs[i].parent != Some(p) || s.procs[i].state != ZOMBIE)
    requires t.procs == s.procs[p := s.procs[p].(pc := Wait2(i + 1, kids))]
    ensures Awake(t)
  {
    assert Notified(t);
    assert ScannedOk(t);
    assert forall q: nat | q < |s.procs| && InitPending(s.procs[q].pc) :: InitPending(t.procs[q].pc);
  }

  lemma ReapAwake(s: State, t: State, i: nat)
    requires Awake(s) && i < |s.procs| && s.procs[i].state == ZOMBIE && s.procs[i].pc.Dead?
    requires t.procs == s.procs[i := Freed(s.procs[i]).(reaped := s.procs[i].reaped + 1)]
    ensures Awake(t)
  {
    assert forall q: nat | q < |s.procs| && InitPending(s.procs[q].pc) :: InitPending(t.procs[q].pc);
  }

  lemma WaitAwake(s: State, c: nat, p: nat, ch: Choice)
    requires Awake(s) && OneInWait(s) && WaitEnabled(s, c, p, ch) && StateOk(p, s.procs[p])
    requires Reaps(s, p, ch) ==> s.procs[s.procs[p].pc.i].pc.Dead?
    ensures Awake(WaitNext(s, c, p, ch))
  {
    var t, pc := WaitNext(s, c, p, ch), s.procs[p].pc;
    if pc.Wait2? && pc.i < |s.procs| {
      if Reaps(s, p, ch) {
        QuietAwake(s, Goto(s, p, Wait3), p);
        ReapAwake(Goto(s, p, Wait3), t, pc.i);
      } else if t.procs[p].pc.Wait2? {
        ScanAwake(s, t, p, pc.i, t.procs[p].pc.kids);
      } else {
        QuietAwake(s, t, p);
      }
    } else {
      QuietAwake(s, t, p);
    }
  }

  lemma ParentAwake(s: State, i: nat, q: nat)
    requires Awake(s) && i < |s.procs| && q < |s.procs| && s.procs[i].state == USED &&
             Seen(|s.procs|, s.procs[i].pc) == 0
    ensures Awake(SetProc(s, i, s.procs[i].(parent := Some(q))))
  {
    assert forall j: nat | j < |s.procs| && InitPending(s.procs[j].pc) ::
        InitPending(SetProc(s, i, s.procs[i].(parent := Some(q))).procs[j].pc);
  }

  lemma ForkParentAwake(s: State, t: State, p: nat, i: nat)
    requires Awake(s) && p < |s.procs| && s.procs[p].pc == Fork2(i) && s.procs[p].state == RUNNING
    requires i < |s.procs| && s.procs[i].state == USED && s.procs[i].pc == Entry
    requires t.procs == s.procs[p := s.procs[p].(pc := Fork3(i))][i := s.procs[i].(parent := Some(p))]
    ensures Awake(t)
  {
    ParentAwake(s, i, p);
    QuietAwake(SetProc(s, i, s.procs[i].(parent := Some(p))), t, p);
  }

  lemma ForkAwake(s: State, c: nat, p: nat, ch: Choice)
    requires Awake(s) && ForkEnabled(s, c, p, ch) && StateOk(p, s.procs[p])
    requires s.procs[p].pc.Fork1? && s.procs[p].pc.i < |s.procs| ==> StateOk(s.procs[p].pc.i, s.procs[s.procs[p].pc.i])
    requires s.procs[p].pc.Fork2? || s.procs[p].pc.Fork3? ==>
               s.procs[s.procs[p].pc.i].state == USED && s.procs[s.procs[p].pc.i].pc == Entry
    ensures Awake(ForkNext(s, c, p, ch))
  {
    var t, pc := ForkNext(s, c, p, ch), s.procs[p].pc;
    if pc.Fork2? {
      ForkParentAwake(s, t, p, pc.i);
    } else if pc.Fork3? {
      QuietAwake(s, Goto(s, p, Out), p);
      QuietAwake(Goto(s, p, Out), t, pc.i);
    } else if t.procs[p].pc.Fork2? {
      QuietAwake(s, Goto(s, p, Fork2(pc.i)), p);
      QuietAwake(Goto(s, p, Fork2(pc.i)), t, pc.i);
    } else {
      QuietAwake(s, t, p);
    }
  }
}
