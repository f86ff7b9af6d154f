/**
 Monitors: nobody sleeps on a channel whose condition holds, unless the wakeup that will rouse it is
 owed or under way by the holder of the spinlock.  Sleeplocks, besides: at most one owner.
 */
module ProcMonitor {
  import opened Common
  import opened ProcModel
  import opened ProcInvariant
  import opened ProcWakeup

  predicate IsLock(mons: seq<Monitor>, k: nat) { k < |mons| && mons[k].isLock }

  predicate Locked(mons: seq<Monitor>, k: nat) { IsLock(mons, k) && !mons[k].ready }

  /** Sleeplock k is locked, by process p. */
  predicate LockedBy(mons: seq<Monitor>, k: nat, p: nat) { Locked(mons, k) && mons[k].owner == p }

  /** What a process has acquired is locked, and is its own. */
  ghost predicate Owned(s: State) {
    forall p: nat, k: nat | p < |s.procs| && k in s.procs[p].has :: LockedBy(s.mons, k, p)
  }

  /** The thread is in acquiresleep() of k. */
  predicate Acquires(pc: Pc, k: nat) {
    var c := Core(pc);
    || ((c.Acquire1? || c.Acquire2?) && c.k == k)
    || ((c.Sleep1? || c.Sleep2? || c.Sleep3? || c.Asleep? || c.Woken?) && c.r == InLock(k))
  }

  ghost predicate AcquiresLocks(s: State) {
    forall p: nat, k: nat | p < |s.procs| && Acquires(s.procs[p].pc, k) :: IsLock(s.mons, k)
  }

  predicate AboutToSleep(pc: Pc, k: nat) { (pc.Sleep1? || pc.Sleep2?) && !pc.r.InWait? && pc.r.k == k }

  predicate Ready(mons: seq<Monitor>, k: nat) { k < |mons| && mons[k].ready }

  /** Who goes to sleep has found the condition false, and holds the spinlock still. */
  ghost predicate SleepersUnready(s: State) {
    forall p: nat, k: nat | p < |s.procs| && AboutToSleep(s.procs[p].pc, k) :: !Ready(s.mons, k)
  }

  predicate Owes(pc: Pc, k: nat) { (pc.Inside? && k in pc.owed) || (pc.Waking? && pc.w.Notify? && k in pc.w.owed) }

  /** A wakeup of the sleepers on k is owed, or under way and has not gone past p. */
  predicate Pending(pc: Pc, k: nat, p: nat) {
    Owes(pc, k) || (pc.Waking? && (pc.w.Unlock? || pc.w.Notify?) && pc.w.k == k && pc.m <= p)
  }

  ghost predicate SomePending(s: State, k: nat, p: nat) {
    exists q: nat | q < |s.procs| :: Pending(s.procs[q].pc, k, p)
  }

  ghost predicate NoneForgotten(s: State) {
    forall p: nat, k: nat | p < |s.procs| && Ready(s.mons, k) && WaitsOn(p, s.procs[p], OfMonitor(k)) ::
      SomePending(s, k, p)
  }

  ghost predicate Monitors(s: State) { Owned(s) && AcquiresLocks(s) && SleepersUnready(s) && NoneForgotten(s) }

  /** A process goes from a to b without touching a monitor. */
  ghost predicate CalmProc(p: nat, a: Proc, b: Proc) {
    && b.has == a.has
    && (forall k: nat | Acquires(b.pc, k) :: Acquires(a.pc, k))
    && (forall k: nat | AboutToSleep(b.pc, k) :: AboutToSleep(a.pc, k))
    && (forall k: nat | WaitsOn(p, b, OfMonitor(k)) :: WaitsOn(p, a, OfMonitor(k)))
    && (forall k: nat, m: nat | Pending(a.pc, k, m) :: Pending(b.pc, k, m))
  }

  ghost predicate Calm(s: State, t: State) {
    && t.mons == s.mons && |t.procs| == |s.procs|
    && forall p: nat | p < |s.procs| :: CalmProc(p, s.procs[p], t.procs[p])
  }

  /** Pending wakeups carry over to a state in which they are still pending. */
  lemma StillPending(s: State, t: State, k: nat, p: nat)
    requires SomePending(s, k, p) && |t.procs| == |s.procs|
    requires forall q: nat | q < |s.procs| && Pending(s.procs[q].pc, k, p) :: Pending(t.procs[q].pc, k, p)
    ensures SomePending(t, k, p)
  {
    var q: nat :| q < |s.procs| && Pending(s.procs[q].pc, k, p);
    assert Pending(t.procs[q].pc, k, p);
  }

  lemma CalmMonitors(s: State, t: State)
    requires Monitors(s) && Calm(s, t)
    ensures Monitors(t)
  {
    forall p: nat, k: nat | p < |t.procs| && Ready(t.mons, k) && WaitsOn(p, t.procs[p], OfMonitor(k))
      ensures SomePending(t, k, p)
    {
      assert CalmProc(p, s.procs[p], t.procs[p]) && WaitsOn(p, s.procs[p], OfMonitor(k)) && SomePending(s, k, p);
      forall q: nat | q < |s.procs| && Pending(s.procs[q].pc, k, p) ensures Pending(t.procs[q].pc, k, p) {
        assert CalmProc(q, s.procs[q], t.procs[q]);
      }
      StillPending(s, t, k, p);
    }
    forall p: nat, k: nat | p < |t.procs| && k in t.procs[p].has ensures LockedBy(t.mons, k, p) {
      assert CalmProc(p, s.procs[p], t.procs[p]) && k in s.procs[p].has;
    }
    forall p: nat, k: nat | p < |t.procs| && Acquires(t.procs[p].pc, k) ensures IsLock(t.mons, k) {
      assert CalmProc(p, s.procs[p], t.procs[p]) && Acquires(s.procs[p].pc, k);
    }
    forall p: nat, k: nat | p < |t.procs| && AboutToSleep(t.procs[p].pc, k) ensures !Ready(t.mons, k) {
      assert CalmProc(p, s.procs[p], t.procs[p]) && AboutToSleep(s.procs[p].pc, k);
    }
  }

  /** One thread moves on; what it does to a monitor is for the caller to say. */
  ghost predicate OneMoves(s: State, t: State, p: nat) {
    && p < |s.procs| == |t.procs| && t.procs == s.procs[p := t.procs[p]]
    && s.procs[p].state == RUNNING && t.procs[p].state == RUNNING
  }

  /** The thread of p, which is not on its way to sleep, leaves every pending wakeup pending. */
  lemma OneMovesForgets(s: State, t: State, p: nat, except: nat)
    requires NoneForgotten(s) && OneMoves(s, t, p) && !t.procs[p].pc.Sleep3?
    requires forall k: nat | Ready(t.mons, k) && k != except :: Ready(s.mons, k)
    requires forall k: nat, m: nat | m < |s.procs| && Pending(s.procs[p].pc, k, m) && k != except ::
             Pending(t.procs[p].pc, k, m)
    ensures forall q: nat, k: nat | q < |t.procs| && Ready(t.mons, k) && WaitsOn(q, t.procs[q], OfMonitor(k)) &&
            k != except :: SomePending(t, k, q)
  {
    forall q: nat, k: nat | q < |t.procs| && Ready(t.mons, k) && WaitsOn(q, t.procs[q], OfMonitor(k)) && k != except
      ensures SomePending(t, k, q)
    {
      assert q != p && SomePending(s, k, q);
      StillPending(s, t, k, q);
    }
  }

  lemma OneMovesAcquires(s: State, t: State, p: nat)
    requires AcquiresLocks(s) && OneMoves(s, t, p)
    requires forall k: nat | IsLock(s.mons, k) :: IsLock(t.mons, k)
    requires forall k: nat | Acquires(t.procs[p].pc, k) :: IsLock(t.mons, k)
    ensures AcquiresLocks(t)
  {
    forall q: nat, k: nat | q < |t.procs| && Acquires(t.procs[q].pc, k) ensures IsLock(t.mons, k) {
      assert q == p || Acquires(s.procs[q].pc, k);
    }
  }

  lemma OneMovesUnready(s: State, t: State, p: nat)
    requires SleepersUnready(s) && OneMoves(s, t, p)
    requires forall k: nat | Ready(t.mons, k) :: Ready(s.mons, k)
    requires forall k: nat | AboutToSleep(t.procs[p].pc, k) :: !Ready(t.mons, k)
    ensures SleepersUnready(t)
  {
    forall q: nat, k: nat | q < |t.procs| && AboutToSleep(t.procs[q].pc, k) ensures !Ready(t.mons, k) {
      assert q == p || AboutToSleep(s.procs[q].pc, k);
    }
  }

  lemma SchedMonitors(s: State, c: nat)
    requires Monitors(s) && SchedEnabled(s, c)
    ensures Monitors(SchedNext(s, c))
  {
    CalmMonitors(s, SchedNext(s, c));
  }

  lemma SwitchMonitors(s: State, c: nat, p: nat, ch: Choice)
    requires Monitors(s) && SwitchEnabled(s, c, p, ch) && Here(s, c, p)
    ensures Monitors(SwitchNext(s, c, p, ch))
  {
    CalmMonitors(s, SwitchNext(s, c, p, ch));
  }

  /** The sleeper lets go of the spinlock; the condition it waits for is still false. */
  lemma FallAsleepMonitors(s: State, t: State, p: nat, r: Sleeper)
    requires Monitors(s) && p < |s.procs| && !r.InWait? && s.procs[p].pc == Sleep2(r) && s.procs[p].state == RUNNING
    requires t.procs == s.procs[p := s.procs[p].(pc := Sleep3(r))] && t.mons == s.mons
    ensures Monitors(t)
  {
    var u := s.(procs := s.procs[p := s.procs[p].(pc := Out)]);
    CalmMonitors(s, u);
    assert AboutToSleep(s.procs[p].pc, r.k) && Acquires(t.procs[p].pc, r.k) == Acquires(s.procs[p].pc, r.k);
    forall q: nat, j: nat | q < |t.procs| && Ready(t.mons, j) && WaitsOn(q, t.procs[q], OfMonitor(j))
      ensures SomePending(t, j, q)
    {
      assert q != p && SomePending(u, j, q);
      StillPending(u, t, j, q);
    }
  }

  lemma SleepMonitors(s: State, c: nat, p: nat)
    requires Monitors(s) && SleepEnabled(s, c, p) && Here(s, c, p)
    ensures Monitors(SleepNext(s, c, p))
  {
    var t, pc := SleepNext(s, c, p), s.procs[p].pc;
    if pc.Sleep2? && !pc.r.InWait? {
      FallAsleepMonitors(s, t, p, pc.r);
    } else {
      CalmMonitors(s, t);
    }
  }

  lemma RouseMonitors(s: State, j: nat, q: Proc)
    requires Monitors(s) && j < |s.procs| && s.procs[j].state == SLEEPING && s.procs[j].pc.Asleep? &&
             q == s.procs[j].(state := RUNNABLE)
    ensures Monitors(SetProc(s, j, q))
  {
    CalmMonitors(s, SetProc(s, j, q));
  }

  lemma KillMonitors(s: State, c: nat, p: nat, ch: Choice)
    requires Monitors(s) && KillEnabled(s, c, p, ch) && StateOk(ch.j, s.procs[ch.j])
    ensures Monitors(KillNext(s, c, p, ch))
  {
    var q := s.procs[ch.j];
    if q.state == SLEEPING {
      RouseMonitors(s, ch.j, q.(state := RUNNABLE));
    } else {
      assert KillNext(s, c, p, ch) == s;
    }
  }

  /** wakeup() goes past m, which then no longer sleeps on the channel. */
  lemma WakePastMonitors(s: State, t: State, p: nat, m: nat)
    requires Monitors(s) && p < |s.procs| && m < |s.procs| && s.procs[p].pc.Waking? && s.procs[p].pc.m == m
    requires t.procs == s.procs[p := s.procs[p].(pc := Waking(s.procs[p].pc.w, m + 1))] && t.mons == s.mons
    requires !WaitsOn(m, s.procs[m], WakeChan(s, p, s.procs[p].pc.w))
    requires s.procs[p].state == RUNNING
    ensures Monitors(t)
  {
    forall q: nat, k: nat | q < |t.procs| && Ready(t.mons, k) && WaitsOn(q, t.procs[q], OfMonitor(k))
      ensures SomePending(t, k, q)
    {
      assert q != p && SomePending(s, k, q);
      StillPending(s, t, k, q);
    }
  }

  lemma WakeMonitors(s: State, c: nat, p: nat)
    requires Monitors(s) && WakeEnabled(s, c, p) && StateOk(p, s.procs[p])
    requires s.procs[p].pc.m < |s.procs| ==>
               StateOk(s.procs[p].pc.m, s.procs[s.procs[p].pc.m]) &&
                 (s.procs[p].pc.m != p ==> !s.procs[s.procs[p].pc.m].pc.Sleep3?)
    ensures Monitors(WakeNext(s, c, p))
  {
    var w, m, t := s.procs[p].pc.w, s.procs[p].pc.m, WakeNext(s, c, p);
    if m == |s.procs| {
      WokenAllMonitors(s, t, p);
    } else if m == p {
      WakePastMonitors(s, t, p, m);
    } else {
      var q := Roused(s.procs[m], WakeChan(s, p, w));
      var u := SetProc(s, m, q);
      if q != s.procs[m] { RouseMonitors(s, m, q); } else { assert u == s; }
      assert t.procs == u.procs[p := u.procs[p].(pc := Waking(w, m + 1))];
      WakePastMonitors(u, t, p, m);
    }
  }

  lemma WokenAllMonitors(s: State, t: State, p: nat)
    requires Monitors(s) && p < |s.procs| && s.procs[p].pc.Waking? && s.procs[p].pc.m == |s.procs| &&
             s.procs[p].state == RUNNING
    requires t.procs == s.procs[p := s.procs[p].(pc := AfterWakeup(s.procs[p].pc.w))] && t.mons == s.mons
    ensures Monitors(t)
  {
    OneMovesForgets(s, t, p, |s.mons|);
  }

  // ----- holders of a spinlock -------------------------------------------------------

  /** While p holds the spinlock, nobody else is going to sleep on the channel. */
  lemma NoOtherSleeper(s: State, p: nat, k: nat)
    requires OneInSpin(s) && p < |s.procs| && k < |s.lk| && s.lk[k] < |s.spins| &&
             OwnsSpin(s.lk, s.procs[p].pc, s.lk[k])
    ensures forall q: nat | q < |s.procs| && q != p :: !AboutToSleep(s.procs[q].pc, k)
  {
    assert forall q: nat | q < |s.procs| && AboutToSleep(s.procs[q].pc, k) :: OwnsSpin(s.lk, s.procs[q].pc, s.lk[k]);
  }

  /** The condition of k becomes true, and a wakeup of those who wait for it is owed or begins. */
  lemma FulfilMonitors(s: State, t: State, p: nat, k: nat)
    requires Monitors(s) && OneInSpin(s) && OneMoves(s, t, p) && k < |s.mons| == |s.lk| && s.lk[k] < |s.spins|
    requires OwnsSpin(s.lk, s.procs[p].pc, s.lk[k]) && !s.procs[p].pc.Sleep1? && !s.procs[p].pc.Sleep2?
    requires t.procs[p].pc.Inside? || t.procs[p].pc.Waking?
    requires t.mons == s.mons[k := s.mons[k].(ready := true)]
    requires forall j: nat | j < |s.procs| :: Pending(t.procs[p].pc, k, j)
    requires forall j: nat, m: nat | Pending(s.procs[p].pc, j, m) && j != k :: Pending(t.procs[p].pc, j, m)
    requires Owned(t)
    ensures Monitors(t)
  {
    OneMovesForgets(s, t, p, k);
    OneMovesAcquires(s, t, p);
    NoOtherSleeper(s, p, k);
    forall q: nat | q < |t.procs| ensures SomePending(t, k, q) {
      assert Pending(t.procs[p].pc, k, q);
    }
    forall q: nat, j: nat | q < |t.procs| && AboutToSleep(t.procs[q].pc, j) ensures !Ready(t.mons, j) {
      assert AboutToSleep(s.procs[q].pc, j) && !Ready(s.mons, j);
    }
  }

  lemma FalsifyMonitors(s: State, t: State, k: nat)
    requires Monitors(s) && k < |s.mons| && !s.mons[k].isLock && t == SetMonitor(s, k, s.mons[k].(ready := false))
    ensures Monitors(t)
  {
    forall q: nat, j: nat | q < |t.procs| && j in t.procs[q].has ensures LockedBy(t.mons, j, q) {
      assert LockedBy(s.mons, j, q);
    }
    forall q: nat, j: nat | q < |t.procs| && Acquires(t.procs[q].pc, j) ensures IsLock(t.mons, j) {
      assert Acquires(s.procs[q].pc, j) && IsLock(s.mons, j);
    }
    forall q: nat, j: nat | q < |t.procs| && AboutToSleep(t.procs[q].pc, j) ensures !Ready(t.mons, j) {
      assert AboutToSleep(s.procs[q].pc, j) && !Ready(s.mons, j);
    }
    forall q: nat, j: nat | q < |t.procs| && Ready(t.mons, j) && WaitsOn(q, t.procs[q], OfMonitor(j))
      ensures SomePending(t, j, q) {
      assert Ready(s.mons, j) && SomePending(s, j, q);
      StillPending(s, t, j, q);
    }
  }

  /** The thread goes to sleep on k, whose condition is false. */
  lemma BlockMonitors(s: State, t: State, p: nat, r: Sleeper)
    requires Monitors(s) && OneMoves(s, t, p) && !r.InWait? && !Ready(s.mons, r.k) && t.mons == s.mons
    requires t.procs[p] == s.procs[p].(pc := Sleep1(r)) && (r.InLock? ==> IsLock(s.mons, r.k))
    requires forall k: nat, m: nat :: !Pending(s.procs[p].pc, k, m)
    ensures Monitors(t)
  {
    OneMovesForgets(s, t, p, |s.mons|);
  }

  lemma MonitorMonitors(s: State, c: nat, p: nat, ch: Choice)
    requires Monitors(s) && OneInSpin(s) && MonitorEnabled(s, c, p, ch) && Here(s, c, p)
    ensures Monitors(MonitorNext(s, c, p, ch))
  {
    var t := MonitorNext(s, c, p, ch);
    if ch.Falsify? {
      FalsifyMonitors(s, t, ch.k);
    } else if ch.Fulfil? {
      forall q: nat, j: nat | q < |t.procs| && j in t.procs[q].has ensures LockedBy(t.mons, j, q) {
        assert j in s.procs[q].has && LockedBy(s.mons, j, q);
      }
      FulfilMonitors(s, t, p, ch.k);
    } else if ch.CallSleep? {
      BlockMonitors(s, t, p, InMonitor(ch.k));
    } else {
      CalmMonitors(s, t);
    }
  }

  // ----- acquiresleep and releasesleep ---------------------------------------------

  lemma AcquireMonitors(s: State, t: State, p: nat, k: nat)
    requires Monitors(s) && OneMoves(s, t, p) && k < |s.mons| && s.procs[p].pc == Acquire2(k) && s.mons[k].ready
    requires t.procs[p] == s.procs[p].(pc := Out, has := s.procs[p].has + {k})
    requires t.mons == s.mons[k := s.mons[k].(ready := false, owner := p)]
    ensures Monitors(t)
  {
    assert Acquires(s.procs[p].pc, k) && IsLock(s.mons, k);
    OneMovesForgets(s, t, p, |s.mons|);
    OneMovesAcquires(s, t, p);
    OneMovesUnready(s, t, p);
    forall q: nat, j: nat | q < |t.procs| && j in t.procs[q].has ensures LockedBy(t.mons, j, q) {
      assert (q == p && j == k) || (j in s.procs[q].has && LockedBy(s.mons, j, q));
    }
  }

  lemma ReleaseMonitors(s: State, t: State, p: nat, k: nat)
    requires Monitors(s) && OneInSpin(s) && OneMoves(s, t, p) && k < |s.mons| == |s.lk| && s.lk[k] < |s.spins|
    requires s.procs[p].pc == Release2(k) && k in s.procs[p].has
    requires t.procs[p] == s.procs[p].(pc := Waking(Unlock(k), 0), has := s.procs[p].has - {k})
    requires t.mons == s.mons[k := s.mons[k].(ready := true)]
    ensures Monitors(t)
  {
    forall q: nat, j: nat | q < |t.procs| && j in t.procs[q].has ensures LockedBy(t.mons, j, q) {
      assert j in s.procs[q].has && k in s.procs[p].has && LockedBy(s.mons, j, q) && LockedBy(s.mons, k, p);
    }
    FulfilMonitors(s, t, p, k);
  }

  /** acquiresleep() is called of a sleeplock. */
  lemma CallAcquireMonitors(s: State, t: State, p: nat, k: nat)
    requires Monitors(s) && OneMoves(s, t, p) && s.procs[p].pc.Out? && t.procs[p] == s.procs[p].(pc := Acquire1(k)) &&
             t.mons == s.mons
    requires IsLock(s.mons, k)
    ensures Monitors(t)
  {
    OneMovesForgets(s, t, p, |s.mons|);
  }

  lemma LockMonitors(s: State, c: nat, p: nat, ch: Choice)
    requires Monitors(s) && OneInSpin(s) && LockEnabled(s, c, p, ch) && Here(s, c, p)
    ensures Monitors(LockNext(s, c, p, ch))
  {
    var t, pc := LockNext(s, c, p, ch), s.procs[p].pc;
    if pc.Acquire2? && !s.mons[pc.k].ready {
      assert Acquires(pc, pc.k);
      BlockMonitors(s, t, p, InLock(pc.k));
    } else if pc.Acquire2? {
      AcquireMonitors(s, t, p, pc.k);
    } else if pc.Release2? {
      ReleaseMonitors(s, t, p, pc.k);
    } else if pc.Out? && ch.CallAcquire? {
      CallAcquireMonitors(s, t, p, ch.k);
    } else {
      CalmMonitors(s, t);
    }
  }

  // ----- the other operations --------------------------------------------------------

  lemma ExitMonitors(s: State, c: nat, p: nat, ch: Choice)
    requires Monitors(s) && ExitEnabled(s, c, p, ch) && Here(s, c, p)
    ensures Monitors(ExitNext(s, c, p, ch))
  {
    CalmMonitors(s, ExitNext(s, c, p, ch));
  }

  lemma WaitMonitors(s: State, c: nat, p: nat, ch: Choice)
    requires Monitors(s) && WaitEnabled(s, c, p, ch) && StateOk(p, s.procs[p])
    requires Reaps(s, p, ch) ==> s.procs[s.procs[p].pc.i].pc.Dead?
    ensures Monitors(WaitNext(s, c, p, ch))
  {
    CalmMonitors(s, WaitNext(s, c, p, ch));
  }

  lemma ForkMonitors(s: State, c: nat, p: nat, ch: Choice)
    requires Monitors(s) && ForkEnabled(s, c, p, ch) && StateOk(p, s.procs[p])
    requires s.procs[p].pc.Fork1? && s.procs[p].pc.i < |s.procs| ==> StateOk(s.procs[p].pc.i, s.procs[s.procs[p].pc.i])
    requires s.procs[p].pc.Fork2? || s.procs[p].pc.Fork3? ==>
               s.procs[s.procs[p].pc.i].state == USED && s.procs[s.procs[p].pc.i].pc == Entry
    ensures Monitors(ForkNext(s, c, p, ch))
  {
    CalmMonitors(s, ForkNext(s, c, p, ch));
  }
}
