/**
 Processes, CPUs and their locks: scheduler, sched, yield, sleep, wakeup, exit,
 wait, fork, kill, acquiresleep and releasesleep as one state machine.

 Any number of CPUs run at once.  A step is what one CPU does up to its next lock
 operation or context switch.  A critical section that takes a lock and gives it
 back without taking another lock or switching is one step, possible only while
 the lock is free; a lock that is held across other steps (p->lock from the
 scheduler into the process and back, wait_lock, any spinlock that is passed to
 sleep) is held explicitly.  A process may be preempted wherever it holds no spinlock.

 A monitor is a channel with the spinlock that callers pass to sleep() with it, and the
 condition that sleepers on it wait for.  What the condition is about is left open: who
 holds the spinlock may make it false at any time, and true if it calls wakeup() on the
 channel before it lets go.  Several monitors may share a spinlock.  A sleeplock is a
 monitor whose condition is that it is not locked.
 */
module ProcModel {
  import opened Common

  datatype PState = UNUSED | USED | SLEEPING | RUNNABLE | RUNNING | ZOMBIE

  /** Sleep channels: a process (wait) or a monitor. */
  datatype Chan = NoChan | OfProc(p: nat) | OfMonitor(k: nat)

  /** Who called sleep(). */
  datatype Sleeper = InWait | InLock(k: nat) | InMonitor(k: nat)

  /** Who called wakeup(); a holder of spinlock l may owe it on other channels still. */
  datatype Waker = Reparent(i: nat) | ExitParent | Unlock(k: nat) | Notify(k: nat, l: nat, owed: set<nat>)

  /** Where the kernel thread of a process is. */
  datatype Pc =
    | Idle                          // unused slot
    | Entry                         // at forkret, p->lock held when it runs
    | Out                           // user code, or kernel code outside this model
    | Yielding(n: Pc)               // yield: p->lock taken, interrupted at n
    | Yielded(n: Pc)                // yield: in sched()
    | Sleep1(r: Sleeper)            // sleep: to acquire p->lock
    | Sleep2(r: Sleeper)            // sleep: to release lk
    | Sleep3(r: Sleeper)            // sleep: to mark itself SLEEPING
    | Asleep(r: Sleeper)            // sleep: in sched()
    | Woken(r: Sleeper)             // sleep: to reacquire lk
    | Waking(w: Waker, m: nat)      // wakeup: at process m
    | Enter(l: nat)                 // to acquire spinlock l
    | Inside(l: nat, owed: set<nat>)  // holding it; owes wakeup() on these channels
    | Acquire1(k: nat)              // acquiresleep: to acquire lk->lk
    | Acquire2(k: nat)              // acquiresleep: to test lk->locked
    | Release1(k: nat)              // releasesleep: to acquire lk->lk
    | Release2(k: nat)              // releasesleep: to clear lk->locked
    | Release3(k: nat)              // releasesleep: to release lk->lk
    | Exit1                         // exit: to acquire wait_lock
    | Exit2(i: nat)                 // exit: reparent at process i
    | Exit3                         // exit: to acquire p->lock
    | Exit4                         // exit: to become ZOMBIE
    | Exit5                         // exit: to release wait_lock
    | Exit6                         // exit: to call sched()
    | Dead                          // exit: in sched(), never to return
    | Wait1                         // wait: to acquire wait_lock
    | Wait2(i: nat, kids: bool)     // wait: scan at process i
    | Wait3                         // wait: to release wait_lock and return
    | Fork1(i: nat)                 // fork: allocproc at process i
    | Fork2(i: nat)                 // fork: to set the parent of i
    | Fork3(i: nat)                 // fork: to make i RUNNABLE

  datatype Proc = Proc(
    state: PState,
    chan: Chan,
    parent: Option<nat>,
    lock: Option<nat>,              // the CPU holding p->lock
    pc: Pc,
    on: Option<nat>,                // the CPU executing on p's kernel stack
    has: set<nat>,                  // the sleeplocks p has acquired and not released
    exited: nat, reaped: nat)       // how often this slot has exited, and been freed by wait()

  datatype Stack = OfScheduler | OfProcess(p: nat)

  /** Where the scheduler thread of a CPU is. */
  datatype SPc =
    | Scan(i: nat)                  // to acquire proc[i].lock
    | Holding(i: nat)               // to look at proc[i].state
    | Switched(i: nat)              // in swtch(), to proc[i]
    | Dropping(i: nat)              // to release proc[i].lock

  datatype Cpu = Cpu(proc: Option<nat>, stack: Stack, spc: SPc)

  /** ready: the condition holds.  A sleeplock is ready while it is not locked, else owner has it. */
  datatype Monitor = Monitor(ready: bool, isLock: bool, owner: nat)

  datatype State = State(
    procs: seq<Proc>,
    cpus: seq<Cpu>,
    waitLock: Option<nat>,          // the CPU holding wait_lock
    spins: seq<Option<nat>>,        // the CPUs holding the other spinlocks
    lk: seq<nat>,                   // the spinlock of each monitor
    mons: seq<Monitor>)

  const INIT: nat := 0              // initproc

  // ----- what a thread holds ---------------------------------------------

  predicate OwnsSelf(pc: Pc) {
    pc.Entry? || pc.Yielding? || pc.Yielded? || pc.Sleep2? || pc.Sleep3? || pc.Asleep? ||
    pc.Exit4? || pc.Exit5? || pc.Exit6?
  }

  predicate OfExit(w: Waker) { w.Reparent? || w.ExitParent? }

  predicate OwnsWait(pc: Pc) {
    || ((pc.Sleep1? || pc.Sleep2?) && pc.r.InWait?)
    || (pc.Waking? && OfExit(pc.w))
    || pc.Exit2? || pc.Exit3? || pc.Exit4? || pc.Exit5? || pc.Wait2? || pc.Wait3?
  }

  /** The spinlock of monitor k is l. */
  predicate IsLk(lk: seq<nat>, k: nat, l: nat) { k < |lk| && lk[k] == l }

  predicate OwnsSpin(lk: seq<nat>, pc: Pc, l: nat) {
    || ((pc.Sleep1? || pc.Sleep2?) && !pc.r.InWait? && IsLk(lk, pc.r.k, l))
    || (pc.Waking? && pc.w.Unlock? && IsLk(lk, pc.w.k, l))
    || (pc.Waking? && pc.w.Notify? && pc.w.l == l)
    || ((pc.Acquire2? || pc.Release2? || pc.Release3?) && IsLk(lk, pc.k, l))
    || (pc.Inside? && pc.l == l)
  }

  /** The thread holds no spinlock, so interrupts are on. */
  predicate Interruptible(pc: Pc) {
    pc.Out? || pc.Woken? || pc.Enter? || pc.Acquire1? || pc.Release1? || pc.Exit1? || pc.Wait1? || pc.Fork1? ||
      pc.Fork2? || pc.Fork3?
  }

  /** The point a preempted thread will go on from. */
  function Core(pc: Pc): (c: Pc) {
    if pc.Yielding? || pc.Yielded? then pc.n else pc
  }

  function SleepChan(p: nat, r: Sleeper): (c: Chan) {
    match r
    case InWait => OfProc(p)
    case InLock(k) => OfMonitor(k)
    case InMonitor(k) => OfMonitor(k)
  }

  // ----- state updates -----------------------------------------------------

  function SetProc(s: State, p: nat, q: Proc): (t: State)
    requires p < |s.procs|
  {
    s.(procs := s.procs[p := q])
  }

  function Goto(s: State, p: nat, pc: Pc): (t: State)
    requires p < |s.procs|
  {
    s.(procs := s.procs[p := s.procs[p].(pc := pc)])
  }

  function SetSpin(s: State, l: nat, spin: Option<nat>): (t: State)
    requires l < |s.spins|
  {
    s.(spins := s.spins[l := spin])
  }

  function SetMonitor(s: State, k: nat, m: Monitor): (t: State)
    requires k < |s.mons|
  {
    s.(mons := s.mons[k := m])
  }

  /** Monitor k is there, and so is its spinlock. */
  predicate HasLk(s: State, k: nat) { k < |s.mons| == |s.lk| && s.lk[k] < |s.spins| }

  /** swtch() from process p, left as q, to the scheduler of CPU c. */
  function SwitchOut(s: State, c: nat, p: nat, q: Proc): (t: State)
    requires c < |s.cpus| && p < |s.procs|
  {
    s.(procs := s.procs[p := q.(on := None)], cpus := s.cpus[c := s.cpus[c].(stack := OfScheduler)])
  }

  /** freeproc(). */
  function Freed(q: Proc): (r: Proc) {
    q.(state := UNUSED, chan := NoChan, parent := None, pc := Idle)
  }

  /** wakeup()'s test on one process. */
  function Roused(q: Proc, ch: Chan): (r: Proc) {
    if q.state == SLEEPING && q.chan == ch then q.(state := RUNNABLE) else q
  }

  // ----- the scheduler thread of CPU c -------------------------------------

  predicate SchedEnabled(s: State, c: nat) {
    && c < |s.cpus| && s.cpus[c].stack == OfScheduler
    && s.cpus[c].spc.i < |s.procs|
    && (s.cpus[c].spc.Scan? ==> s.procs[s.cpus[c].spc.i].lock.None?)
  }

  function SchedNext(s: State, c: nat): (t: State)
    requires SchedEnabled(s, c)
  {
    var i := s.cpus[c].spc.i;
    match s.cpus[c].spc
    case Scan(_) =>
      s.(procs := s.procs[i := s.procs[i].(lock := Some(c))], cpus := s.cpus[c := s.cpus[c].(spc := Holding(i))])
    case Holding(_) =>
      if s.procs[i].state == RUNNABLE then
        s.(procs := s.procs[i := s.procs[i].(state := RUNNING, on := Some(c))],
           cpus := s.cpus[c := Cpu(Some(i), OfProcess(i), Switched(i))])
      else s.(cpus := s.cpus[c := s.cpus[c].(spc := Dropping(i))])
    case Switched(_) =>
      s.(cpus := s.cpus[c := Cpu(None, OfScheduler, Dropping(i))])
    case Dropping(_) =>
      s.(procs := s.procs[i := s.procs[i].(lock := None)],
         cpus := s.cpus[c := s.cpus[c].(spc := Scan(if i + 1 < |s.procs| then i + 1 else 0))])
  }

  // ----- the thread of process p, on CPU c -----------------------------------

  /** What a thread outside the model may call, and the outcomes the model leaves open. */
  datatype Choice =
    | Go                          // the next statement
    | Preempted                   // a timer interrupt
    | CallEnter(l: nat)
    | Falsify(k: nat)             // the condition of monitor k is made false
    | Fulfil(k: nat)              // or true
    | CallWakeup(k: nat)
    | CallSleep(k: nat)
    | CallAcquire(k: nat)
    | CallRelease(k: nat)
    | CallExit
    | CallWait
    | CallFork
    | CallKill(j: nat)
    | Fail                        // copyout, allocation, or killed() say no

  predicate At(s: State, c: nat, p: nat) {
    c < |s.cpus| && p < |s.procs| && s.cpus[c].stack == OfProcess(p)
  }

  /** forkret, yield. */
  predicate SwitchEnabled(s: State, c: nat, p: nat, ch: Choice) {
    At(s, c, p) &&
    match ch
    case Preempted => Interruptible(s.procs[p].pc) && s.procs[p].lock.None?
    case Go => s.procs[p].pc.Entry? || s.procs[p].pc.Yielding? || s.procs[p].pc.Yielded?
    case _ => false
  }

  function SwitchNext(s: State, c: nat, p: nat, ch: Choice): (t: State)
    requires SwitchEnabled(s, c, p, ch)
  {
    var q := s.procs[p];
    if ch.Preempted? then SetProc(s, p, q.(lock := Some(c), pc := Yielding(q.pc)))
    else if q.pc.Entry? then SetProc(s, p, q.(lock := None, pc := Out))
    else if q.pc.Yielding? then SwitchOut(s, c, p, q.(state := RUNNABLE, pc := Yielded(q.pc.n)))
    else SetProc(s, p, q.(lock := None, pc := q.pc.n))
  }

  /** sleep(). */
  predicate SleepEnabled(s: State, c: nat, p: nat) {
    At(s, c, p) &&
    match s.procs[p].pc
    case Sleep1(_) => s.procs[p].lock.None?
    case Sleep2(r) => r.InWait? || HasLk(s, r.k)
    case Sleep3(_) => true
    case Asleep(_) => true
    case Woken(r) => if r.InWait? then s.waitLock.None? else HasLk(s, r.k) && s.spins[s.lk[r.k]].None?
    case _ => false
  }

  function SleepNext(s: State, c: nat, p: nat): (t: State)
    requires SleepEnabled(s, c, p)
  {
    var q := s.procs[p];
    match q.pc
    case Sleep1(r) => SetProc(s, p, q.(lock := Some(c), pc := Sleep2(r)))
    case Sleep2(r) =>
      var t := Goto(s, p, Sleep3(r));
      if r.InWait? then t.(waitLock := None) else SetSpin(t, s.lk[r.k], None)
    case Sleep3(r) => SwitchOut(s, c, p, q.(state := SLEEPING, chan := SleepChan(p, r), pc := Asleep(r)))
    case Asleep(r) => SetProc(s, p, q.(chan := NoChan, lock := None, pc := Woken(r)))
    case Woken(r) =>
      if r.InWait? then Goto(s, p, Wait2(0, false)).(waitLock := Some(c))
      else SetSpin(Goto(s, p, if r.InLock? then Acquire2(r.k) else Inside(s.lk[r.k], {})), s.lk[r.k], Some(c))
  }

  /** The channel that waker w, in process p, wakes. */
  function WakeChan(s: State, p: nat, w: Waker): (ch: Chan)
    requires p < |s.procs|
  {
    match w
    case Reparent(_) => OfProc(INIT)
    case ExitParent => if s.procs[p].parent.Some? then OfProc(s.procs[p].parent.value) else NoChan
    case Unlock(k) => OfMonitor(k)
    case Notify(k, _, _) => OfMonitor(k)
  }

  /** Where wakeup() returns to. */
  function AfterWakeup(w: Waker): (pc: Pc) {
    match w
    case Reparent(i) => Exit2(i + 1)
    case ExitParent => Exit3
    case Unlock(k) => Release3(k)
    case Notify(_, l, owed) => Inside(l, owed)
  }

  /** wakeup(). */
  predicate WakeEnabled(s: State, c: nat, p: nat) {
    && At(s, c, p) && s.procs[p].pc.Waking?
    && s.procs[p].pc.m <= |s.procs|
    && (s.procs[p].pc.m < |s.procs| && s.procs[p].pc.m != p ==> s.procs[s.procs[p].pc.m].lock.None?)
  }

  function WakeNext(s: State, c: nat, p: nat): (t: State)
    requires WakeEnabled(s, c, p)
  {
    var pc := s.procs[p].pc;
    if pc.m == |s.procs| then Goto(s, p, AfterWakeup(pc.w))
    else if pc.m == p then Goto(s, p, Waking(pc.w, pc.m + 1))
    else SetProc(Goto(s, p, Waking(pc.w, pc.m + 1)), pc.m, Roused(s.procs[pc.m], WakeChan(s, p, pc.w)))
  }

  /** Code that takes spinlock l, looks at what it protects, sleeps and wakes others up. */
  predicate MonitorEnabled(s: State, c: nat, p: nat, ch: Choice) {
    At(s, c, p) &&
    match s.procs[p].pc
    case Out => ch.CallEnter? && ch.l < |s.spins|
    case Enter(l) => ch.Go? && l < |s.spins| && s.spins[l].None?
    case Inside(l, owed) =>
      l < |s.spins| &&
      (match ch
       case Falsify(k) => HasLk(s, k) && s.lk[k] == l && !s.mons[k].isLock
       case Fulfil(k) => HasLk(s, k) && s.lk[k] == l && !s.mons[k].isLock
       case CallWakeup(k) => HasLk(s, k) && s.lk[k] == l
       case CallSleep(k) => HasLk(s, k) && s.lk[k] == l && !s.mons[k].ready && owed == {}
       case Go => owed == {}
       case _ => false)
    case _ => false
  }

  function MonitorNext(s: State, c: nat, p: nat, ch: Choice): (t: State)
    requires MonitorEnabled(s, c, p, ch)
  {
    match s.procs[p].pc
    case Out => Goto(s, p, Enter(ch.l))
    case Enter(l) => SetSpin(Goto(s, p, Inside(l, {})), l, Some(c))
    case Inside(l, owed) =>
      match ch
      case Falsify(k) => SetMonitor(s, k, s.mons[k].(ready := false))
      case Fulfil(k) => SetMonitor(Goto(s, p, Inside(l, owed + {k})), k, s.mons[k].(ready := true))
      case CallWakeup(k) => Goto(s, p, Waking(Notify(k, l, owed - {k}), 0))
      case CallSleep(k) => Goto(s, p, Sleep1(InMonitor(k)))
      case Go => SetSpin(Goto(s, p, Out), l, None)
  }

  /** acquiresleep() and releasesleep(). */
  predicate LockEnabled(s: State, c: nat, p: nat, ch: Choice) {
    At(s, c, p) &&
    match s.procs[p].pc
    case Out => (ch.CallAcquire? && HasLk(s, ch.k) && s.mons[ch.k].isLock) ||
      (ch.CallRelease? && ch.k in s.procs[p].has)
    case Acquire1(k) => ch.Go? && HasLk(s, k) && s.spins[s.lk[k]].None?
    case Acquire2(k) => ch.Go? && HasLk(s, k)
    case Release1(k) => ch.Go? && HasLk(s, k) && s.spins[s.lk[k]].None?
    case Release2(k) => ch.Go? && HasLk(s, k)
    case Release3(k) => ch.Go? && HasLk(s, k)
    case _ => false
  }

  function LockNext(s: State, c: nat, p: nat, ch: Choice): (t: State)
    requires LockEnabled(s, c, p, ch)
  {
    var q := s.procs[p];
    match q.pc
    case Out => Goto(s, p, if ch.CallAcquire? then Acquire1(ch.k) else Release1(ch.k))
    case Acquire1(k) => SetSpin(Goto(s, p, Acquire2(k)), s.lk[k], Some(c))
    case Acquire2(k) =>
      if !s.mons[k].ready then Goto(s, p, Sleep1(InLock(k)))
      else SetSpin(SetMonitor(SetProc(s, p, q.(pc := Out, has := q.has + {k})), k,
                              s.mons[k].(ready := false, owner := p)), s.lk[k], None)
    case Release1(k) => SetSpin(Goto(s, p, Release2(k)), s.lk[k], Some(c))
    case Release2(k) =>
      SetMonitor(SetProc(s, p, q.(pc := Waking(Unlock(k), 0), has := q.has - {k})), k, s.mons[k].(ready := true))
    case Release3(k) => SetSpin(Goto(s, p, Out), s.lk[k], None)
  }

  /** exit().  The caller is not initproc: "init exiting" is a panic. */
  predicate ExitEnabled(s: State, c: nat, p: nat, ch: Choice) {
    At(s, c, p) &&
    match s.procs[p].pc
    case Out => ch.CallExit? && p != INIT
    case Exit1 => ch.Go? && s.waitLock.None?
    case Exit2(_) => ch.Go?
    case Exit3 => ch.Go? && s.procs[p].lock.None?
    case Exit4 => ch.Go?
    case Exit5 => ch.Go?
    case Exit6 => ch.Go?
    case _ => false
  }

  function ExitNext(s: State, c: nat, p: nat, ch: Choice): (t: State)
    requires ExitEnabled(s, c, p, ch)
  {
    var q := s.procs[p];
    match q.pc
    case Out => Goto(s, p, Exit1)
    case Exit1 => Goto(s, p, Exit2(0)).(waitLock := Some(c))
    case Exit2(i) =>
      if i >= |s.procs| then Goto(s, p, Waking(ExitParent, 0))
      else if s.procs[i].parent == Some(p) then
        Goto(SetProc(s, i, s.procs[i].(parent := Some(INIT))), p, Waking(Reparent(i), 0))
      else Goto(s, p, Exit2(i + 1))
    case Exit3 => SetProc(s, p, q.(lock := Some(c), pc := Exit4))
    case Exit4 => SetProc(s, p, q.(state := ZOMBIE, pc := Exit5, exited := q.exited + 1))
    case Exit5 => Goto(s, p, Exit6).(waitLock := None)
    case Exit6 => SwitchOut(s, c, p, q.(pc := Dead))
  }

  /** wait(). */
  predicate WaitEnabled(s: State, c: nat, p: nat, ch: Choice) {
    At(s, c, p) &&
    match s.procs[p].pc
    case Out => ch.CallWait?
    case Wait1 => ch.Go? && s.waitLock.None?
    case Wait2(i, kids) =>
      (if i >= |s.procs| then ch.Fail? || (ch.Go? && kids)
       else if s.procs[i].parent == Some(p) then
         s.procs[i].lock.None? && (ch.Go? || (ch.Fail? && s.procs[i].state == ZOMBIE))
       else ch.Go?)
    case Wait3 => ch.Go?
    case _ => false
  }

  function WaitNext(s: State, c: nat, p: nat, ch: Choice): (t: State)
    requires WaitEnabled(s, c, p, ch)
  {
    match s.procs[p].pc
    case Out => Goto(s, p, Wait1)
    case Wait1 => Goto(s, p, Wait2(0, false)).(waitLock := Some(c))
    case Wait2(i, kids) =>
      if i >= |s.procs| then Goto(s, p, if ch.Fail? then Wait3 else Sleep1(InWait))
      else if s.procs[i].parent != Some(p) then Goto(s, p, Wait2(i + 1, kids))
      else if s.procs[i].state != ZOMBIE then Goto(s, p, Wait2(i + 1, true))
      else if ch.Fail? then Goto(s, p, Wait3)
      else SetProc(Goto(s, p, Wait3), i, Freed(s.procs[i]).(reaped := s.procs[i].reaped + 1))
    case Wait3 => Goto(s, p, Out).(waitLock := None)
  }

  /** fork(), with allocproc(). */
  predicate ForkEnabled(s: State, c: nat, p: nat, ch: Choice) {
    At(s, c, p) &&
    match s.procs[p].pc
    case Out => ch.CallFork?
    case Fork1(i) =>
      (if i >= |s.procs| then ch.Go? else s.procs[i].lock.None? && (ch.Go? || (ch.Fail? && s.procs[i].state == UNUSED)))
    case Fork2(i) => ch.Go? && i < |s.procs| && s.waitLock.None?
    case Fork3(i) => ch.Go? && i < |s.procs| && s.procs[i].lock.None?
    case _ => false
  }

  function ForkNext(s: State, c: nat, p: nat, ch: Choice): (t: State)
    requires ForkEnabled(s, c, p, ch)
  {
    match s.procs[p].pc
    case Out => Goto(s, p, Fork1(0))
    case Fork1(i) =>
      if i >= |s.procs| || ch.Fail? then Goto(s, p, Out)
      else if s.procs[i].state != UNUSED then Goto(s, p, Fork1(i + 1))
      else SetProc(Goto(s, p, Fork2(i)), i, s.procs[i].(state := USED, pc := Entry))
    case Fork2(i) =>
      var t := Goto(s, p, Fork3(i));
      SetProc(t, i, t.procs[i].(parent := Some(p)))
    case Fork3(i) =>
      var t := Goto(s, p, Out);
      SetProc(t, i, t.procs[i].(state := RUNNABLE))
  }

  /** kill() of process j. */
  predicate KillEnabled(s: State, c: nat, p: nat, ch: Choice) {
    At(s, c, p) && s.procs[p].pc.Out? && ch.CallKill? && ch.j < |s.procs| && s.procs[ch.j].lock.None?
  }

  function KillNext(s: State, c: nat, p: nat, ch: Choice): (t: State)
    requires KillEnabled(s, c, p, ch)
  {
    var q := s.procs[ch.j];
    SetProc(s, ch.j, if q.state == SLEEPING then q.(state := RUNNABLE) else q)
  }

  // ----- runs ----------------------------------------------------------------

  /** A step of a scheduler, or of a thread in yield, sleep, wakeup, a monitor or a sleeplock. */
  ghost predicate SwitchingStep(s: State, t: State) {
    || (exists c: nat :: SchedEnabled(s, c) && t == SchedNext(s, c))
    || (exists c: nat, p: nat, ch :: SwitchEnabled(s, c, p, ch) && t == SwitchNext(s, c, p, ch))
    || (exists c: nat, p: nat :: SleepEnabled(s, c, p) && t == SleepNext(s, c, p))
    || (exists c: nat, p: nat :: WakeEnabled(s, c, p) && t == WakeNext(s, c, p))
    || (exists c: nat, p: nat, ch :: MonitorEnabled(s, c, p, ch) && t == MonitorNext(s, c, p, ch))
    || (exists c: nat, p: nat, ch :: LockEnabled(s, c, p, ch) && t == LockNext(s, c, p, ch))
  }

  /** A step of a thread in exit, wait, fork or kill. */
  ghost predicate LifeStep(s: State, t: State) {
    || (exists c: nat, p: nat, ch :: ExitEnabled(s, c, p, ch) && t == ExitNext(s, c, p, ch))
    || (exists c: nat, p: nat, ch :: WaitEnabled(s, c, p, ch) && t == WaitNext(s, c, p, ch))
    || (exists c: nat, p: nat, ch :: ForkEnabled(s, c, p, ch) && t == ForkNext(s, c, p, ch))
    || (exists c: nat, p: nat, ch :: KillEnabled(s, c, p, ch) && t == KillNext(s, c, p, ch))
  }

  ghost predicate Step(s: State, t: State) { SwitchingStep(s, t) || LifeStep(s, t) }

  /** A thread that runs on a CPU of its own from the start.  An interrupt that a scheduler takes, in its idle loop,
      is served by such a thread: it takes a spinlock, makes conditions true, calls wakeup() and lets go. */
  predicate Server(s: State, c: nat, p: nat) {
    && c < |s.cpus| && p < |s.procs| && p != INIT && s.cpus[c] == Cpu(Some(p), OfProcess(p), Switched(p))
    && s.procs[p] == Proc(RUNNING, NoChan, None, None, Out, Some(c), {}, 0, 0)
  }

  /** After userinit(): initproc is RUNNABLE, every CPU is about to enter its scheduler loop, but for those that
      serve interrupts. */
  predicate Start(s: State) {
    && |s.procs| > 0
    && (forall p: nat | p < |s.procs| ::
          || s.procs[p] == (if p == INIT then Proc(RUNNABLE, NoChan, None, None, Entry, None, {}, 0, 0)
                            else Proc(UNUSED, NoChan, None, None, Idle, None, {}, 0, 0))
          || (s.procs[p].on.Some? && Server(s, s.procs[p].on.value, p)))
    && (forall c: nat | c < |s.cpus| ::
          s.cpus[c] == Cpu(None, OfScheduler, Scan(0)) || (s.cpus[c].proc.Some? && Server(s, c, s.cpus[c].proc.value)))
    && s.waitLock == None
    && (forall l | 0 <= l < |s.spins| :: s.spins[l] == None)
    && |s.lk| == |s.mons|
    && (forall k | 0 <= k < |s.mons| :: s.lk[k] < |s.spins| && (s.mons[k].isLock ==> s.mons[k].ready))
  }

  ghost predicate Run(run: seq<State>) {
    run != [] && Start(run[0]) && forall i: nat, j: nat | j == i + 1 && j < |run| :: Step(run[i], run[j])
  }
}
