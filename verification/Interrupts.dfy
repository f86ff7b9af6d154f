/**
 Interrupts and spinlocks: push_off() and pop_off(), which acquire() and release() call, and what becomes of the
 interrupt flag when threads switch.

 noff and intena belong to the CPU, yet are meant for the kernel thread that runs on it, which may go on on
 another CPU.  sched() therefore keeps intena in a local variable across swtch(); scheduler() does not.
 */
module Interrupts {
  import opened Common

  datatype Thread = Scheduler | Process(p: nat)

  /** Where the kernel thread of a process is: it never ran, is on a CPU, or is in sched() with this intena. */
  datatype Where = Fresh | On(c: nat) | Off(intena: bool)

  /** One life of a process.  depth: its push_off()s that no pop_off() has undone.  enabled: whether interrupts were
      on when it had none. */
  datatype Proc = Proc(depth: nat, enabled: bool, at: Where)

  /** intr: interrupts are on.  depth is that of its scheduler thread. */
  datatype Cpu = Cpu(noff: int, intena: bool, intr: bool, thread: Thread, depth: nat)

  datatype State = State(cpus: seq<Cpu>, procs: seq<Proc>)

  /** What the thread on a CPU does. */
  datatype Event = PushOff | PopOff | IntrOn | IntrOff | Sched | Swtch(p: nat)

  /** How many push_off()s the thread on CPU c has to undo. */
  function Depth(s: State, c: nat): (n: nat)
    requires c < |s.cpus|
  {
    match s.cpus[c].thread
    case Scheduler => s.cpus[c].depth
    case Process(p) => if p < |s.procs| then s.procs[p].depth else 0
  }

  function SetDepth(s: State, c: nat, cpu: Cpu, n: nat): (t: State)
    requires c < |s.cpus|
  {
    match s.cpus[c].thread
    case Scheduler => s.(cpus := s.cpus[c := cpu.(depth := n)])
    case Process(p) =>
      if p < |s.procs| then State(s.cpus[c := cpu], s.procs[p := s.procs[p].(depth := n)]) else s
  }

  /** Callers match their calls; intr_on() and intr_off() are called with no lock held, sched() and scheduler()'s
      swtch() with p->lock only. */
  predicate Enabled(s: State, c: nat, e: Event) {
    c < |s.cpus| &&
    match e
    case PushOff => true
    case PopOff => Depth(s, c) >= 1
    case IntrOn => Depth(s, c) == 0
    case IntrOff => Depth(s, c) == 0
    case Sched => s.cpus[c].thread.Process? && Depth(s, c) == 1
    case Swtch(p) => s.cpus[c].thread.Scheduler? && Depth(s, c) == 1 && p < |s.procs| && !s.procs[p].at.On?
  }

  /** The checks of pop_off() and sched(). */
  predicate Panics(s: State, c: nat, e: Event)
    requires c < |s.cpus|
  {
    match e
    case PopOff => s.cpus[c].intr || s.cpus[c].noff < 1
    case Sched => s.cpus[c].noff != 1 || s.cpus[c].intr
    case _ => false
  }

  function Next(s: State, c: nat, e: Event): (t: State)
    requires Enabled(s, c, e)
  {
    var cpu := s.cpus[c];
    match e
    case PushOff =>
      SetDepth(s, c, cpu.(noff := cpu.noff + 1, intena := if cpu.noff == 0 then cpu.intr
                          else cpu.intena, intr := false), Depth(s, c) + 1)
    case PopOff =>
      SetDepth(s, c, cpu.(noff := cpu.noff - 1, intr := cpu.intr || (cpu.noff - 1 == 0 && cpu.intena)), Depth(s, c) - 1)
    case IntrOn => Flag(s, c, true)
    case IntrOff => Flag(s, c, false)
    case Sched =>
      var p := cpu.thread.p;
      State(s.cpus[c := cpu.(thread := Scheduler)], if p < |s.procs| then
            s.procs[p := s.procs[p].(at := Off(cpu.intena))] else s.procs)
    case Swtch(p) =>
      // forkret() for a new process, else the end of sched()
      var q := s.procs[p];
      var intena := if q.at.Off? then q.at.intena else cpu.intena;
      State(s.cpus[c := cpu.(thread := Process(p), intena := intena)],
            s.procs[p := Proc(1, if q.at.Off? then q.enabled else intena, On(c))])
  }

  function Flag(s: State, c: nat, b: bool): (t: State)
    requires c < |s.cpus|
  {
    var t := s.(cpus := s.cpus[c := s.cpus[c].(intr := b)]);
    match s.cpus[c].thread
    case Scheduler => t
    case Process(p) => if p < |s.procs| then t.(procs := s.procs[p := s.procs[p].(enabled := b)]) else t
  }

  // ----- what every step keeps ------------------------------------------------------

  /** noff counts the locks of the thread that is on the CPU.  While it has any, interrupts are off; a process has
      in intena what they were before. */
  predicate CpuOk(s: State, c: nat)
    requires c < |s.cpus|
  {
    var cpu := s.cpus[c];
    && cpu.noff == Depth(s, c) && (cpu.noff > 0 ==> !cpu.intr)
    && (cpu.thread.Process? ==> cpu.depth == 1 && cpu.thread.p < |s.procs| && s.procs[cpu.thread.p].at == On(c)
                                && s.procs[cpu.thread.p].enabled == if cpu.noff > 0 then cpu.intena else cpu.intr)
  }

  predicate ProcOk(s: State, p: nat)
    requires p < |s.procs|
  {
    match s.procs[p].at
    case Fresh => true
    case On(c) => c < |s.cpus| && s.cpus[c].thread == Process(p)
    case Off(intena) => s.procs[p].depth == 1 && intena == s.procs[p].enabled
  }

  ghost predicate Inv(s: State) {
    && (forall c: nat | c < |s.cpus| :: CpuOk(s, c))
    && (forall p: nat | p < |s.procs| :: ProcOk(s, p))
  }

  /** The event concerns CPU c and process p only. */
  lemma Local(s: State, t: State, c: nat, p: nat)
    requires Inv(s) && c < |s.cpus| == |t.cpus| && |t.procs| == |s.procs|
    requires t.cpus == s.cpus[c := t.cpus[c]] && (p < |s.procs| ==> t.procs == s.procs[p := t.procs[p]]) &&
             (p >= |s.procs| ==> t.procs == s.procs)
    requires CpuOk(t, c) && (p < |s.procs| ==> ProcOk(t, p) && (s.procs[p].at.On? ==> s.procs[p].at.c == c))
    requires forall q: nat | q < |s.procs| && q != p && s.procs[q].at == On(c) :: t.cpus[c].thread == Process(q)
    ensures Inv(t)
  {
    forall d: nat | d < |t.cpus| ensures CpuOk(t, d) {
      assert CpuOk(s, d);
    }
    forall q: nat | q < |t.procs| ensures ProcOk(t, q) {
      assert ProcOk(s, q);
    }
  }

  /** The process on CPU c, or none. */
  function Current(s: State, c: nat): (p: nat)
    requires c < |s.cpus|
  {
    if s.cpus[c].thread.Process? then s.cpus[c].thread.p else |s.procs|
  }

  lemma StepKeeps(s: State, c: nat, e: Event)
    requires Inv(s) && Enabled(s, c, e)
    ensures Inv(Next(s, c, e)) && !Panics(s, c, e)
  {
    assert CpuOk(s, c);
    var p := if e.Swtch? then e.p else Current(s, c);
    if p < |s.procs| { assert ProcOk(s, p); }
    forall q: nat | q < |s.procs| && s.procs[q].at == On(c) ensures s.cpus[c].thread == Process(q) {
      assert ProcOk(s, q);
    }
    Local(s, Next(s, c, e), c, p);
  }

  // ----- runs --------------------------------------------------------------------------

  datatype Step = Step(c: nat, e: Event)

  /** Every CPU is in its scheduler, and no process has run. */
  predicate Start(s: State) {
    && (forall c: nat | c < |s.cpus| :: s.cpus[c].thread.Scheduler? && s.cpus[c].noff == s.cpus[c].depth == 0)
    && (forall p: nat | p < |s.procs| :: s.procs[p].at.Fresh?)
  }

  /** The states of a run, with the step from each to the next. */
  ghost predicate Run(run: seq<State>, steps: seq<Step>) {
    && |run| == |steps| + 1 && Start(run[0])
    && forall i: nat | i < |steps| :: Follows(run, steps, i)
  }

  ghost predicate Follows(run: seq<State>, steps: seq<Step>, i: nat)
    requires i < |steps| < |run|
  {
    Enabled(run[i], steps[i].c, steps[i].e) && run[i + 1] == Next(run[i], steps[i].c, steps[i].e)
  }

  lemma {:induction false} RunKeeps(run: seq<State>, steps: seq<Step>, i: nat)
    requires Run(run, steps) && i < |run|
    ensures Inv(run[i])
  {
    if i > 0 {
      RunKeeps(run, steps, i - 1);
      assert Follows(run, steps, i - 1);
      StepKeeps(run[i - 1], steps[i - 1].c, steps[i - 1].e);
    }
  }

  /** pop_off() and sched() never panic, and a CPU whose thread holds a spinlock takes no interrupt. */
  lemma LocksAreSafe(run: seq<State>, steps: seq<Step>, i: nat, c: nat)
    requires Run(run, steps) && i < |run| && c < |run[i].cpus|
    ensures i < |steps| && steps[i].c == c ==> !Panics(run[i], c, steps[i].e)
    ensures run[i].cpus[c].noff == Depth(run[i], c) && (Depth(run[i], c) > 0 ==> !run[i].cpus[c].intr)
  {
    RunKeeps(run, steps, i);
    assert CpuOk(run[i], c);
    if i < |steps| && steps[i].c == c {
      assert Follows(run, steps, i);
      StepKeeps(run[i], c, steps[i].e);
    }
  }

  // ----- processes, and the scheduler ---------------------------------------------------

  /** Process p is on CPU c, and holds no lock. */
  predicate Free(s: State, p: nat, c: nat) {
    p < |s.procs| && s.procs[p].at == On(c) && s.procs[p].depth == 0 && c < |s.cpus|
  }

  /** From state i to state j, process p does not call intr_on() or intr_off(). */
  ghost predicate LeavesFlag(run: seq<State>, steps: seq<Step>, p: nat, i: nat, j: nat)
    requires j <= |steps| < |run|
  {
    forall k: nat | i <= k < j && steps[k].c < |run[k].cpus| && (steps[k].e.IntrOn? || steps[k].e.IntrOff?) ::
      run[k].cpus[steps[k].c].thread != Process(p)
  }

  lemma {:induction false} FlagKept(run: seq<State>, steps: seq<Step>, p: nat, i: nat, j: nat)
    requires Run(run, steps) && i <= j < |run| && p < |run[i].procs| && !run[i].procs[p].at.Fresh? &&
             LeavesFlag(run, steps, p, i, j)
    ensures |run[j].procs| == |run[i].procs| && !run[j].procs[p].at.Fresh? &&
            run[j].procs[p].enabled == run[i].procs[p].enabled
  {
    if i < j {
      FlagKept(run, steps, p, i, j - 1);
      assert Follows(run, steps, j - 1);
    }
  }

  /** A process that gives back the locks it has taken finds interrupts as they were, however often it has been
      switched out meanwhile and on whichever CPU it is then. */
  lemma ProcessesKeepTheirFlag(run: seq<State>, steps: seq<Step>, p: nat, i: nat, j: nat, c: nat, d: nat)
    requires Run(run, steps) && i <= j < |run| && LeavesFlag(run, steps, p, i, j)
    requires Free(run[i], p, c) && Free(run[j], p, d)
    ensures run[j].cpus[d].intr == run[i].cpus[c].intr
  {
    RunKeeps(run, steps, i);
    RunKeeps(run, steps, j);
    FlagKept(run, steps, p, i, j);
    assert ProcOk(run[i], p) && ProcOk(run[j], p) && CpuOk(run[i], c) && CpuOk(run[j], d);
  }

  /** The scheduler finds them as the process that has switched to it had them: hence its intr_on(). */
  lemma SchedulerTakesFlag(s: State, c: nat, p: nat)
    requires Inv(s) && Enabled(s, c, Sched) && s.cpus[c].thread == Process(p)
    ensures var t := Next(s, c, Sched); Enabled(t, c, PopOff) && Next(t, c, PopOff).cpus[c].intr == s.procs[p].enabled
  {
    assert CpuOk(s, c);
  }

  /** So it may have had them on before, and off after. */
  lemma SchedulerLosesFlag() returns (run: seq<State>, steps: seq<Step>)
    ensures Run(run, steps) && |run| >= 2 && forall k: nat | k < |run| :: |run[k].cpus| == 1
    ensures run[1].cpus[0].thread.Scheduler? && run[1].cpus[0].noff == 0 && run[1].cpus[0].intr
    ensures run[|run| - 1].cpus[0].thread.Scheduler? && run[|run| - 1].cpus[0].noff == 0 && !run[|run| - 1].cpus[0].intr
    ensures forall k: nat | 1 <= k < |steps| && run[k].cpus[0].thread.Scheduler? :: !steps[k].e.IntrOff?
  {
    steps := [Step(0, IntrOn), Step(0, PushOff), Step(0, Swtch(0)), Step(0, PopOff), Step(0, IntrOff),
              Step(0, PushOff), Step(0, Sched), Step(0, PopOff)];
    var s0 := State([Cpu(0, false, false, Scheduler, 0)], [Proc(0, false, Fresh)]);
    var s1 := Next(s0, 0, IntrOn);
    var s2 := Next(s1, 0, PushOff);
    var s3 := Next(s2, 0, Swtch(0));
    var s4 := Next(s3, 0, PopOff);
    var s5 := Next(s4, 0, IntrOff);
    var s6 := Next(s5, 0, PushOff);
    var s7 := Next(s6, 0, Sched);
    run := [s0, s1, s2, s3, s4, s5, s6, s7, Next(s7, 0, PopOff)];
  }
}
