/**
 Space reservation in the log (begin_op, log_write, end_op), over all runs of any
 number of concurrent file system calls.

 log_write() panics when the header is full.  begin_op() is meant to make that
 impossible by admitting an operation only if MAXOPBLOCKS blocks per operation
 still fit.  Whether it does depends on two numbers: the size of the log on disk
 and the number of distinct blocks one operation may log.  For which of them it does
 is stated exactly.
 */
module LogReservation {
  import opened Common
  import CrashRecovery

  const MAXOPBLOCKS := CrashRecovery.MAXOPBLOCKS
  const LOGSIZE := CrashRecovery.LOGSIZE

  /** lh.block[..lh.n], and for each outstanding operation the blocks it has logged. */
  datatype State = State(lh: seq<nat>, ops: seq<set<nat>>, committing: bool)

  datatype Event =
    | Begin                    // begin_op() admits an operation
    | Write(op: nat, b: nat)   // log_write() of block b
    | End(op: nat)             // end_op(); the last one starts the commit
    | Commit                   // the commit is done

  const Empty := State([], [], false)

  /** What callers may do: `bound` limits the distinct blocks one operation logs. */
  predicate Enabled(s: State, e: Event, bound: nat) {
    match e
    case Begin => !s.committing && |s.lh| + (|s.ops| + 1) * MAXOPBLOCKS <= LOGSIZE
    case Write(op, b) => op < |s.ops| && |s.ops[op] + {b}| <= bound
    case End(op) => op < |s.ops|
    case Commit => s.committing
  }

  /** The checks log_write() and end_op() make, on a log of `size` blocks. */
  predicate Panics(s: State, e: Event, size: nat) {
    match e
    case Write(_, _) => |s.lh| >= LOGSIZE || |s.lh| >= size - 1 || |s.ops| < 1
    case End(_) => s.committing
    case _ => false
  }

  function Next(s: State, e: Event): (s': State) {
    match e
    case Begin => s.(ops := s.ops + [{}])
    case Write(op, b) =>
      if op < |s.ops| then
        s.(lh := if b in s.lh then s.lh else s.lh + [b], ops := s.ops[op := s.ops[op] + {b}])
      else s
    case End(op) =>
      if op < |s.ops| then
        s.(ops := s.ops[..op] + s.ops[op + 1..], committing := |s.ops| == 1)
      else s
    case Commit => s.(lh := [], committing := false)
  }

  /** What the operations do, the last event outermost. */
  datatype Run = Start | Then(before: Run, e: Event)

  function After(run: Run): (s: State) { if run.Start? then Empty else Next(After(run.before), run.e) }

  /** A run in which callers keep to their bound and nothing has panicked yet. */
  predicate Legal(run: Run, bound: nat, size: nat) {
    run.Then? ==>
      Legal(run.before, bound, size) && Enabled(After(run.before), run.e, bound) &&
        !Panics(After(run.before), run.e, size)
  }

  // ----- the invariant --------------------------------------------------

  /** The blocks that the outstanding operations may still add, with `bound` for each. */
  function Unused(ops: seq<set<nat>>, bound: nat): (n: int) {
    if ops == [] then 0
    else Unused(ops[..|ops|-1], bound) + bound - |ops[|ops|-1]|
  }

  /** The most blocks a transaction ever has: two operations may begin once MAXOPBLOCKS are logged. */
  function Most(bound: nat): (n: nat) { MAXOPBLOCKS + 2 * bound }

  predicate Inv(s: State, bound: nat) {
    && |s.lh| + Unused(s.ops, bound) <= Most(bound)
    && (forall i | 0 <= i < |s.ops| :: |s.ops[i]| <= bound)
    && (forall i, b | 0 <= i < |s.ops| && b in s.ops[i] :: b in s.lh)
    && (s.committing ==> s.ops == [])
    && (s.lh != [] ==> s.ops != [] || s.committing)
  }

  lemma {:induction false} UnusedUpdate(ops: seq<set<nat>>, i: nat, w: set<nat>, bound: nat)
    requires i < |ops|
    ensures Unused(ops[i := w], bound) == Unused(ops, bound) + |ops[i]| - |w|
  {
    var n := |ops| - 1;
    if i < n {
      UnusedUpdate(ops[..n], i, w, bound);
      assert ops[i := w][..n] == ops[..n][i := w];
    } else {
      assert ops[i := w][..n] == ops[..n];
    }
  }

  lemma {:induction false} UnusedRemove(ops: seq<set<nat>>, i: nat, bound: nat)
    requires i < |ops|
    ensures Unused(ops[..i] + ops[i + 1..], bound) == Unused(ops, bound) - bound + |ops[i]|
  {
    var n := |ops| - 1;
    var rest := ops[..i] + ops[i + 1..];
    if i < n {
      UnusedRemove(ops[..n], i, bound);
      assert rest[..n - 1] == ops[..n][..i] + ops[..n][i + 1..];
    } else {
      assert rest == ops[..n];
    }
  }

  lemma {:induction false} UnusedBounds(ops: seq<set<nat>>, bound: nat)
    requires forall i | 0 <= i < |ops| :: |ops[i]| <= bound
    ensures 0 <= Unused(ops, bound) <= |ops| * bound
  {
    if ops != [] { UnusedBounds(ops[..|ops|-1], bound); }
  }

  lemma BeginKeepsInv(s: State, bound: nat)
    requires Inv(s, bound) && Enabled(s, Begin, bound) && bound <= MAXOPBLOCKS
    ensures Inv(Next(s, Begin), bound)
  {
    UnusedBounds(s.ops, bound);
    var ops := s.ops + [{}];
    assert ops[..|s.ops|] == s.ops;
    assert Unused(ops, bound) == Unused(s.ops, bound) + bound;
    assert |s.ops| <= 2;
  }

  lemma WriteKeepsInv(s: State, op: nat, b: nat, bound: nat)
    requires Inv(s, bound) && Enabled(s, Write(op, b), bound)
    ensures Inv(Next(s, Write(op, b)), bound)
  {
    var w := s.ops[op] + {b};
    UnusedUpdate(s.ops, op, w, bound);
    assert b !in s.lh ==> |w| == |s.ops[op]| + 1;
    SubsetSize(s.ops[op], w);
  }

  lemma EndKeepsInv(s: State, op: nat, bound: nat)
    requires Inv(s, bound) && op < |s.ops| && bound <= MAXOPBLOCKS
    ensures Inv(Next(s, End(op)), bound)
  {
    UnusedRemove(s.ops, op, bound);
    var rest := s.ops[..op] + s.ops[op + 1..];
    forall i, b | 0 <= i < |rest| && b in rest[i] ensures b in s.lh {
      assert rest[i] == s.ops[if i < op then i else i + 1];
    }
    assert forall i | 0 <= i < |rest| :: rest[i] == s.ops[if i < op then i else i + 1];
  }

  lemma StepKeepsInv(s: State, e: Event, bound: nat)
    requires Inv(s, bound) && Enabled(s, e, bound) && bound <= MAXOPBLOCKS
    ensures Inv(Next(s, e), bound)
  {
    match e
    case Begin => BeginKeepsInv(s, bound);
    case Write(op, b) => WriteKeepsInv(s, op, b, bound);
    case End(op) => EndKeepsInv(s, op, bound);
    case Commit =>
  }

  /** After any legal run: what is logged plus what may still be logged is at most Most(bound), and a
      commit runs only when no operation is outstanding, so that none is split over two transactions. */
  lemma {:induction false} RunKeepsInv(run: Run, bound: nat, size: nat)
    requires Legal(run, bound, size) && bound <= MAXOPBLOCKS
    ensures Inv(After(run), bound)
  {
    if run.Then? {
      RunKeepsInv(run.before, bound, size);
      StepKeepsInv(After(run.before), run.e, bound);
    }
  }

  /** end_op() never finds a commit in progress, and log_write() always finds its operation. */
  lemma OnlyFullLogPanics(run: Run, e: Event, bound: nat, size: nat)
    requires Legal(run, bound, size) && bound <= MAXOPBLOCKS && Enabled(After(run), e, bound)
    ensures Panics(After(run), e, size) ==> e.Write? && |After(run).lh| >= Room(size)
  {
    RunKeepsInv(run, bound, size);
  }

  /** How many blocks the header and the log on disk have room for. */
  function Room(size: nat): (n: int) { if LOGSIZE < size - 1 then LOGSIZE else size - 1 }

  predicate IsAppend(s: State, e: Event) { e.Write? && e.b !in s.lh }

  /** A transaction has at most Most(bound) blocks, and fewer when a block is yet to be added. */
  lemma WriteFits(run: Run, e: Event, bound: nat, size: nat)
    requires Legal(run, bound, size) && bound <= MAXOPBLOCKS && Enabled(After(run), e, bound) && e.Write?
    ensures |After(run).lh| <= Most(bound) && (IsAppend(After(run), e) ==> |After(run).lh| < Most(bound))
  {
    RunKeepsInv(run, bound, size);
    var s := After(run);
    var w := s.ops[e.op];
    UnusedBounds(s.ops, bound);
    assert IsAppend(s, e) ==> |w + {e.b}| == |w| + 1;
    UnusedUpdate(s.ops, e.op, w + {e.b}, bound);
    UnusedBounds(s.ops[e.op := w + {e.b}], bound);
  }

  // ----- runs that fill the log ------------------------------------------

  function Upto(k: nat): (s: seq<nat>)
    ensures |s| == k && forall i | 0 <= i < k :: s[i] == i
  {
    seq(k, i => i)
  }

  /** While one operation is outstanding, k others log a block each, and end. */
  function Visits(k: nat): (run: Run) {
    if k == 0 then Then(Start, Begin) else Then(Then(Then(Visits(k - 1), Begin), Write(1, k - 1)), End(1))
  }

  function Visited(k: nat): (s: State) { State(Upto(k), [{}], false) }

  lemma OneMore(run: Run, e: Event, s: State, t: State, bound: nat, size: nat)
    requires Legal(run, bound, size) && After(run) == s
    requires Enabled(s, e, bound) && !Panics(s, e, size) && t == Next(s, e)
    ensures Legal(Then(run, e), bound, size) && After(Then(run, e)) == t
  {
  }

  /** k blocks are logged, and a second operation has logged some of them. */
  function Two(k: nat, w: set<nat>): (s: State) { State(Upto(k), [{}, w], false) }

  lemma VisitStep(k: nat)
    ensures Next(Visited(k), Begin) == Two(k, {}) && Next(Two(k, {}), Write(1, k)) == Two(k + 1, {k})
    ensures Next(Two(k + 1, {k}), End(1)) == Visited(k + 1)
  {
    assert Upto(k) + [k] == Upto(k + 1);
    var none: set<nat>, one: set<nat> := {}, {k};
    assert [none] + [none] == [none, none] && none + {k} == one && [none, none][1 := one] == [none, one];
    assert [none, one][..1] + [none, one][2..] == [none];
  }

  /** Another operation begins while k <= MAXOPBLOCKS blocks are logged. */
  lemma BeginSecond(run: Run, k: nat, bound: nat, size: nat)
    requires Legal(run, bound, size) && After(run) == Visited(k) && k <= MAXOPBLOCKS
    ensures Legal(Then(run, Begin), bound, size) && After(Then(run, Begin)) == Two(k, {})
  {
    VisitStep(k);
    OneMore(run, Begin, Visited(k), Two(k, {}), bound, size);
  }

  lemma VisitMore(run: Run, k: nat, k': nat, bound: nat, size: nat)
    requires Legal(run, bound, size) && After(run) == Visited(k) && k' == k + 1
    requires k <= MAXOPBLOCKS && k < Room(size) && 1 <= bound
    ensures var r := Then(Then(Then(run, Begin), Write(1, k)), End(1));
            Legal(r, bound, size) && After(r) == Visited(k')
  {
    VisitStep(k);
    BeginSecond(run, k, bound, size);
    var r := Then(run, Begin);
    OneMore(r, Write(1, k), Two(k, {}), Two(k', {k}), bound, size);
    OneMore(Then(r, Write(1, k)), End(1), Two(k', {k}), Visited(k'), bound, size);
  }

  lemma {:induction false} VisitsReach(k: nat, bound: nat, size: nat)
    requires 1 <= bound && k <= MAXOPBLOCKS && k <= Room(size)
    ensures Legal(Visits(k), bound, size) && After(Visits(k)) == Visited(k)
  {
    if k == 0 {
      OneMore(Start, Begin, Empty, Visited(0), bound, size);
    } else {
      VisitsReach(k - 1, bound, size);
      VisitMore(Visits(k - 1), k - 1, k, bound, size);
    }
  }

  /** Then, with m blocks logged, two operations are outstanding; the first logs i blocks, the second j. */
  function Filling(m: nat, i: nat, j: nat): (run: Run) {
    if j > 0 then Then(Filling(m, i, j - 1), Write(1, m + i + j - 1))
    else if i > 0 then Then(Filling(m, i - 1, 0), Write(0, m + i - 1))
    else Then(Visits(m), Begin)
  }

  function Filled(m: nat, i: nat, j: nat): (s: State) {
    State(Upto(m + i + j), [From(m, i), From(m + i, j)], false)
  }

  predicate Appends(s: State, e: Event, bound: nat) { Enabled(s, e, bound) && IsAppend(s, e) }

  lemma FirstAppends(k: nat, a: set<nat>, a': set<nat>, b: set<nat>, bound: nat)
    requires a + {k} == a' && |a'| <= bound
    ensures Appends(State(Upto(k), [a, b], false), Write(0, k), bound)
    ensures Next(State(Upto(k), [a, b], false), Write(0, k)) == State(Upto(k + 1), [a', b], false)
  {
    assert Upto(k) + [k] == Upto(k + 1) && [a, b][0 := a'] == [a', b];
  }

  lemma SecondAppends(k: nat, a: set<nat>, b: set<nat>, b': set<nat>, bound: nat)
    requires b + {k} == b' && |b'| <= bound
    ensures Appends(State(Upto(k), [a, b], false), Write(1, k), bound)
    ensures Next(State(Upto(k), [a, b], false), Write(1, k)) == State(Upto(k + 1), [a, b'], false)
  {
    assert Upto(k) + [k] == Upto(k + 1) && [a, b][1 := b'] == [a, b'];
  }

  lemma FillFirst(m: nat, i: nat, bound: nat)
    requires i < bound
    ensures Appends(Filled(m, i, 0), Write(0, m + i), bound) &&
            Next(Filled(m, i, 0), Write(0, m + i)) == Filled(m, i + 1, 0)
  {
    FromMore(m, i, m + i);
    FirstAppends(m + i, From(m, i), From(m, i + 1), From(m + i, 0), bound);
    assert From(m + i, 0) == From(m + i + 1, 0);
  }

  lemma FillSecond(m: nat, i: nat, j: nat, bound: nat)
    requires j < bound
    ensures Appends(Filled(m, i, j), Write(1, m + i + j), bound) &&
            Next(Filled(m, i, j), Write(1, m + i + j)) == Filled(m, i, j + 1)
  {
    FromMore(m + i, j, m + i + j);
    SecondAppends(m + i + j, From(m, i), From(m + i, j), From(m + i, j + 1), bound);
  }

  lemma NotFull(m: nat, i: nat, j: nat, size: nat, e: Event)
    requires m + i + j < Room(size) && e.Write?
    ensures !Panics(Filled(m, i, j), e, size)
  {
  }

  lemma FillStart(m: nat)
    ensures Filled(m, 0, 0) == Two(m, {})
  {
  }

  lemma {:induction false} FirstReaches(m: nat, i: nat, bound: nat, size: nat)
    requires m == MAXOPBLOCKS && 1 <= bound && i <= bound && m + i <= Room(size)
    ensures Legal(Filling(m, i, 0), bound, size) && After(Filling(m, i, 0)) == Filled(m, i, 0)
  {
    if i == 0 {
      VisitsReach(m, bound, size);
      BeginSecond(Visits(m), m, bound, size);
      FillStart(m);
    } else {
      FirstReaches(m, i - 1, bound, size);
      FirstMore(Filling(m, i - 1, 0), m, i - 1, bound, size);
    }
  }

  lemma FirstMore(run: Run, m: nat, i: nat, bound: nat, size: nat)
    requires i < bound && m + i < Room(size) && Legal(run, bound, size) && After(run) == Filled(m, i, 0)
    ensures var r := Then(run, Write(0, m + i)); Legal(r, bound, size) && After(r) == Filled(m, i + 1, 0)
  {
    FillFirst(m, i, bound);
    NotFull(m, i, 0, size, Write(0, m + i));
    OneMore(run, Write(0, m + i), Filled(m, i, 0), Filled(m, i + 1, 0), bound, size);
  }

  lemma {:induction false} FillingReaches(m: nat, i: nat, j: nat, bound: nat, size: nat)
    requires m == MAXOPBLOCKS && 1 <= bound && i <= bound && j <= bound && m + i + j <= Room(size)
    ensures Legal(Filling(m, i, j), bound, size) && After(Filling(m, i, j)) == Filled(m, i, j)
  {
    if j == 0 {
      FirstReaches(m, i, bound, size);
    } else {
      FillingReaches(m, i, j - 1, bound, size);
      SecondMore(Filling(m, i, j - 1), m, i, j - 1, bound, size);
    }
  }

  lemma SecondMore(run: Run, m: nat, i: nat, j: nat, bound: nat, size: nat)
    requires j < bound && m + i + j < Room(size) && Legal(run, bound, size) && After(run) == Filled(m, i, j)
    ensures var r := Then(run, Write(1, m + i + j)); Legal(r, bound, size) && After(r) == Filled(m, i, j + 1)
  {
    FillSecond(m, i, j, bound);
    NotFull(m, i, j, size, Write(1, m + i + j));
    OneMore(run, Write(1, m + i + j), Filled(m, i, j), Filled(m, i, j + 1), bound, size);
  }

  lemma FilledFull(m: nat, i: nat, j: nat, size: nat, e: Event)
    requires m + i + j >= Room(size) && e.Write?
    ensures Panics(Filled(m, i, j), e, size)
  {
  }

  /** A block that the first operation has logged may be logged again. */
  lemma Absorbing(m: nat, i: nat, j: nat, bound: nat)
    requires 1 <= i <= bound
    ensures Enabled(Filled(m, i, j), Write(0, m), bound)
  {
    assert From(m, i) + {m} == From(m, i);
  }

  /** A run after which the kernel panics at the next write: an append, unless it takes two operations that have
      used up their bounds to fill the log. */
  lemma FullPanics(m: nat, bound: nat, size: nat) returns (run: Run, e: Event)
    requires m == MAXOPBLOCKS && 1 <= bound && 1 <= size && Room(size) <= Most(bound)
    ensures PanicsAfter(run, e, bound, size) && (Room(size) < Most(bound) ==> AppendPanicsAfter(run, e, bound, size))
  {
    var k := Room(size);
    if k <= m {
      VisitsReach(k, bound, size);
      run, e := Then(Visits(k), Begin), Write(1, k);
      BeginSecond(Visits(k), k, bound, size);
    } else {
      var i := if k - m < bound then k - m else bound;
      var j := k - m - i;
      FillingReaches(m, i, j, bound, size);
      run := Filling(m, i, j);
      if j < bound {
        FillSecond(m, i, j, bound);
        e := Write(1, m + i + j);
      } else {
        Absorbing(m, i, j, bound);
        e := Write(0, m);
      }
      FilledFull(m, i, j, size, e);
    }
  }

  /** Three operations begin, and log MAXOPBLOCKS blocks each: k blocks so far, from block `home` on. */
  function Three(home: nat, k: nat): (run: Run) {
    if k == 0 then Then(Then(Then(Start, Begin), Begin), Begin)
    else Then(Three(home, k - 1), Write((k - 1) / MAXOPBLOCKS, home + k - 1))
  }

  /** How many of k blocks are operation j's. */
  function Share(k: nat, j: nat): (n: nat) {
    if k <= j * MAXOPBLOCKS then 0 else if k - j * MAXOPBLOCKS < MAXOPBLOCKS then k - j * MAXOPBLOCKS else MAXOPBLOCKS
  }

  function Shares(home: nat, k: nat): (ops: seq<set<nat>>)
    ensures |ops| == 3 && forall j | 0 <= j < 3 :: ops[j] == From(home + j * MAXOPBLOCKS, Share(k, j))
  {
    seq(3, j requires 0 <= j => From(home + j * MAXOPBLOCKS, Share(k, j)))
  }

  function Shared(home: nat, k: nat): (s: State) { State(Range(home, k), Shares(home, k), false) }

  ghost predicate Reaches(run: Run, size: nat, home: nat, k: nat) {
    Legal(run, MAXOPBLOCKS, size) && After(run) == Shared(home, k)
  }

  lemma ThreeStep(home: nat, k: nat)
    requires k < LOGSIZE
    ensures var e := Write(k / MAXOPBLOCKS, home + k);
            Enabled(Shared(home, k), e, MAXOPBLOCKS) && Next(Shared(home, k), e) == Shared(home, k + 1)
  {
    SharesStep(home, k, k / MAXOPBLOCKS, Shares(home, k), Shares(home, k + 1));
    assert Range(home, k) + [home + k] == Range(home, k + 1);
  }

  lemma SharesStep(home: nat, k: nat, j: nat, s: seq<set<nat>>, t: seq<set<nat>>)
    requires k < LOGSIZE && j == k / MAXOPBLOCKS && s == Shares(home, k) && t == Shares(home, k + 1)
    ensures j < 3 && |s[j] + {home + k}| <= MAXOPBLOCKS && s[j := s[j] + {home + k}] == t
  {
    ShareStep(k, j, j);
    FromMore(home + j * MAXOPBLOCKS, Share(k, j), home + k);
    forall i | 0 <= i < 3 && i != j ensures s[i] == t[i] { ShareStep(k, j, i); }
  }

  lemma ShareStep(k: nat, j: nat, i: nat)
    requires j == k / MAXOPBLOCKS
    ensures Share(k + 1, i) == if i == j then Share(k, i) + 1 else Share(k, i)
    ensures i == j ==> k == j * MAXOPBLOCKS + Share(k, i)
  {
  }

  lemma FromMore(a: nat, n: nat, x: nat)
    requires x == a + n
    ensures From(a, n) + {x} == From(a, n + 1)
  {
  }

  lemma ThreeStart(home: nat, size: nat)
    ensures Legal(Three(home, 0), MAXOPBLOCKS, size) && After(Three(home, 0)) == Shared(home, 0)
  {
    var r := Then(Start, Begin);
    OneMore(Start, Begin, Empty, State([], [{}], false), MAXOPBLOCKS, size);
    OneMore(r, Begin, State([], [{}], false), State([], [{}, {}], false), MAXOPBLOCKS, size);
    OneMore(Then(r, Begin), Begin, State([], [{}, {}], false), State([], [{}, {}, {}], false), MAXOPBLOCKS, size);
    assert Shared(home, 0).ops == [{}, {}, {}];
  }

  lemma {:induction false} ThreeReach(home: nat, k: nat, size: nat)
    requires k <= LOGSIZE < size
    ensures Reaches(Three(home, k), size, home, k)
  {
    if k == 0 {
      ThreeStart(home, size);
    } else {
      ThreeReach(home, k - 1, size);
      ThreeMore(Three(home, k - 1), home, k - 1, size);
    }
  }

  lemma ThreeMore(run: Run, home: nat, k: nat, size: nat)
    requires k < LOGSIZE < size && Reaches(run, size, home, k)
    ensures Reaches(Then(run, Write(k / MAXOPBLOCKS, home + k)), size, home, k + 1)
  {
    ThreeStep(home, k);
    OneMore(run, Write(k / MAXOPBLOCKS, home + k), Shared(home, k), Shared(home, k + 1), MAXOPBLOCKS, size);
  }

  /** One of several operations ends. */
  lemma OneEnds(run: Run, size: nat)
    requires Legal(run, MAXOPBLOCKS, size) && |After(run).ops| >= 2 && !After(run).committing
    ensures var r := Then(run, End(0));
            Legal(r, MAXOPBLOCKS, size) && After(r).lh == After(run).lh && |After(r).ops| == |After(run).ops| - 1 &&
              !After(r).committing
  {
  }

  /** Then two of the three end. */
  lemma TwoEnd(home: nat, k: nat, size: nat) returns (run: Run)
    requires k <= LOGSIZE < size
    ensures Legal(run, MAXOPBLOCKS, size) && After(run).lh == Range(home, k) && |After(run).ops| == 1 &&
            !After(run).committing
  {
    ThreeReach(home, k, size);
    run := Three(home, k);
    OneEnds(run, size);
    run := Then(run, End(0));
    OneEnds(run, size);
    run := Then(run, End(0));
  }

  // ----- when it is safe ------------------------------------------------------

  /** After `run`, an operation that keeps to its bound does e, and the kernel panics. */
  predicate PanicsAfter(run: Run, e: Event, bound: nat, size: nat) {
    Legal(run, bound, size) && Enabled(After(run), e, bound) && Panics(After(run), e, size)
  }

  predicate AppendPanicsAfter(run: Run, e: Event, bound: nat, size: nat) {
    PanicsAfter(run, e, bound, size) && IsAppend(After(run), e)
  }

  /**
   Appending to the log is free of panics on every run exactly if the header and the log on disk have
   room for MAXOPBLOCKS and two operations.  With operations of MAXOPBLOCKS blocks that is LOGSIZE blocks
   after the header of the log.  (mkfs makes it one block shorter than that: nlog is LOGSIZE.)
   */
  lemma AppendsSafeIff(bound: nat, size: nat)
    requires size >= 1
    ensures (forall run, e :: !AppendPanicsAfter(run, e, bound, size)) <==> bound == 0 || Most(bound) <= Room(size)
  {
    if bound == 0 || Most(bound) <= Room(size) {
      forall run, e ensures !AppendPanicsAfter(run, e, bound, size) {
        if Legal(run, bound, size) && Enabled(After(run), e, bound) && IsAppend(After(run), e) {
          OnlyFullLogPanics(run, e, bound, size);
          WriteFits(run, e, bound, size);
          NoBlocks(After(run).ops, e, bound);
        }
      }
    } else {
      var run, e := FullPanics(MAXOPBLOCKS, bound, size);
    }
  }

  /** An operation that may log nothing does not. */
  lemma NoBlocks(ops: seq<set<nat>>, e: Event, bound: nat)
    requires e.Write? && e.op < |ops| && |ops[e.op] + {e.b}| <= bound
    ensures bound > 0
  {
    SubsetSize({e.b}, ops[e.op] + {e.b});
  }

  /**
   log_write() checks for a full log before it looks for a block to absorb into.  So all its calls are free
   of panics on every run exactly if there is room for one block more: operations that use up their bounds
   fill the log, and logging any of the same blocks once more panics.  With operations of MAXOPBLOCKS
   blocks no log is large enough, as the header has room for LOGSIZE blocks only.
   */
  lemma WritesSafeIff(bound: nat, size: nat)
    requires size >= 1
    ensures (forall run, e :: !PanicsAfter(run, e, bound, size)) <==> bound == 0 || Most(bound) < Room(size)
  {
    if bound == 0 || Most(bound) < Room(size) {
      forall run, e ensures !PanicsAfter(run, e, bound, size) {
        if Legal(run, bound, size) && Enabled(After(run), e, bound) {
          OnlyFullLogPanics(run, e, bound, size);
          if e.Write? {
            WriteFits(run, e, bound, size);
            NoBlocks(After(run).ops, e, bound);
          }
        }
      }
    } else {
      var run, e := FullPanics(MAXOPBLOCKS, bound, size);
    }
  }
}
