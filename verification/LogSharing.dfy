/**
 Space in the log for operations that have blocks in common.

 LogReservation bounds the blocks of each operation, and counts them all.  But operations that allocate blocks log the
 same few blocks of the bitmap.  Here an operation has a bound on all its blocks and one on those that are not shared;
 for which of these, and for which logs, log_write() never panics is stated exactly.
 */
module LogSharing {
  import opened Common
  import opened LogReservation

  /** At most `bound` blocks in all, and at most `own` that are not in `shared`. */
  datatype Budget = Budget(bound: nat, own: nat, shared: set<nat>)

  /** An operation that logs these blocks keeps to the budget. */
  predicate Keeps(w: set<nat>, g: Budget) { |w| <= g.bound && |w - g.shared| <= g.own }

  lemma KeepsLess(v: set<nat>, w: set<nat>, g: Budget)
    requires v <= w && Keeps(w, g)
    ensures Keeps(v, g)
  {
    SubsetSize(v, w);
    SubsetSize(v - g.shared, w - g.shared);
  }

  lemma KeepsOne(x: nat, g: Budget)
    requires 1 <= g.own <= g.bound
    ensures Keeps({} + {x}, g)
  {
    SubsetSize({x} - g.shared, {x});
    assert {} + {x} == {x};
  }

  predicate Allowed(s: State, e: Event, g: Budget) {
    Enabled(s, e, g.bound) && (e.Write? ==> Keeps(s.ops[e.op] + {e.b}, g))
  }

  /** A run in which operations keep to the budget and nothing has panicked yet. */
  predicate Within(run: Run, g: Budget, size: nat) {
    run.Then? ==>
      Within(run.before, g, size) && Allowed(After(run.before), run.e, g) && !Panics(After(run.before), run.e, size)
  }

  lemma {:induction false} WithinIsLegal(run: Run, g: Budget, size: nat)
    requires Within(run, g, size)
    ensures Legal(run, g.bound, size)
  {
    if run.Then? { WithinIsLegal(run.before, g, size); }
  }

  lemma OneMoreWithin(run: Run, e: Event, s: State, t: State, g: Budget, size: nat)
    requires Within(run, g, size) && After(run) == s && Allowed(s, e, g) && !Panics(s, e, size) && t == Next(s, e)
    ensures Within(Then(run, e), g, size) && After(Then(run, e)) == t
  {
  }

  // ----- the run without the shared blocks -------------------------------------------------

  function Apart(lh: seq<nat>, shared: set<nat>): (r: seq<nat>)
    ensures |r| <= |lh| && forall x :: x in r <==> x in lh && x !in shared
  {
    if lh == [] then []
    else
      var r := Apart(lh[..|lh| - 1], shared);
      var x := lh[|lh| - 1];
      assert lh == lh[..|lh| - 1] + [x];
      if x in shared then r else r + [x]
  }

  function Minus(ops: seq<set<nat>>, shared: set<nat>): (r: seq<set<nat>>)
    ensures |r| == |ops| && forall i | 0 <= i < |ops| :: r[i] == ops[i] - shared
  {
    seq(|ops|, i requires 0 <= i < |ops| => ops[i] - shared)
  }

  function ApartState(s: State, shared: set<nat>): (t: State) {
    State(Apart(s.lh, shared), Minus(s.ops, shared), s.committing)
  }

  function ApartRun(run: Run, shared: set<nat>): (r: Run) {
    if run.Start? then Start
    else if run.e.Write? && run.e.b in shared then ApartRun(run.before, shared)
    else Then(ApartRun(run.before, shared), run.e)
  }

  lemma ApartMore(lh: seq<nat>, x: nat, shared: set<nat>)
    ensures Apart(lh + [x], shared) == if x in shared then Apart(lh, shared) else Apart(lh, shared) + [x]
  {
    assert (lh + [x])[..|lh|] == lh;
  }

  /** An event other than a write. */
  lemma ApartOther(s: State, e: Event, g: Budget, size: nat)
    requires Allowed(s, e, g) && !Panics(s, e, size) && !e.Write?
    ensures Enabled(ApartState(s, g.shared), e, g.own) && !Panics(ApartState(s, g.shared), e, size)
    ensures Next(ApartState(s, g.shared), e) == ApartState(Next(s, e), g.shared)
  {
    var none: set<nat> := {};
    assert none - g.shared == none;
    assert Next(ApartState(s, g.shared), e).ops == Minus(Next(s, e).ops, g.shared);
  }

  lemma ApartWrite(s: State, op: nat, b: nat, g: Budget, size: nat)
    requires Allowed(s, Write(op, b), g) && !Panics(s, Write(op, b), size) && b !in g.shared
    ensures Enabled(ApartState(s, g.shared), Write(op, b), g.own) &&
            !Panics(ApartState(s, g.shared), Write(op, b), size)
    ensures Next(ApartState(s, g.shared), Write(op, b)) == ApartState(Next(s, Write(op, b)), g.shared)
  {
    var e := Write(op, b);
    ApartMore(s.lh, b, g.shared);
    assert s.ops[op] - g.shared + {b} == s.ops[op] + {b} - g.shared;
    assert Next(ApartState(s, g.shared), e).ops == Minus(Next(s, e).ops, g.shared);
  }

  lemma ApartShared(s: State, op: nat, b: nat, g: Budget)
    requires op < |s.ops| && b in g.shared
    ensures ApartState(Next(s, Write(op, b)), g.shared) == ApartState(s, g.shared)
  {
    ApartMore(s.lh, b, g.shared);
    assert s.ops[op] + {b} - g.shared == s.ops[op] - g.shared;
    assert Minus(Next(s, Write(op, b)).ops, g.shared) == Minus(s.ops, g.shared);
  }

  /** What is not shared is logged as in a run of operations that log nothing else. */
  lemma {:induction false} ApartReaches(run: Run, g: Budget, size: nat)
    requires Within(run, g, size)
    ensures Legal(ApartRun(run, g.shared), g.own, size)
    ensures After(ApartRun(run, g.shared)) == ApartState(After(run), g.shared)
  {
    if run.Then? {
      var s, e, r := After(run.before), run.e, ApartRun(run.before, g.shared);
      ApartReaches(run.before, g, size);
      if !e.Write? {
        ApartOther(s, e, g, size);
        OneMore(r, e, ApartState(s, g.shared), ApartState(Next(s, e), g.shared), g.own, size);
      } else if e.b in g.shared {
        ApartShared(s, e.op, e.b, g);
      } else {
        ApartWrite(s, e.op, e.b, g, size);
        OneMore(r, e, ApartState(s, g.shared), ApartState(Next(s, e), g.shared), g.own, size);
      }
    }
  }

  // ----- counting ---------------------------------------------------------------------------

  lemma {:induction false} LoggedOnce(run: Run)
    ensures Distinct(After(run).lh)
  {
    if run.Then? { LoggedOnce(run.before); }
  }

  lemma {:induction false} ApartWithout(lh: seq<nat>, shared: set<nat>, x: nat)
    requires x !in lh
    ensures Apart(lh, shared - {x}) == Apart(lh, shared)
  {
    if lh != [] {
      assert lh == lh[..|lh| - 1] + [lh[|lh| - 1]];
      ApartWithout(lh[..|lh| - 1], shared, x);
    }
  }

  lemma {:induction false} ApartCount(lh: seq<nat>, shared: set<nat>)
    requires Distinct(lh)
    ensures |lh| <= |Apart(lh, shared)| + |shared|
  {
    if lh != [] {
      var rest, x := lh[..|lh| - 1], lh[|lh| - 1];
      if x in shared {
        ApartWithout(rest, shared, x);
        ApartCount(rest, shared - {x});
      } else {
        ApartCount(rest, shared);
      }
    }
  }

  /** The most blocks a transaction ever has. */
  function Top(g: Budget): (n: nat) {
    if 2 * g.bound <= 2 * g.own + |g.shared| then Most(g.bound) else Most(g.own) + |g.shared|
  }

  lemma NeverMore(run: Run, g: Budget, size: nat)
    requires Within(run, g, size) && g.own <= g.bound <= MAXOPBLOCKS
    ensures |After(run).lh| <= Top(g)
  {
    WithinIsLegal(run, g, size);
    RunKeepsInv(run, g.bound, size);
    UnusedBounds(After(run).ops, g.bound);
    var r := ApartRun(run, g.shared);
    ApartReaches(run, g, size);
    RunKeepsInv(r, g.own, size);
    UnusedBounds(After(r).ops, g.own);
    LoggedOnce(run);
    ApartCount(After(run).lh, g.shared);
  }

  /** After `run`, an operation that keeps to its budget does e, and the kernel panics. */
  predicate PanicsWithin(run: Run, e: Event, g: Budget, size: nat) {
    Within(run, g, size) && Allowed(After(run), e, g) && Panics(After(run), e, size)
  }

  lemma SharedSafe(run: Run, e: Event, g: Budget, size: nat)
    requires g.own <= g.bound <= MAXOPBLOCKS && Top(g) < Room(size)
    ensures !PanicsWithin(run, e, g, size)
  {
    if Within(run, g, size) && Allowed(After(run), e, g) {
      WithinIsLegal(run, g, size);
      OnlyFullLogPanics(run, e, g.bound, size);
      NeverMore(run, g, size);
    }
  }

  // ----- runs that fill the log --------------------------------------------------------------

  /** Names for the blocks of LogReservation.Filling(m, i, j): the last ones of each of the two operations, from i0
      and j0 on, are the shared ones, which are the n from a on; the others come after these. */
  datatype Plan = Plan(a: nat, n: nat, m: nat, i0: nat, i: nat, j0: nat, j: nat)

  predicate PlanOk(p: Plan) { p.i0 <= p.i && p.j0 <= p.j && (p.i - p.i0) + (p.j - p.j0) <= p.n }

  function Name(p: Plan, x: nat): (y: nat)
    requires PlanOk(p)
  {
    if p.m + p.i0 <= x < p.m + p.i then p.a + x - p.m - p.i0
    else if p.m + p.i + p.j0 <= x < p.m + p.i + p.j then p.a + (p.i - p.i0) + x - p.m - p.i - p.j0
    else p.a + p.n + x
  }

  lemma NamesDiffer(p: Plan, x: nat, y: nat)
    requires PlanOk(p) && x != y
    ensures Name(p, x) != Name(p, y)
  {
  }

  /** A block that is not among the last ones has a name of its own. */
  predicate OwnName(p: Plan, x: nat) { !(p.m + p.i0 <= x < p.m + p.i) && !(p.m + p.i + p.j0 <= x < p.m + p.i + p.j) }

  function Names(p: Plan, w: set<nat>): (r: set<nat>)
    requires PlanOk(p)
  {
    set x | x in w :: Name(p, x)
  }

  lemma NamesMore(p: Plan, w: set<nat>, x: nat)
    requires PlanOk(p)
    ensures Names(p, w + {x}) == Names(p, w) + {Name(p, x)}
  {
  }

  lemma {:induction false} NamesSize(p: Plan, w: set<nat>)
    requires PlanOk(p)
    ensures |Names(p, w)| == |w|
    decreases |w|
  {
    if w != {} {
      var x :| x in w;
      var v := w - {x};
      NamesSize(p, v);
      assert w == v + {x};
      NamesMore(p, v, x);
      if Name(p, x) in Names(p, v) {
        var y :| y in v && Name(p, y) == Name(p, x);
        NamesDiffer(p, x, y);
      }
    }
  }

  function NamesOf(p: Plan, lh: seq<nat>): (r: seq<nat>)
    requires PlanOk(p)
    ensures |r| == |lh| && forall k | 0 <= k < |lh| :: r[k] == Name(p, lh[k])
  {
    seq(|lh|, k requires 0 <= k < |lh| => Name(p, lh[k]))
  }

  function NamesOfOps(p: Plan, ops: seq<set<nat>>): (r: seq<set<nat>>)
    requires PlanOk(p)
    ensures |r| == |ops| && forall k | 0 <= k < |ops| :: r[k] == Names(p, ops[k])
  {
    seq(|ops|, k requires 0 <= k < |ops| => Names(p, ops[k]))
  }

  function NamedState(p: Plan, s: State): (t: State)
    requires PlanOk(p)
  {
    State(NamesOf(p, s.lh), NamesOfOps(p, s.ops), s.committing)
  }

  function NamedEvent(p: Plan, e: Event): (f: Event)
    requires PlanOk(p)
  {
    if e.Write? then Write(e.op, Name(p, e.b)) else e
  }

  lemma NamedIn(p: Plan, lh: seq<nat>, b: nat)
    requires PlanOk(p)
    ensures Name(p, b) in NamesOf(p, lh) <==> b in lh
  {
    if b in lh {
      var k :| 0 <= k < |lh| && lh[k] == b;
      assert NamesOf(p, lh)[k] == Name(p, b);
    }
    forall k | 0 <= k < |lh| && NamesOf(p, lh)[k] == Name(p, b) ensures lh[k] == b {
      if lh[k] != b { NamesDiffer(p, lh[k], b); }
    }
  }

  lemma NamedNext(p: Plan, s: State, e: Event)
    requires PlanOk(p) && (e.Write? || e.End? ==> e.op < |s.ops|)
    ensures Next(NamedState(p, s), NamedEvent(p, e)) == NamedState(p, Next(s, e))
  {
    var t, u := Next(NamedState(p, s), NamedEvent(p, e)), NamedState(p, Next(s, e));
    if e.Write? {
      NamedIn(p, s.lh, e.b);
      NamesMore(p, s.ops[e.op], e.b);
    } else if e.Begin? {
      var none: set<nat> := {};
      assert Names(p, none) == none;
    }
    assert t.lh == u.lh && t.ops == u.ops;
  }

  /** The blocks so named, no more than `own` are not shared. */
  ghost predicate Sparse(p: Plan, w: set<nat>, g: Budget)
    requires PlanOk(p)
  {
    forall k | Key(k) :: |Names(p, w) - g.shared| <= g.own
  }

  /** An operation that does e keeps to `own`. */
  ghost predicate OwnFits(s: State, e: Event, p: Plan, g: Budget)
    requires PlanOk(p)
  {
    forall k | Key(k) :: e.Write? && e.op < |s.ops| ==> Sparse(p, s.ops[e.op] + {e.b}, g)
  }

  lemma NamedAllowed(s: State, e: Event, p: Plan, g: Budget, size: nat)
    requires PlanOk(p) && Enabled(s, e, g.bound) && !Panics(s, e, size) && OwnFits(s, e, p, g)
    ensures Allowed(NamedState(p, s), NamedEvent(p, e), g) && !Panics(NamedState(p, s), NamedEvent(p, e), size)
  {
    assert Key(0);
    if e.Write? {
      NamesMore(p, s.ops[e.op], e.b);
      NamesSize(p, s.ops[e.op] + {e.b});
    }
  }

  /** A run within the budget to the state s, its blocks renamed. */
  ghost predicate Leads(run: Run, s: State, p: Plan, g: Budget, size: nat)
    requires PlanOk(p)
  {
    forall k | Key(k) :: Within(run, g, size) && After(run) == NamedState(p, s)
  }

  /** A step that may be taken, the blocks so named. */
  ghost predicate Goes(s: State, e: Event, t: State, p: Plan, g: Budget, size: nat)
    requires PlanOk(p)
  {
    forall k | Key(k) :: Enabled(s, e, g.bound) && !Panics(s, e, size) && OwnFits(s, e, p, g) && Next(s, e) == t
  }

  lemma FirstGoes(k: nat, a: set<nat>, a': set<nat>, b: set<nat>, p: Plan, g: Budget, size: nat)
    requires PlanOk(p) && a + {k} == a' && |a'| <= g.bound && Sparse(p, a', g) && k < Room(size)
    ensures Goes(State(Upto(k), [a, b], false), Write(0, k), State(Upto(k + 1), [a', b], false), p, g, size)
  {
    FirstAppends(k, a, a', b, g.bound);
  }

  lemma SecondGoes(k: nat, a: set<nat>, b: set<nat>, b': set<nat>, p: Plan, g: Budget, size: nat)
    requires PlanOk(p) && b + {k} == b' && |b'| <= g.bound && Sparse(p, b', g) && k < Room(size)
    ensures Goes(State(Upto(k), [a, b], false), Write(1, k), State(Upto(k + 1), [a, b'], false), p, g, size)
  {
    SecondAppends(k, a, b, b', g.bound);
  }

  lemma LeadsOn(run: Run, s: State, e: Event, t: State, p: Plan, g: Budget, size: nat)
    requires PlanOk(p) && Leads(run, s, p, g, size) && Goes(s, e, t, p, g, size)
    ensures Leads(Then(run, NamedEvent(p, e)), t, p, g, size)
  {
    assert Key(0);
    NamedAllowed(s, e, p, g, size);
    NamedNext(p, s, e);
    OneMoreWithin(run, NamedEvent(p, e), NamedState(p, s), NamedState(p, t), g, size);
  }

  lemma One(p: Plan, x: nat, g: Budget)
    requires PlanOk(p) && 1 <= g.own
    ensures Sparse(p, {} + {x}, g)
  {
    assert {} + {x} == {x};
    assert Names(p, {x}) == {Name(p, x)};
    SubsetSize(Names(p, {x}) - g.shared, {Name(p, x)});
  }

  lemma SharedName(p: Plan, x: nat)
    requires PlanOk(p) && !OwnName(p, x)
    ensures Name(p, x) in From(p.a, p.n)
  {
  }

  /** c blocks of the first or of the second operation, of which only the first c0 are its own. */
  predicate PartOf(p: Plan, from: nat, c: nat, c0: nat) {
    (from == p.m && c <= p.i && c0 == p.i0) || (from == p.m + p.i && c <= p.j && c0 == p.j0)
  }

  lemma FewOwn(p: Plan, from: nat, c: nat, c0: nat, g: Budget)
    requires PlanOk(p) && g.shared == From(p.a, p.n) && c0 <= g.own && PartOf(p, from, c, c0)
    ensures Sparse(p, From(from, c), g)
  {
    var own := Names(p, From(from, c)) - g.shared;
    forall y | y in own ensures y in Names(p, From(from, c0)) {
      var x :| x in From(from, c) && Name(p, x) == y;
      if from + c0 <= x { SharedName(p, x); }
    }
    NamesSize(p, From(from, c0));
    SubsetSize(own, Names(p, From(from, c0)));
  }

  /** Operations that log one block each take the log to k blocks; another stays open. */
  lemma {:induction false} VisitsLead(k: nat, p: Plan, g: Budget, size: nat) returns (run: Run)
    requires PlanOk(p) && 1 <= g.own && 1 <= g.bound && k <= MAXOPBLOCKS && k <= Room(size)
    ensures Leads(run, Visited(k), p, g, size)
  {
    if k == 0 {
      run := FirstOpens(p, g, size);
    } else {
      run := VisitsLead(k - 1, p, g, size);
      run := VisitLeads(run, k - 1, p, g, size);
    }
  }

  lemma FirstOpens(p: Plan, g: Budget, size: nat) returns (run: Run)
    requires PlanOk(p)
    ensures Leads(run, Visited(0), p, g, size)
  {
    var none: set<nat> := {};
    run := Then(Start, Begin);
    assert Names(p, none) == none && NamedState(p, Visited(0)) == Visited(0);
    assert Next(Empty, Begin) == Visited(0);
    OneMoreWithin(Start, Begin, Empty, Visited(0), g, size);
  }

  lemma SecondOpens(before: Run, k: nat, p: Plan, g: Budget, size: nat) returns (run: Run)
    requires PlanOk(p) && Leads(before, Visited(k), p, g, size) && k <= MAXOPBLOCKS
    ensures Leads(run, Two(k, {}), p, g, size)
  {
    VisitStep(k);
    LeadsOn(before, Visited(k), Begin, Two(k, {}), p, g, size);
    run := Then(before, Begin);
  }

  lemma VisitLeads(before: Run, k: nat, p: Plan, g: Budget, size: nat) returns (run: Run)
    requires PlanOk(p) && Leads(before, Visited(k), p, g, size)
    requires 1 <= g.own && 1 <= g.bound && k < MAXOPBLOCKS && k < Room(size)
    ensures Leads(run, Visited(k + 1), p, g, size)
  {
    VisitStep(k);
    One(p, k, g);
    run := SecondOpens(before, k, p, g, size);
    LeadsOn(run, Two(k, {}), Write(1, k), Two(k + 1, {k}), p, g, size);
    run := Then(run, Write(1, Name(p, k)));
    LeadsOn(run, Two(k + 1, {k}), End(1), Visited(k + 1), p, g, size);
    run := Then(run, End(1));
  }

  lemma {:induction false} FirstLeads(i: nat, p: Plan, g: Budget, size: nat) returns (run: Run)
    requires Planned(p, g, size) && i <= p.i
    ensures Leads(run, Filled(p.m, i, 0), p, g, size)
  {
    if i == 0 {
      run := VisitsLead(p.m, p, g, size);
      run := SecondOpens(run, p.m, p, g, size);
      FillStart(p.m);
    } else {
      run := FirstLeads(i - 1, p, g, size);
      FewOwn(p, p.m, i, p.i0, g);
      FromMore(p.m, i - 1, p.m + i - 1);
      run := FirstOnLeads(run, p.m + i - 1, From(p.m, i - 1), From(p.m, i), {}, p, g, size);
    }
  }

  lemma FirstOnLeads(before: Run, k: nat, a: set<nat>, a': set<nat>, b: set<nat>, p: Plan, g: Budget, size: nat)
    returns (run: Run)
    requires PlanOk(p) && a + {k} == a' && |a'| <= g.bound && Sparse(p, a', g) && k < Room(size)
    requires Leads(before, State(Upto(k), [a, b], false), p, g, size)
    ensures Leads(run, State(Upto(k + 1), [a', b], false), p, g, size)
  {
    FirstGoes(k, a, a', b, p, g, size);
    LeadsOn(before, State(Upto(k), [a, b], false), Write(0, k), State(Upto(k + 1), [a', b], false), p, g, size);
    run := Then(before, Write(0, Name(p, k)));
  }

  /** The second operation has logged j blocks. */
  function Second(a: set<nat>, from: nat, j: nat): (s: State) { State(Upto(from + j), [a, From(from, j)], false) }

  ghost predicate SparseTo(p: Plan, from: nat, n: nat, g: Budget)
    requires PlanOk(p)
  {
    forall k | Key(k) :: forall c: nat | c <= n :: Sparse(p, From(from, c), g)
  }

  lemma {:induction false} SecondLeads(j: nat, n: nat, base: Run, from: nat, a: set<nat>, p: Plan, g: Budget, size: nat)
    returns (run: Run)
    requires PlanOk(p) && SparseTo(p, from, n, g) && j <= n
    requires j <= g.bound && from + j <= Room(size) && Leads(base, Second(a, from, 0), p, g, size)
    ensures Leads(run, Second(a, from, j), p, g, size)
  {
    if j == 0 {
      run := base;
    } else {
      run := SecondLeads(j - 1, n, base, from, a, p, g, size);
      run := SecondStep(run, n, from, j, a, p, g, size);
    }
  }

  lemma SecondStep(before: Run, n: nat, from: nat, j: nat, a: set<nat>, p: Plan, g: Budget, size: nat)
    returns (run: Run)
    requires PlanOk(p) && SparseTo(p, from, n, g) && 0 < j <= n && j <= g.bound && from + j <= Room(size)
    requires Leads(before, Second(a, from, j - 1), p, g, size)
    ensures Leads(run, Second(a, from, j), p, g, size)
  {
    assert Sparse(p, From(from, j), g) by { assert Key(0); }
    FromMore(from, j - 1, from + j - 1);
    run := SecondOnLeads(before, from + j - 1, a, From(from, j - 1), From(from, j), p, g, size);
  }

  lemma SecondOnLeads(before: Run, k: nat, a: set<nat>, b: set<nat>, b': set<nat>, p: Plan, g: Budget, size: nat)
    returns (run: Run)
    requires PlanOk(p) && b + {k} == b' && |b'| <= g.bound && Sparse(p, b', g) && k < Room(size)
    requires Leads(before, State(Upto(k), [a, b], false), p, g, size)
    ensures Leads(run, State(Upto(k + 1), [a, b'], false), p, g, size)
  {
    SecondGoes(k, a, b, b', p, g, size);
    LeadsOn(before, State(Upto(k), [a, b], false), Write(1, k), State(Upto(k + 1), [a, b'], false), p, g, size);
    run := Then(before, Write(1, Name(p, k)));
  }

  /** The plan fills the log within the budget. */
  predicate Planned(p: Plan, g: Budget, size: nat) {
    && PlanOk(p) && g.shared == From(p.a, p.n) && p.m == MAXOPBLOCKS && p.m + p.i + p.j == Room(size)
    && 1 <= g.own <= g.bound && p.i <= g.bound && p.j <= g.bound && p.i0 <= g.own && p.j0 <= g.own
  }

  lemma PlannedPanics(p: Plan, g: Budget, size: nat) returns (run: Run, e: Event)
    requires Planned(p, g, size) && 1 <= p.i
    ensures PanicsWithin(run, e, g, size)
  {
    assert Key(0);
    run := FirstLeads(p.i, p, g, size);
    var from := p.m + p.i;
    forall c: nat | c <= p.j ensures Sparse(p, From(from, c), g) { FewOwn(p, from, c, p.j0, g); }
    run := SecondLeads(p.j, p.j, run, from, From(p.m, p.i), p, g, size);
    e := Write(0, Name(p, p.m));
    FullAt(p, g, size);
  }

  lemma FullAt(p: Plan, g: Budget, size: nat)
    requires Planned(p, g, size) && 1 <= p.i
    ensures var s, e := NamedState(p, Filled(p.m, p.i, p.j)), Write(0, Name(p, p.m));
            Allowed(s, e, g) && Panics(s, e, size)
  {
    var w := From(p.m, p.i);
    assert Key(0);
    NamesSize(p, w);
    FewOwn(p, p.m, p.i, p.i0, g);
    assert p.m in w && Name(p, p.m) in Names(p, w);
    assert Names(p, w) + {Name(p, p.m)} == Names(p, w);
  }

  /** A small log is full before a second operation has logged anything. */
  lemma VisitsPanic(p: Plan, g: Budget, size: nat) returns (run: Run, e: Event)
    requires PlanOk(p) && 1 <= g.own && 1 <= g.bound && 1 <= size && Room(size) <= MAXOPBLOCKS
    ensures PanicsWithin(run, e, g, size)
  {
    var k: nat := Room(size);
    assert Key(0);
    run := VisitsLead(k, p, g, size);
    run := SecondOpens(run, k, p, g, size);
    e := Write(1, Name(p, k));
    SecondPanics(p, k, g, size);
  }

  lemma SecondPanics(p: Plan, k: nat, g: Budget, size: nat)
    requires PlanOk(p) && 1 <= g.own && 1 <= g.bound && k == Room(size)
    ensures var s, e := NamedState(p, Two(k, {})), Write(1, Name(p, k)); Allowed(s, e, g) && Panics(s, e, size)
  {
    var none: set<nat> := {};
    assert Key(0);
    One(p, k, g);
    assert Names(p, none) == none;
    NamesMore(p, none, k);
    NamesSize(p, none + {k});
  }

  lemma SharedPanics(a: nat, n: nat, g: Budget, size: nat) returns (run: Run, e: Event)
    requires g.shared == From(a, n) && 1 <= g.own <= g.bound && 1 <= size && Room(size) <= Top(g)
    ensures PanicsWithin(run, e, g, size)
  {
    if Room(size) <= MAXOPBLOCKS {
      run, e := VisitsPanic(Plan(a, n, 0, 0, 0, 0, 0), g, size);
    } else {
      var x: nat := Room(size) - MAXOPBLOCKS;
      var i0 := if x < g.own then x else g.own;
      var j0 := if x - i0 < g.own then x - i0 else g.own;
      var y := x - i0 - j0;
      var i1 := if y < g.bound - g.own then y else g.bound - g.own;
      run, e := PlannedPanics(Plan(a, n, MAXOPBLOCKS, i0, i0 + i1, j0, j0 + y - i1), g, size);
    }
  }

  // ----- when it is safe ------------------------------------------------------------------------

  /**
   For operations that log at most `bound` blocks, and at most `own` besides the n blocks from a on: log_write() never
   panics on any run exactly if the header and the log on disk have room for one block more than MAXOPBLOCKS and two
   operations, the shared blocks of which are counted once.
   */
  lemma SharedSafeIff(a: nat, n: nat, g: Budget, size: nat)
    requires g.shared == From(a, n) && 1 <= g.own <= g.bound <= MAXOPBLOCKS && size >= 1
    ensures (forall run, e :: !PanicsWithin(run, e, g, size)) <==> Top(g) < Room(size)
  {
    if Top(g) < Room(size) {
      forall run, e ensures !PanicsWithin(run, e, g, size) { SharedSafe(run, e, g, size); }
    } else {
      var run, e := SharedPanics(a, n, g, size);
    }
  }
}
