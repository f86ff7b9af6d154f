/** What several modules use: an optional value, and facts about sequences and finite sets. */
module Common {
  datatype Option<+T> = None | Some(value: T)

  /** What holds for every Key holds; but the verifier looks into it only where a Key is mentioned.  Predicates that
      are mostly handed on are kept folded this way. */
  predicate Key(k: nat) { true }

  predicate Distinct(s: seq<nat>) { forall i, j | 0 <= i < j < |s| :: s[i] != s[j] }

  /** The n numbers from a on. */
  function Range(a: nat, n: nat): (r: seq<nat>)
    ensures |r| == n && forall k | 0 <= k < n :: r[k] == a + k
  {
    seq(n, k => a + k)
  }

  /** The same as a set. */
  function From(a: nat, n: nat): (r: set<nat>)
    ensures |r| == n && forall x: nat :: x in r <==> a <= x < a + n
  {
    FromSize(a, n);
    set x: nat | x < a + n && AtLeast(a, x)
  }

  predicate AtLeast(a: nat, x: nat) { a <= x }

  lemma {:induction false} FromSize(a: nat, n: nat)
    ensures |set x: nat | x < a + n && AtLeast(a, x)| == n
  {
    if n > 0 {
      FromSize(a, n - 1);
      assert (set x: nat | x < a + n && AtLeast(a, x)) ==
             (set x: nat | x < a + n - 1 && AtLeast(a, x)) + {a + n - 1};
    } else {
      assert (set x: nat | x < a && AtLeast(a, x)) == {};
    }
  }

  /** The numbers below n. */
  function Below(n: nat): (r: set<nat>)
    ensures |r| == n && forall x: nat :: x in r <==> x < n
  {
    if n == 0 then {} else Below(n - 1) + {n - 1}
  }

  /** n distinct numbers below n are all of them. */
  lemma DistinctCovers(s: seq<nat>, n: nat, x: nat)
    requires |s| == n && Distinct(s) && x < n
    requires forall i | 0 <= i < n :: s[i] < n
    ensures exists k :: 0 <= k < n && s[k] == x
  {
    var got := set i | 0 <= i < n :: s[i];
    ImageSize(s);
    if x !in got {
      SubsetSize(got, Below(n) - {x});
    }
  }

  lemma {:induction false} ImageSize(s: seq<nat>)
    requires Distinct(s)
    ensures |set i | 0 <= i < |s| :: s[i]| == |s|
  {
    if s != [] {
      var t := s[..|s|-1];
      ImageSize(t);
      assert (set i | 0 <= i < |s| :: s[i]) == (set i | 0 <= i < |t| :: t[i]) + {s[|s|-1]};
    }
  }

  lemma {:induction false} SubsetSize(a: set<nat>, b: set<nat>)
    requires a <= b
    ensures |a| <= |b|
  {
    if a != {} {
      var x :| x in a;
      SubsetSize(a - {x}, b - {x});
    }
  }

  lemma {:induction false} ImageAtMost(s: seq<nat>)
    ensures |set i | 0 <= i < |s| :: s[i]| <= |s|
  {
    if s != [] {
      var t := s[..|s|-1];
      ImageAtMost(t);
      assert (set i | 0 <= i < |s| :: s[i]) == (set i | 0 <= i < |t| :: t[i]) + {s[|s|-1]};
    }
  }

  /** Fewer than n numbers leave one below n out. */
  lemma Missing(s: seq<nat>, n: nat) returns (x: nat)
    requires |s| < n
    ensures x < n && x !in s
  {
    var got := set i | 0 <= i < |s| :: s[i];
    ImageAtMost(s);
    if Below(n) <= got { SubsetSize(Below(n), got); }
    x :| x in Below(n) && x !in got;
  }
}
