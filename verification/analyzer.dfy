/**
 The three property checkers of the quiz. Each is written the way the game
 computes it, as nested linear scans over the list of pairs (an "every" scan
 is a recursion over a suffix `rest`, a "some" scan is `Contains`), and each is
 proved equal to the textbook definition in module Relations. From that follow
 the facts the quiz relies on: the verdicts depend only on which pairs are
 present, and the worked examples come out as expected.
 */
module Analyzer {
  import opened Relations

  /** Linear search for the pair `(a, b)`, comparing components; every membership
      test of the three checkers is this scan. */
  function Contains(rel: Relation, a: int, b: int): (found: bool)
    ensures found <==> (a, b) in rel
  {
    |rel| > 0 && ((rel[0].0 == a && rel[0].1 == b) || Contains(rel[1..], a, b))
  }

  /** The diagonal loop from `i` up to `n`: each `(k, k)` with `i <= k < n` is present. */
  function DiagonalFrom(rel: Relation, i: int, n: int): (all: bool)
    decreases n - i
    ensures all <==> forall k :: i <= k < n ==> (k, k) in rel
  {
    i >= n || (Contains(rel, i, i) && DiagonalFrom(rel, i + 1, n))
  }

  /** The reflexivity check for a set of size `n`. */
  function IsReflexive(rel: Relation, n: int): (r: bool)
    ensures r <==> Reflexive(rel, n)
  {
    DiagonalFrom(rel, 0, n)
  }

  /** The reflexivity check as the loop with an early exit on the first missing
      diagonal pair. */
  method CheckReflexive(rel: Relation, n: int) returns (r: bool)
    ensures r <==> Reflexive(rel, n)
    ensures r == IsReflexive(rel, n)
  {
    var i := 0;
    while i < n
      invariant 0 <= i
      invariant forall k :: 0 <= k < i ==> (k, k) in rel
      decreases n - i
    {
      if !Contains(rel, i, i) {
        return false;
      }
      i := i + 1;
    }
    return true;
  }

  /** Outer scan of the symmetry check over `rest`: each pair `(a, b)` of `rest`
      is a self-pair or has its mirror `(b, a)` somewhere in `rel`. */
  function AllMirrored(rel: Relation, rest: Relation): (all: bool)
    ensures all <==> forall a, b :: (a, b) in rest && a != b ==> (b, a) in rel
  {
    |rest| == 0 ||
    ((rest[0].0 == rest[0].1 || Contains(rel, rest[0].1, rest[0].0)) && AllMirrored(rel, rest[1..]))
  }

  /** The symmetry check. */
  function IsSymmetric(rel: Relation): (r: bool)
    ensures r <==> Symmetric(rel)
  {
    AllMirrored(rel, rel)
  }

  /** Inner scan of the transitivity check, for a fixed pair `(a, b)`: every pair
      `(c, d)` of `rest` with `c == b` has its shortcut `(a, d)` in `rel`. */
  function ShortcutsPresent(rel: Relation, a: int, b: int, rest: Relation): (all: bool)
    ensures all <==> forall d :: (b, d) in rest ==> (a, d) in rel
  {
    |rest| == 0 ||
    ((rest[0].0 != b || Contains(rel, a, rest[0].1)) && ShortcutsPresent(rel, a, b, rest[1..]))
  }

  /** Outer scan of the transitivity check: every chain starting with a pair of
      `rest` and continuing with a pair of `rel` is short-cut in `rel`. */
  function AllChainsClosed(rel: Relation, rest: Relation): (all: bool)
    ensures all <==> forall a, b, d :: (a, b) in rest && (b, d) in rel ==> (a, d) in rel
  {
    |rest| == 0 ||
    (ShortcutsPresent(rel, rest[0].0, rest[0].1, rel) && AllChainsClosed(rel, rest[1..]))
  }

  /** The transitivity check. */
  function IsTransitive(rel: Relation): (r: bool)
    ensures r <==> Transitive(rel)
  {
    AllChainsClosed(rel, rel)
  }

  /** The three verdicts depend only on the set of pairs present. */
  lemma VerdictsDependOnlyOnMembers(r1: Relation, r2: Relation, n: int)
    requires SameMembers(r1, r2)
    ensures IsReflexive(r1, n) == IsReflexive(r2, n)
    ensures IsSymmetric(r1) == IsSymmetric(r2)
    ensures IsTransitive(r1) == IsTransitive(r2)
  {
  }

  /** Reordering the list leaves the three verdicts unchanged. */
  lemma ReorderingKeepsVerdicts(r1: Relation, r2: Relation, n: int)
    requires multiset(r1) == multiset(r2)
    ensures IsReflexive(r1, n) == IsReflexive(r2, n)
    ensures IsSymmetric(r1) == IsSymmetric(r2)
    ensures IsTransitive(r1) == IsTransitive(r2)
  {
    forall p ensures p in r1 <==> p in r2 {
      assert p in r1 <==> p in multiset(r1);
      assert p in r2 <==> p in multiset(r2);
    }
    VerdictsDependOnlyOnMembers(r1, r2, n);
  }

  /** Repeating one pair of the list leaves the three verdicts unchanged. */
  lemma DuplicatingKeepsVerdicts(rel: Relation, k: int, n: int)
    requires 0 <= k < |rel|
    ensures IsReflexive(rel[..k] + [rel[k]] + rel[k..], n) == IsReflexive(rel, n)
    ensures IsSymmetric(rel[..k] + [rel[k]] + rel[k..]) == IsSymmetric(rel)
    ensures IsTransitive(rel[..k] + [rel[k]] + rel[k..]) == IsTransitive(rel)
  {
    var dup := rel[..k] + [rel[k]] + rel[k..];
    assert rel == rel[..k] + rel[k..];
    forall p ensures p in dup <==> p in rel {
      assert p in dup <==> p in rel[..k] || p == rel[k] || p in rel[k..];
    }
    VerdictsDependOnlyOnMembers(dup, rel, n);
  }

  /** The empty relation is reflexive exactly when the set is empty, and it is
      always symmetric and transitive. */
  lemma EmptyRelationVerdicts(n: int)
    ensures IsReflexive([], n) <==> n <= 0
    ensures IsSymmetric([]) && IsTransitive([])
  {
    if n > 0 {
      assert !((0, 0) in []);
    }
  }

  /** A relation made only of self-pairs is symmetric. */
  lemma SelfPairsAreSymmetric(rel: Relation)
    requires forall k :: 0 <= k < |rel| ==> rel[k].0 == rel[k].1
    ensures IsSymmetric(rel)
  {
  }

  /** Adding pairs never breaks reflexivity: a relation containing the full
      diagonal is reflexive whatever else it contains. */
  lemma ReflexivityIsMonotone(small: Relation, big: Relation, n: int)
    requires IsReflexive(small, n)
    requires forall p :: p in small ==> p in big
    ensures IsReflexive(big, n)
  {
  }

  /** Worked examples: `[(0,0), (1,1)]` over a set of size 2 has all three
      properties. */
  lemma ExampleDiagonal()
    ensures IsReflexive([(0, 0), (1, 1)], 2)
    ensures IsSymmetric([(0, 0), (1, 1)])
    ensures IsTransitive([(0, 0), (1, 1)])
  {
  }

  /** `[(0,1)]` over a set of size 2 is only (vacuously) transitive. */
  lemma ExampleSingleArrow()
    ensures !IsReflexive([(0, 1)], 2)
    ensures !IsSymmetric([(0, 1)])
    ensures IsTransitive([(0, 1)])
  {
    assert (0, 1) in [(0, 1)] && (1, 0) !in [(0, 1)];
  }

  /** `[(0,1), (1,0)]` over a set of size 2 is symmetric but not transitive,
      because the chain through 1 needs `(0,0)`. */
  lemma ExampleTwoCycle()
    ensures !IsReflexive([(0, 1), (1, 0)], 2)
    ensures IsSymmetric([(0, 1), (1, 0)])
    ensures !IsTransitive([(0, 1), (1, 0)])
  {
    var rel := [(0, 1), (1, 0)];
    assert (0, 1) in rel && (1, 0) in rel && (0, 0) !in rel;
  }

  /** `[(0,1), (1,2), (0,2)]` over a set of size 3 is transitive only. */
  lemma ExampleChain()
    ensures !IsReflexive([(0, 1), (1, 2), (0, 2)], 3)
    ensures !IsSymmetric([(0, 1), (1, 2), (0, 2)])
    ensures IsTransitive([(0, 1), (1, 2), (0, 2)])
  {
    var rel := [(0, 1), (1, 2), (0, 2)];
    assert (0, 1) in rel && (1, 0) !in rel;
  }
}
