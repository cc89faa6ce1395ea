/**
 Binary relations over a finite set of integer elements, represented the way the
 quiz represents them: a list of ordered pairs in which neither order nor
 repetition carries meaning. The ghost predicates here are the textbook
 definitions; the executable checkers of module Analyzer are proved equal to them.
 */
module Relations {

  /** An ordered pair `(a, b)`, read "a is related to b". */
  type Pair = (int, int)

  /** A relation as a list of pairs; only membership matters. */
  type Relation = seq<Pair>

  /** Every element of `{0, ..., n-1}` is related to itself (vacuous when n <= 0). */
  ghost predicate Reflexive(rel: Relation, n: int) {
    forall i :: 0 <= i < n ==> (i, i) in rel
  }

  /** Every related pair of distinct elements is related the other way round too. */
  ghost predicate Symmetric(rel: Relation) {
    forall a, b :: (a, b) in rel && a != b ==> (b, a) in rel
  }

  /** Whenever a is related to b and b to c, a is related to c. */
  ghost predicate Transitive(rel: Relation) {
    forall a, b, c :: (a, b) in rel && (b, c) in rel ==> (a, c) in rel
  }

  /** Two lists that denote the same set of pairs. */
  ghost predicate SameMembers(r1: Relation, r2: Relation) {
    forall p :: p in r1 <==> p in r2
  }

  /** Every pair has both components in `{0, ..., n-1}`. */
  predicate InGrid(rel: Relation, n: int) {
    forall k :: 0 <= k < |rel| ==> 0 <= rel[k].0 < n && 0 <= rel[k].1 < n
  }

  /** Row-major (lexicographic) order on pairs: first by row, then by column. */
  predicate LexLess(p: Pair, q: Pair) {
    p.0 < q.0 || (p.0 == q.0 && p.1 < q.1)
  }

  /** Each pair comes strictly after its predecessor in row-major order. */
  predicate StrictlySorted(rel: Relation) {
    forall k :: 0 < k < |rel| ==> LexLess(rel[k - 1], rel[k])
  }

  /** No pair occurs at two different positions. */
  predicate NoDuplicates(rel: Relation) {
    forall k, l :: 0 <= k < l < |rel| ==> rel[k] != rel[l]
  }

  /** Every pair of a strictly sorted list precedes every later pair. */
  lemma {:induction false} SortedIsIncreasing(rel: Relation)
    requires StrictlySorted(rel)
    ensures forall k, l :: 0 <= k < l < |rel| ==> LexLess(rel[k], rel[l])
  {
    if |rel| > 1 {
      var init := rel[..|rel| - 1];
      assert StrictlySorted(init) by {
        forall k | 0 < k < |init| ensures LexLess(init[k - 1], init[k]) {
          assert init[k - 1] == rel[k - 1] && init[k] == rel[k];
        }
      }
      SortedIsIncreasing(init);
      forall k, l | 0 <= k < l < |rel| ensures LexLess(rel[k], rel[l]) {
        if l < |rel| - 1 {
          assert rel[k] == init[k] && rel[l] == init[l];
        } else if k < l - 1 {
          assert LexLess(init[k], init[l - 1]);
          assert LexLess(rel[l - 1], rel[l]);
        }
      }
    }
  }

  /** A strictly sorted list repeats no pair. */
  lemma SortedHasNoDuplicates(rel: Relation)
    requires StrictlySorted(rel)
    ensures NoDuplicates(rel)
  {
    SortedIsIncreasing(rel);
  }

  /** Joining two sorted lists keeps them sorted when the last pair of the first
      precedes the first pair of the second. */
  lemma SortedConcat(xs: Relation, ys: Relation)
    requires StrictlySorted(xs) && StrictlySorted(ys)
    requires |xs| > 0 && |ys| > 0 ==> LexLess(xs[|xs| - 1], ys[0])
    ensures StrictlySorted(xs + ys)
  {
    var zs := xs + ys;
    forall k | 0 < k < |zs| ensures LexLess(zs[k - 1], zs[k]) {
      if k < |xs| {
        assert zs[k - 1] == xs[k - 1] && zs[k] == xs[k];
      } else if k == |xs| {
        assert zs[k - 1] == xs[|xs| - 1] && zs[k] == ys[0];
      } else {
        assert zs[k - 1] == ys[k - 1 - |xs|] && zs[k] == ys[k - |xs|];
      }
    }
  }
}
