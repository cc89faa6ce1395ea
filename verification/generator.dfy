/**
 The relation generator. It walks the `n` by `n` grid of candidate pairs row by
 row and column by column, and keeps each cell on a coin flip. The coin is an
 explicit input: `flips[i][j]` is the outcome for cell `(i, j)`, so there is one
 flip per cell, and reading the rows one after the other gives the flips in the
 order the walk uses them.
 */
module Generator {
  import opened Relations
  import Analyzer

  /** One flip per cell of the `n` by `n` grid. */
  predicate IsGrid(flips: seq<seq<bool>>, n: nat) {
    |flips| == n && forall i :: 0 <= i < n ==> |flips[i]| == n
  }

  /** The number of flips that came up in one run of flips. */
  function Heads(run: seq<bool>): (count: nat)
    ensures count <= |run|
  {
    if |run| == 0 then 0 else (if run[0] then 1 else 0) + Heads(run[1..])
  }

  /** The number of flips that came up in a list of rows. */
  function TotalHeads(rows: seq<seq<bool>>): nat {
    if |rows| == 0 then 0 else Heads(rows[0]) + TotalHeads(rows[1..])
  }

  /** Rows of `n` flips each hold at most `n` heads per row. */
  lemma {:induction false} TotalHeadsBound(rows: seq<seq<bool>>, n: nat)
    requires forall i :: 0 <= i < |rows| ==> |rows[i]| == n
    ensures TotalHeads(rows) <= |rows| * n
  {
    if |rows| > 0 {
      TotalHeadsBound(rows[1..], n);
      assert |rows| * n == n + (|rows| - 1) * n;
    }
  }

  /** When every flip of a run came up, every flip counts. */
  lemma {:induction false} AllHeads(run: seq<bool>)
    requires forall k :: 0 <= k < |run| ==> run[k]
    ensures Heads(run) == |run|
  {
    if |run| > 0 {
      AllHeads(run[1..]);
    }
  }

  /** When every flip of every row came up, every flip counts. */
  lemma {:induction false} AllTotalHeads(rows: seq<seq<bool>>, n: nat)
    requires forall i :: 0 <= i < |rows| ==> |rows[i]| == n
    requires forall i, j :: 0 <= i < |rows| && 0 <= j < n ==> rows[i][j]
    ensures TotalHeads(rows) == |rows| * n
  {
    if |rows| > 0 {
      AllHeads(rows[0]);
      AllTotalHeads(rows[1..], n);
      assert |rows| * n == n + (|rows| - 1) * n;
    }
  }

  /** The inner loop: the kept cells of row `i`, from column `j` to the end. */
  function RowFrom(flips: seq<seq<bool>>, n: nat, i: int, j: int): (cells: Relation)
    requires IsGrid(flips, n)
    requires 0 <= i < n && 0 <= j <= n
    decreases n - j
    ensures forall k :: 0 <= k < |cells| ==> cells[k].0 == i && j <= cells[k].1 < n
    ensures StrictlySorted(cells)
    ensures forall b :: j <= b < n ==> ((i, b) in cells <==> flips[i][b])
    ensures |cells| == Heads(flips[i][j..])
  {
    if j == n then []
    else
      assert flips[i][j..][0] == flips[i][j] && flips[i][j..][1..] == flips[i][j + 1..];
      var rest := RowFrom(flips, n, i, j + 1);
      if flips[i][j] then
        SortedConcat([(i, j)], rest);
        [(i, j)] + rest
      else
        rest
  }

  /** Joining the cells of row `i` to those of the rows after it keeps the
      result in range and in row-major order. */
  lemma JoinRows(row: Relation, rest: Relation, n: nat, i: int)
    requires forall k :: 0 <= k < |row| ==> row[k].0 == i && 0 <= row[k].1 < n
    requires forall k :: 0 <= k < |rest| ==> i < rest[k].0 < n && 0 <= rest[k].1 < n
    requires 0 <= i < n && StrictlySorted(row) && StrictlySorted(rest)
    ensures forall k :: 0 <= k < |row + rest| ==> i <= (row + rest)[k].0 < n && 0 <= (row + rest)[k].1 < n
    ensures StrictlySorted(row + rest)
  {
    SortedConcat(row, rest);
    var cells := row + rest;
    forall k | 0 <= k < |cells| ensures i <= cells[k].0 < n && 0 <= cells[k].1 < n {
      if k < |row| {
        assert cells[k] == row[k];
      } else {
        assert cells[k] == rest[k - |row|];
      }
    }
  }

  /** After the join, the pairs of row `i` are those of the row's own cells and
      every other pair is one of the later rows'. */
  lemma RowsApart(row: Relation, rest: Relation, i: int)
    requires forall k :: 0 <= k < |row| ==> row[k].0 == i
    requires forall k :: 0 <= k < |rest| ==> i < rest[k].0
    ensures forall b :: (i, b) in row + rest <==> (i, b) in row
    ensures forall a, b :: a != i ==> ((a, b) in row + rest <==> (a, b) in rest)
  {
  }

  /** The outer loop: the kept cells of rows `i` to `n - 1`, in row-major order. */
  function RowsFrom(flips: seq<seq<bool>>, n: nat, i: int): (cells: Relation)
    requires IsGrid(flips, n)
    requires 0 <= i <= n
    decreases n - i
    ensures forall k :: 0 <= k < |cells| ==> i <= cells[k].0 < n && 0 <= cells[k].1 < n
    ensures StrictlySorted(cells)
    ensures forall a, b :: i <= a < n && 0 <= b < n ==> ((a, b) in cells <==> flips[a][b])
    ensures |cells| == TotalHeads(flips[i..])
  {
    if i == n then []
    else
      var row := RowFrom(flips, n, i, 0);
      var rest := RowsFrom(flips, n, i + 1);
      JoinRows(row, rest, n, i);
      RowsApart(row, rest, i);
      assert flips[i][0..] == flips[i] && flips[i..][0] == flips[i] && flips[i..][1..] == flips[i + 1..];
      row + rest
  }

  /** A random relation over `{0, ..., n-1}`: exactly the cells whose flip came
      up, each once, in row-major order. */
  function Generate(n: nat, flips: seq<seq<bool>>): (rel: Relation)
    requires IsGrid(flips, n)
    ensures InGrid(rel, n)
    ensures forall i, j :: 0 <= i < n && 0 <= j < n ==> ((i, j) in rel <==> flips[i][j])
    ensures StrictlySorted(rel)
    ensures NoDuplicates(rel)
    ensures |rel| == TotalHeads(flips) <= n * n
  {
    var rel := RowsFrom(flips, n, 0);
    assert flips[0..] == flips;
    SortedHasNoDuplicates(rel);
    TotalHeadsBound(flips, n);
    rel
  }

  /** A set of size 0 always yields the empty relation, and all three checkers
      accept it. */
  lemma GenerateEmptySet(flips: seq<seq<bool>>)
    requires IsGrid(flips, 0)
    ensures Generate(0, flips) == []
    ensures Analyzer.IsReflexive(Generate(0, flips), 0)
    ensures Analyzer.IsSymmetric(Generate(0, flips))
    ensures Analyzer.IsTransitive(Generate(0, flips))
  {
    Analyzer.EmptyRelationVerdicts(0);
  }

  /** With every flip coming up, the generator yields the full grid, which is
      reflexive, symmetric and transitive. */
  lemma AllFlipsGiveFullGrid(n: nat, flips: seq<seq<bool>>)
    requires IsGrid(flips, n)
    requires forall i, j :: 0 <= i < n && 0 <= j < n ==> flips[i][j]
    ensures forall i, j :: (i, j) in Generate(n, flips) <==> 0 <= i < n && 0 <= j < n
    ensures |Generate(n, flips)| == n * n
    ensures Analyzer.IsReflexive(Generate(n, flips), n)
    ensures Analyzer.IsSymmetric(Generate(n, flips))
    ensures Analyzer.IsTransitive(Generate(n, flips))
  {
    var rel := Generate(n, flips);
    forall i, j | (i, j) in rel ensures 0 <= i < n && 0 <= j < n {
      var k :| 0 <= k < |rel| && rel[k] == (i, j);
    }
    AllTotalHeads(flips, n);
  }
}
