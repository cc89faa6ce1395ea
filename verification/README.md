# Relation properties quiz: a Dafny model

The relation game shows the player a random binary relation over the set
`{0, 1, 2, 3}`, a list of ordered pairs. The player ticks which of three
properties it has: reflexive, symmetric, transitive. On submit, the game
compares the three answers with the truth and shows "Correct" or "Incorrect".
This project models the logic behind that in Dafny and proves properties of it:

- `relations.dfy`, module `Relations`: pairs, relations as lists of pairs, the
  textbook definitions of the three properties (ghost predicates), and the
  row-major order on pairs.
- `analyzer.dfy`, module `Analyzer`: the three checkers. They are written as the
  game computes them, with nested "every"/"some" scans over the list of pairs.
  Each is proved equal to its textbook definition. From this follow the facts
  that the verdicts depend only on which pairs are present, and that the worked
  examples come out right. The reflexivity check also exists as the imperative
  loop with its early return, proved with loop invariants.
- `generator.dfy`, module `Generator`: the random relation generator. The random
  source becomes an explicit `n` by `n` grid of coin flips, one per cell: the
  flip for cell `(i, j)` is `flips[i][j]`. Read row after row, the grid lists the
  `n * n` draws in the order the two nested loops make them. The output is
  proved to hold exactly the cells whose flip came up, all in range, in
  strictly increasing row-major order, without duplicates. Its length is proved
  to equal the number of flips that came up, so it is at most `n * n`.
- `game.dfy`, module `RelationGame`: one round as an immutable record holding
  the set size, the relation, the three answers and the verdict. Submit, new
  game and tick-a-box are pure transitions on that record. As in the game,
  ticking a box does not clear a verdict already on show. `ToggleAfterCorrect`
  states this: the stale "Correct" stays visible until the next submit, which
  then says "Incorrect".

## Model

| member | source | states |
|---|---|---|
| Analyzer.Contains | App.jsx:17 | the linear "some" scan for one pair answers true exactly when that pair occurs in the list |
| Analyzer.DiagonalFrom | App.jsx:16-20 | the loop over `i` from a start value up to the set size succeeds exactly when every `(k, k)` in that range is present |
| Analyzer.IsReflexive | App.jsx:15-22 | the reflexivity check is true iff `(i, i)` is present for every `0 <= i < n`; it is vacuously true when `n <= 0` |
| Analyzer.CheckReflexive | App.jsx:15-22 | the loop with its early exit on the first missing diagonal pair decides the same textbook reflexivity |
| Analyzer.AllMirrored | App.jsx:25-27 | the outer "every" scan of the symmetry check succeeds iff each scanned pair `(a, b)` has `a = b` or has `(b, a)` in the relation |
| Analyzer.IsSymmetric | App.jsx:24-28 | the symmetry check is true iff every pair of distinct elements has its mirror image in the relation |
| Analyzer.ShortcutsPresent | App.jsx:32-34 | the inner "every" scan for a fixed `(a, b)` succeeds iff every `(b, d)` in the relation has the shortcut `(a, d)` |
| Analyzer.AllChainsClosed | App.jsx:31-35 | the outer scan succeeds iff every chain `(a, b), (b, d)` starting in the scanned part has `(a, d)` in the relation |
| Analyzer.IsTransitive | App.jsx:30-36 | the transitivity check is true iff for all `(a, b)` and `(b, c)` in the relation, `(a, c)` is in it too |
| Analyzer.VerdictsDependOnlyOnMembers | App.jsx:15-36 | two lists with the same pairs get the same three verdicts |
| Analyzer.ReorderingKeepsVerdicts | App.jsx:15-36 | any permutation of the list keeps all three verdicts |
| Analyzer.DuplicatingKeepsVerdicts | App.jsx:15-36 | inserting a second copy of a pair keeps all three verdicts |
| Analyzer.EmptyRelationVerdicts | App.jsx:15-36 | the empty relation is reflexive iff the set is empty, and it is always symmetric and transitive |
| Analyzer.SelfPairsAreSymmetric | App.jsx:24-28 | a relation made only of self-pairs is symmetric |
| Analyzer.ReflexivityIsMonotone | App.jsx:15-22 | adding pairs to a reflexive relation keeps it reflexive |
| Analyzer.ExampleDiagonal | App.jsx:15-36 | `[(0,0), (1,1)]` over two elements has all three properties |
| Analyzer.ExampleSingleArrow | App.jsx:15-36 | `[(0,1)]` over two elements is neither reflexive nor symmetric but is vacuously transitive |
| Analyzer.ExampleTwoCycle | App.jsx:15-36 | `[(0,1), (1,0)]` over two elements is symmetric but neither reflexive nor transitive, since `(0,0)` is missing |
| Analyzer.ExampleChain | App.jsx:15-36 | `[(0,1), (1,2), (0,2)]` over three elements is transitive but neither reflexive nor symmetric |
| Generator.RowFrom | App.jsx:6-10 | the inner loop keeps exactly the cells of row `i` whose flip came up, in increasing column order, one per head |
| Generator.RowsFrom | App.jsx:5-11 | the outer loop keeps exactly the cells of the remaining rows whose flip came up, in row-major order, one per head |
| Generator.Generate | App.jsx:3-13 | the generated relation holds exactly the cells `(i, j)` of the `n` by `n` grid whose flip came up; it is in range, strictly increasing in row-major order and duplicate-free; its length is the number of heads, at most `n * n` |
| Relations.SortedHasNoDuplicates | App.jsx:5-8 | a list in strictly increasing row-major order, like the generator's, repeats no pair |
| Generator.GenerateEmptySet | App.jsx:3-13 | a set of size 0 yields the empty relation, which all three checkers accept |
| Generator.AllFlipsGiveFullGrid | App.jsx:5-8 | when every flip comes up, the output is the full grid of `n * n` pairs, which is reflexive, symmetric and transitive |
| RelationGame.Solution | App.jsx:45-49 | the three right answers are the textbook reflexivity, symmetry and transitivity of the relation over the set size |
| RelationGame.Start | App.jsx:39-42 | the first round has set size 4, a freshly generated relation over it, no box ticked and no verdict |
| RelationGame.Check | App.jsx:44-61 | submitting shows Correct iff each of the three answers equals the truth, and Incorrect otherwise; the relation and answers are unchanged |
| RelationGame.CorrectIffSolution | App.jsx:51-60 | exactly one combination of answers is judged correct: the solution |
| RelationGame.CheckIsIdempotent | App.jsx:44-61 | submitting again without changes gives the same verdict |
| RelationGame.NewGame | App.jsx:63-67 | a new game draws a fresh relation over the same set size, unticks every box and clears the verdict |
| RelationGame.NewGameRestarts | App.jsx:63-67 | a new game at set size 4 is the same round as the first one, given the same flips |
| RelationGame.ToggleAnswer | App.jsx:69-71 | ticking a box flips exactly that answer; the other two answers, the relation and the verdict stay the same |
| RelationGame.ToggleTwiceRestores | App.jsx:69-71 | ticking the same box twice restores the round |
| RelationGame.ToggleAfterCorrect | App.jsx:56-71 | after a correct submission, changing one answer leaves "Correct" on show, and the next submission is judged Incorrect |

## Left out

- Rendering (App.jsx:73-116): the markup, the CSS classes and the pair list display are presentation only.
- React's state hooks and re-rendering (App.jsx:38-42): a round is an explicit immutable record, passed in and returned.
- The random source (App.jsx:7): each comparison of a uniform draw with 0.5 is an explicit boolean flip, given to the generator as a grid with one row per outer-loop pass. Its probability distribution is not modelled.
- The message strings: the verdict is the enumeration `Blank | Correct | Incorrect`.
- Generator.Generate: takes a set size of type `nat`. In the game a negative size would make both loops run zero times and yield the empty relation. The only size the game uses is 4.
- Elements and pairs are mathematical integers. JavaScript numbers (fractions, NaN) never arise, because the generator only produces loop counters.
- RelationGame.ToggleAnswer: takes one of the three properties. Any other property key would add a new field to the answers object; the game never passes one.
