/**
 One round of the quiz as an immutable value: the set size, the relation on
 show, the player's three answers and the verdict message. The three event
 handlers (submit, new game, tick a box) become pure transitions from one round
 value to the next.
 */
module RelationGame {
  import opened Relations
  import Analyzer
  import Generator

  /** The set size the game always plays with. */
  const SetSize: nat := 4

  /** The three properties the player answers about. */
  datatype Property = Reflexivity | Symmetry | Transitivity

  /** One yes/no answer per property. */
  datatype Answers = Answers(reflexive: bool, symmetric: bool, transitive: bool)
  {
    /** The answer given for property `p`. */
    function Get(p: Property): bool {
      match p
      case Reflexivity => reflexive
      case Symmetry => symmetric
      case Transitivity => transitive
    }
  }

  /** The verdict shown under the quiz; `Blank` before any submission. */
  datatype Message = Blank | Correct | Incorrect

  datatype Round = Round(setSize: nat, relation: Relation, answers: Answers, message: Message)

  /** All three boxes unticked. */
  const Unticked := Answers(false, false, false)

  /** The right answers for `rel` over a set of size `n`. */
  function Solution(rel: Relation, n: int): (sol: Answers)
    ensures sol.reflexive <==> Reflexive(rel, n)
    ensures sol.symmetric <==> Symmetric(rel)
    ensures sol.transitive <==> Transitive(rel)
  {
    Answers(Analyzer.IsReflexive(rel, n), Analyzer.IsSymmetric(rel), Analyzer.IsTransitive(rel))
  }

  /** The first round: a fresh relation over the fixed set size, no box ticked,
      no verdict. */
  function Start(flips: seq<seq<bool>>): (s: Round)
    requires Generator.IsGrid(flips, SetSize)
    ensures s.setSize == SetSize && s.answers == Unticked && s.message == Blank
    ensures InGrid(s.relation, SetSize) && NoDuplicates(s.relation)
    ensures forall i, j :: 0 <= i < SetSize && 0 <= j < SetSize ==>
      ((i, j) in s.relation <==> flips[i][j])
  {
    Round(SetSize, Generator.Generate(SetSize, flips), Unticked, Blank)
  }

  /** Submitting: the verdict is Correct exactly when each of the three answers
      matches the truth, and nothing else changes. */
  function Check(s: Round): (t: Round)
    ensures t.setSize == s.setSize && t.relation == s.relation && t.answers == s.answers
    ensures t.message == Correct <==>
      && (s.answers.reflexive <==> Reflexive(s.relation, s.setSize))
      && (s.answers.symmetric <==> Symmetric(s.relation))
      && (s.answers.transitive <==> Transitive(s.relation))
    ensures t.message != Correct ==> t.message == Incorrect
  {
    var sol := Solution(s.relation, s.setSize);
    var correct :=
      s.answers.reflexive == sol.reflexive &&
      s.answers.symmetric == sol.symmetric &&
      s.answers.transitive == sol.transitive;
    s.(message := if correct then Correct else Incorrect)
  }

  /** A new game: a fresh relation over the same set size, every box unticked and
      the verdict cleared. */
  function NewGame(s: Round, flips: seq<seq<bool>>): (t: Round)
    requires Generator.IsGrid(flips, s.setSize)
    ensures t.setSize == s.setSize && t.answers == Unticked && t.message == Blank
    ensures InGrid(t.relation, s.setSize) && NoDuplicates(t.relation)
    ensures forall i, j :: 0 <= i < s.setSize && 0 <= j < s.setSize ==>
      ((i, j) in t.relation <==> flips[i][j])
  {
    Round(s.setSize, Generator.Generate(s.setSize, flips), Unticked, Blank)
  }

  /** Ticking or unticking the box of property `p`: that answer flips, the other
      two answers, the relation and the verdict stay as they were. */
  function ToggleAnswer(s: Round, p: Property): (t: Round)
    ensures t.answers.Get(p) == !s.answers.Get(p)
    ensures forall q :: q != p ==> t.answers.Get(q) == s.answers.Get(q)
    ensures t.setSize == s.setSize && t.relation == s.relation && t.message == s.message
  {
    var a := s.answers;
    var answers :=
      match p
      case Reflexivity => a.(reflexive := !a.reflexive)
      case Symmetry => a.(symmetric := !a.symmetric)
      case Transitivity => a.(transitive := !a.transitive)
    ;
    s.(answers := answers)
  }

  /** Exactly one set of answers is judged correct: the solution. */
  lemma CorrectIffSolution(s: Round)
    ensures Check(s).message == Correct <==> s.answers == Solution(s.relation, s.setSize)
  {
  }

  /** Submitting twice gives the same verdict as submitting once. */
  lemma CheckIsIdempotent(s: Round)
    ensures Check(Check(s)) == Check(s)
  {
  }

  /** Ticking the same box twice restores the round. */
  lemma ToggleTwiceRestores(s: Round, p: Property)
    ensures ToggleAnswer(ToggleAnswer(s, p), p) == s
  {
  }

  /** From a correct submission, changing any one answer makes the next
      submission incorrect; until then the old verdict stays on show. */
  lemma ToggleAfterCorrect(s: Round, p: Property)
    requires Check(s).message == Correct
    ensures ToggleAnswer(Check(s), p).message == Correct
    ensures Check(ToggleAnswer(Check(s), p)).message == Incorrect
  {
    CorrectIffSolution(s);
    CorrectIffSolution(ToggleAnswer(Check(s), p));
  }

  /** A new game at the game's set size is indistinguishable from the first round. */
  lemma NewGameRestarts(s: Round, flips: seq<seq<bool>>)
    requires s.setSize == SetSize
    requires Generator.IsGrid(flips, SetSize)
    ensures NewGame(s, flips) == Start(flips)
  {
  }
}
