/**
 The puzzles of the escape room: a closed set of two variants, each holding a
 fixed expected answer and a fixed hint. Checking an answer is an exact,
 case-sensitive comparison with the puzzle's stored answer.

 The two source files differ in when the stored answer is set: main.cpp sets
 it when the puzzle is built, tempCodeRunnerFile.cpp only inside
 generatePuzzle, so there a fresh puzzle holds the empty string.
 */
module Puzzles {

  /** The two puzzle variants (RiddlePuzzle, NumberSequencePuzzle). */
  datatype Kind = Riddle | NumberSequence

  /** When the stored answer is assigned: in the member initialisers
      (main.cpp) or in generatePuzzle (tempCodeRunnerFile.cpp). */
  datatype AnswerInit = AtConstruction | OnGenerate

  /** A puzzle. `generated` records whether generatePuzzle has run; it only
      matters for the OnGenerate variant. */
  datatype Puzzle = Puzzle(kind: Kind, init: AnswerInit, generated: bool)

  /** The answer each variant expects once it is set up. */
  function Expected(kind: Kind): string
  {
    match kind
    case Riddle => "Echo"
    case NumberSequence => "32"
  }

  /** The hint each variant prints. */
  function HintText(kind: Kind): string
  {
    match kind
    case Riddle => "It repeats what you say."
    case NumberSequence => "It doubles each time."
  }

  /** The value of the puzzle's correctAnswer member. */
  function StoredAnswer(p: Puzzle): string
  {
    if p.init == AtConstruction || p.generated then Expected(p.kind) else ""
  }

  /** A freshly constructed puzzle. */
  function NewPuzzle(kind: Kind, init: AnswerInit): (p: Puzzle)
    ensures p.kind == kind && p.init == init
    ensures init == AtConstruction ==> StoredAnswer(p) == Expected(kind)
    ensures init == OnGenerate ==> StoredAnswer(p) == ""
  {
    Puzzle(kind, init, false)
  }

  /** generatePuzzle: shows the prompt and, in the OnGenerate variant, assigns
      the stored answer. Afterwards the stored answer is the expected one in
      both variants; the AtConstruction variant is left untouched. */
  function Generate(p: Puzzle): (q: Puzzle)
    ensures q.kind == p.kind && q.init == p.init
    ensures StoredAnswer(q) == Expected(p.kind)
    ensures p.init == AtConstruction ==> q == p
  {
    match p.init
    case OnGenerate => p.(generated := true)
    case AtConstruction => p
  }

  /** checkAnswer: exact string equality with the stored answer. */
  function CheckAnswer(p: Puzzle, answer: string): (ok: bool)
    ensures p.init == AtConstruction || p.generated ==> (ok <==> answer == Expected(p.kind))
    ensures p.init == OnGenerate && !p.generated ==> (ok <==> answer == "")
  {
    answer == StoredAnswer(p)
  }

  /** Running generatePuzzle a second time changes nothing. */
  lemma GenerateIdempotent(p: Puzzle)
    ensures Generate(Generate(p)) == Generate(p)
  {
  }

  /** Once generated, a puzzle accepts exactly its expected answer, in both
      variants. */
  lemma CheckAfterGenerate(p: Puzzle, answer: string)
    ensures CheckAnswer(Generate(p), answer) <==> answer == Expected(p.kind)
  {
  }

  /** The comparison does not fold case: "echo" is not "Echo". */
  lemma CheckIsCaseSensitive(init: AnswerInit)
    ensures CheckAnswer(Generate(NewPuzzle(Riddle, init)), "Echo")
    ensures !CheckAnswer(Generate(NewPuzzle(Riddle, init)), "echo")
    ensures !CheckAnswer(Generate(NewPuzzle(Riddle, init)), "ECHO")
    ensures !CheckAnswer(Generate(NewPuzzle(Riddle, init)), "Echo ")
  {
    assert "echo"[0] != "Echo"[0];
    assert "ECHO"[1] != "Echo"[1];
    assert |"Echo "| != |"Echo"|;
  }

  /** In the OnGenerate variant a puzzle that was never generated accepts
      only the empty string (its stored answer is still empty). */
  lemma UngeneratedAcceptsOnlyEmpty(kind: Kind, answer: string)
    ensures CheckAnswer(NewPuzzle(kind, OnGenerate), answer) <==> answer == ""
  {
  }
}
