/**
 A room wraps one puzzle and a solved flag. The flag is a one-way switch:
 checkSolution sets it on the first matching answer and nothing resets it;
 startPuzzle and provideHint only act while the room is unsolved.
 */
module Rooms {
  import opened Puzzles

  datatype Option<T> = None | Some(value: T)

  datatype Room = Room(name: string, puzzle: Puzzle, solved: bool)

  /** The result of checkSolution: the room afterwards and the returned flag. */
  datatype Verdict = Verdict(room: Room, correct: bool)

  /** A freshly constructed room starts unsolved. */
  function NewRoom(name: string, puzzle: Puzzle): (r: Room)
    ensures r.name == name && r.puzzle == puzzle
    ensures !r.solved
  {
    Room(name, puzzle, false)
  }

  /** isRoomSolved. */
  predicate IsRoomSolved(r: Room)
  {
    r.solved
  }

  /** startPuzzle: generates the puzzle only while the room is unsolved. After
      it, an unsolved room's puzzle holds its expected answer. */
  function StartPuzzle(r: Room): (r': Room)
    ensures r.solved ==> r' == r
    ensures r'.name == r.name && r'.solved == r.solved
    ensures r'.puzzle.kind == r.puzzle.kind && r'.puzzle.init == r.puzzle.init
    ensures !r.solved ==> StoredAnswer(r'.puzzle) == Expected(r.puzzle.kind)
  {
    if !r.solved then r.(puzzle := Generate(r.puzzle)) else r
  }

  /** checkSolution: succeeds only on an unsolved room whose puzzle accepts the
      answer, and then marks it solved; otherwise returns false and leaves the
      room exactly as it was. */
  function CheckSolution(r: Room, answer: string): (v: Verdict)
    ensures v.correct <==> !r.solved && answer == StoredAnswer(r.puzzle)
    ensures v.correct ==> v.room == r.(solved := true)
    ensures !v.correct ==> v.room == r
    ensures r.solved ==> v.room.solved
  {
    if !r.solved && CheckAnswer(r.puzzle, answer) then
      Verdict(r.(solved := true), true)
    else
      Verdict(r, false)
  }

  /** provideHint: the hint shown, if any. A solved room shows nothing; the
      room itself never changes. */
  function ProvideHint(r: Room): (h: Option<string>)
    ensures h.Some? <==> !r.solved
    ensures h.Some? ==> h.value == HintText(r.puzzle.kind)
  {
    if !r.solved then Some(HintText(r.puzzle.kind)) else None
  }

  /** The result of a run of checkSolution calls: the room afterwards and how
      many of the calls returned true. */
  datatype Tally = Tally(room: Room, successes: nat)

  /** Submits every answer of `answers` to checkSolution in turn. At most one
      call returns true, none does once the room is solved, and an unsolved
      room returns true exactly when some answer matches. */
  function CheckAll(r: Room, answers: seq<string>): (t: Tally)
    decreases |answers|
    ensures t.successes <= 1
    ensures r.solved ==> t == Tally(r, 0)
    ensures t.room.solved <==> r.solved || t.successes == 1
    ensures t.room.name == r.name && t.room.puzzle == r.puzzle
    ensures t.successes == 1 <==>
              !r.solved && exists k :: 0 <= k < |answers| && answers[k] == StoredAnswer(r.puzzle)
  {
    if |answers| == 0 then Tally(r, 0)
    else
      var v := CheckSolution(r, answers[0]);
      var tail := CheckAll(v.room, answers[1..]);
      assert (exists k :: 0 <= k < |answers| && answers[k] == StoredAnswer(r.puzzle)) <==>
             answers[0] == StoredAnswer(r.puzzle) ||
             exists k :: 0 <= k < |answers[1..]| && answers[1..][k] == StoredAnswer(r.puzzle) by {
        if k :| 0 <= k < |answers| && answers[k] == StoredAnswer(r.puzzle) {
          if k > 0 {
            assert answers[1..][k - 1] == answers[k];
          }
        }
        if k :| 0 <= k < |answers[1..]| && answers[1..][k] == StoredAnswer(r.puzzle) {
          assert answers[k + 1] == answers[1..][k];
        }
      }
      if v.correct then Tally(tail.room, tail.successes + 1) else tail
  }

  /** Once solved, every later checkSolution returns false, even for the
      correct answer, and the room stays solved. */
  lemma SolvedIsFinal(r: Room, answer: string)
    requires r.solved
    ensures !CheckSolution(r, answer).correct
    ensures CheckSolution(r, answer).room.solved
  {
  }

  /** startPuzzle and provideHint are no-ops on a solved room. */
  lemma SolvedRoomIgnoresPuzzleAndHint(r: Room)
    requires r.solved
    ensures StartPuzzle(r) == r
    ensures ProvideHint(r) == None
  {
  }
}
