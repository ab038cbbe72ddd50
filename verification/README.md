# Escape-room quiz: a Dafny model

This project models the core of a small console escape-room game. The game is
written twice in C++, in `main.cpp` and `tempCodeRunnerFile.cpp`. Both copies
have the same four classes:

- **Puzzle**: two closed variants, `RiddlePuzzle` (answer "Echo") and
  `NumberSequencePuzzle` (answer "32"). `checkAnswer` compares a candidate
  with the stored answer using exact, case-sensitive string equality.
- **Room**: one puzzle plus a one-way `isSolved` flag. `checkSolution` sets
  the flag on the first matching answer. `startPuzzle` and `provideHint` only
  act while the room is unsolved.
- **Player**: attempt and hint counters. Each update adds one.
- **GameEngine**: `addRoom` stores rooms in a fixed-capacity array.
  `startGame` makes one ordered pass over the rooms. For each unsolved room it
  reads one answer line. After a wrong answer it reads one more line, and
  exactly "y" or "Y" counts a hint.

One model covers both files:

- `AnswerInit` says when the stored answer is set. `AtConstruction` is
  `main.cpp`. `OnGenerate` is `tempCodeRunnerFile.cpp`, where the answer is
  the empty string until `generatePuzzle` runs.
- The engine's capacity is a field. It is `maxRooms` in
  `tempCodeRunnerFile.cpp` and the constant `MainCapacity` = 10 in `main.cpp`.

In both files a correct answer moves on to the next room (`continue`).
Neither file stops the game at the first correct answer, and a room answered
wrongly is not visited again.

Console reads become an explicit `seq<string>` of input lines and a read
cursor that counts the `getline` calls made so far. Past the end of the input
every read yields the empty string. The target strings `playerAnswer` and
`needHint` are declared fresh in each iteration, and a `getline` that finds
no line leaves its string empty, so the game carries on with "" lines and
always finishes. A hint becomes the text that `provideHint` prints after its
`Hint: ` prefix, and the game's outcome lists the hints shown, in order. Everything is value
semantics: operations return the new room, player or engine.

Files:

- `puzzles.dfy`: module `Puzzles`.
- `rooms.dfy`: module `Rooms`.
- `players.dfy`: module `Players`.
- `engine.dfy`: module `Engine`. It holds `AddRoom`, the loop body
  `VisitRoom`, the recursive `PlayFrom`/`StartGame`, and `RunGame`, an index
  loop written like the source (its body is `PlayRoom`) and proved equal to
  `StartGame`.
- `game_properties.dfy`: module `GameProperties`, with whole-game lemmas.

## Model

| member | source | states |
|---|---|---|
| Puzzles.NewPuzzle | tempCodeRunnerFile.cpp:15-22 | A fresh puzzle's stored answer is "" when it is assigned in generatePuzzle, and the expected literal when it is a member initialiser (main.cpp:18-19, 37-38) |
| Puzzles.Generate | tempCodeRunnerFile.cpp:20-24 | After generatePuzzle the stored answer is "Echo" or "32" in both variants; the main.cpp variant (main.cpp:21-23) is left untouched |
| Puzzles.CheckAnswer | tempCodeRunnerFile.cpp:26-28 | Once the answer is set (main.cpp always, tempCodeRunnerFile.cpp after generatePuzzle) a candidate is accepted iff it equals the variant's expected answer; before that only "" is accepted (also tempCodeRunnerFile.cpp:47-49, main.cpp:25-27, main.cpp:44-46) |
| Puzzles.GenerateIdempotent | tempCodeRunnerFile.cpp:41-45 | Running generatePuzzle again leaves the puzzle unchanged |
| Puzzles.CheckAfterGenerate | tempCodeRunnerFile.cpp:26-28 | A generated puzzle accepts a candidate iff it equals the expected answer exactly (also tempCodeRunnerFile.cpp:47-49, main.cpp:25-27, main.cpp:44-46) |
| Puzzles.CheckIsCaseSensitive | main.cpp:25-27 | "Echo" is accepted; "echo", "ECHO" and "Echo " are not: no case folding, no trimming |
| Puzzles.UngeneratedAcceptsOnlyEmpty | tempCodeRunnerFile.cpp:17-18 | Before generatePuzzle, a tempCodeRunnerFile.cpp puzzle accepts exactly the empty string |
| Rooms.NewRoom | main.cpp:58-61 | A new room starts unsolved and holds the given name and puzzle |
| Rooms.StartPuzzle | tempCodeRunnerFile.cpp:70-74 | A solved room is unchanged; an unsolved room's puzzle then holds its expected answer; the solved flag never changes |
| Rooms.CheckSolution | tempCodeRunnerFile.cpp:76-82 | Returns true iff the room was unsolved and the answer equals the stored answer; then only the flag changes, to true; otherwise the room is unchanged; a solved room stays solved |
| Rooms.ProvideHint | main.cpp:81-85 | A hint is shown iff the room is unsolved, and it is the puzzle variant's hint text |
| Rooms.CheckAll | main.cpp:73-79 | Over any sequence of checkSolution calls at most one returns true, and none does on an already solved room; an unsolved room returns true exactly once iff one of the answers equals the stored answer, and it ends solved exactly then |
| Rooms.SolvedIsFinal | tempCodeRunnerFile.cpp:76-82 | On a solved room every checkSolution returns false, including for the correct answer, and the room stays solved |
| Rooms.SolvedRoomIgnoresPuzzleAndHint | tempCodeRunnerFile.cpp:70-88 | On a solved room startPuzzle (lines 70-74) changes nothing and provideHint (lines 84-88) shows nothing |
| Players.NewPlayer | main.cpp:94-100 | A new player has 0 attempts and 0 hints |
| Players.UpdateAttempts | tempCodeRunnerFile.cpp:113-115 | Attempts grow by exactly 1; name and hints are unchanged |
| Players.UseHint | tempCodeRunnerFile.cpp:117-119 | Hints grow by exactly 1; name and attempts are unchanged |
| Players.ApplyAllCounts | main.cpp:106-112 | After any run of updateAttempts and useHint calls the name is the same, no counter is lower, and each counter has grown by exactly the number of its own calls |
| Engine.NewEngine | tempCodeRunnerFile.cpp:135-137 | A new engine has no rooms, the given maxRooms and the given player |
| Engine.NewMainEngine | main.cpp:123-127 | The main.cpp engine has capacity 10 and no rooms |
| Engine.AddRoom | tempCodeRunnerFile.cpp:139-145 | A room is accepted iff roomCount < capacity; then it is stored at index roomCount and the earlier rooms are kept; otherwise the engine is unchanged; roomCount never exceeds capacity (main.cpp:129-135 with capacity 10) |
| Engine.VisitRoom | tempCodeRunnerFile.cpp:151-173 | A solved room is skipped without reading. An unsolved room takes one attempt and becomes solved iff the line read equals the expected answer, where a read past the end of the input yields "". A correct answer takes one read and shows no hint; a wrong answer takes two reads and shows and counts the room's hint iff the second line is exactly "y" or "Y" |
| Engine.PlayFrom | tempCodeRunnerFile.cpp:150-176 | The loop keeps the room count, never lowers a counter, never moves the read cursor back, and counts exactly the hints it shows |
| Engine.StartGame | tempCodeRunnerFile.cpp:147-179 | startGame finishes on every input, keeps the room count, never lowers the player's counters, and the hints counted equal the hints shown |
| Engine.PlayRoom | main.cpp:144-163 | The loop body written as the source's sequence of calls (startPuzzle, getline, updateAttempts, checkSolution, getline, provideHint, useHint) computes exactly VisitRoom |
| Engine.RunGame | main.cpp:140-166 | The index loop over rooms, with a read cursor, computes exactly StartGame |
| GameProperties.GamePrefix | main.cpp:140-141 | The pass leaves the rooms before the current index alone: each index is visited once, in order |
| GameProperties.GameRooms | main.cpp:140-163 | The pass keeps every room's name and puzzle variant and never touches a room solved before it is reached |
| GameProperties.GameCounts | tempCodeRunnerFile.cpp:150-176 | Attempts grow by the number of rooms unsolved when reached. Hints grow by at most the number left unsolved, and no room from the current index on goes from solved to unsolved. getline runs once per attempt plus once per room still unsolved afterwards (a wrong answer) |
| GameProperties.GameSummary | main.cpp:140-166 | hints <= attempts is preserved by startGame. Attempts grow by the number of rooms unsolved at the start. getline runs exactly (rooms unsolved before) + (rooms unsolved after) times. A room unsolved afterwards was unsolved before |
| GameProperties.ExhaustedInput | tempCodeRunnerFile.cpp:157-172 | Once the input is used up every read yields "", which matches no answer and is not "y": each room still unsolved gets exactly one attempt, no solved flag changes, and no hint is shown or counted |
| GameProperties.InitDoesNotMatter | main.cpp:67-79 | startPuzzle always runs before checkSolution, so rooms with the same names, variants and flags play the same game whatever their answer-initialisation state: same counters, hints shown, reads and final names, variants and flags |
| GameProperties.BothVariantsAgree | tempCodeRunnerFile.cpp:199-202 | The main.cpp and tempCodeRunnerFile.cpp puzzle variants give the same game on the same input: same counters, hints shown and reads, and the same rooms solved |
| GameProperties.AddRoomsBounded | main.cpp:129-135 | Repeated addRoom keeps the first rooms that fit, in order, and never exceeds capacity |
| GameProperties.SampleSession | main.cpp:181-184 | With the two rooms main builds and input "Echo", "16", "y", the game ends with 2 attempts and 1 hint, shows the hint "It doubles each time.", leaves the riddle room solved and the sequence room unsolved, and reads all three lines |
| GameProperties.ShortInputSession | main.cpp:181-184 | With the same rooms and input "Echo" alone, the riddle room is solved; the sequence room reads "" twice, takes an attempt, stays unsolved and shows no hint; the game ends with 2 attempts, 0 hints and three reads |

## Left out

- Console output is not modelled: banners, prompts, the puzzle texts, `enterRoom` and `trackProgress`. These lines only print. A hint is modelled as the hint text returned by `Rooms.ProvideHint`, and the game's outcome lists those texts in order.
- `getline` and the stream state are not modelled beyond this: input is a `seq<string>` of lines and a read cursor, and a read past the end yields "". The stream's fail flags and any characters other than whole lines are not modelled.
- Memory management is not modelled: `new`/`delete`, destructors, `unique_ptr` and `move`. The model uses values instead.
- Virtual dispatch becomes the `Kind` datatype.
- The player-name prompt in `main` and its `getline` are not modelled: the game's input starts after the name. The two `addRoom` calls in `main` appear only in `GameProperties.SampleSession` and `GameProperties.ShortInputSession`.
- `Players.UpdateAttempts`: the counters are unbounded `nat`s. The source uses 32-bit `int` and could in principle overflow. In one game attempts grow by at most the number of rooms (`GameProperties.GameCounts`), so this cannot happen there.
- `Engine.NewEngine`: `maxRooms` is a `nat`. A negative `maxRooms` makes `new Room*[maxRooms]` fail at run time, and that failure is not modelled.
- Accessors, constants and small predicates carry no row of their own; the rows of the members that use them state their effect: `Puzzles.Expected` (the answer literals "Echo" and "32", tempCodeRunnerFile.cpp:22, 43 and main.cpp:19, 38), `Puzzles.HintText` (the hint literals without the `Hint: ` prefix, tempCodeRunnerFile.cpp:31, 52), `Puzzles.StoredAnswer` (the value of the `correctAnswer` member, tempCodeRunnerFile.cpp:18, 22 and main.cpp:19), `Rooms.IsRoomSolved` (isRoomSolved, tempCodeRunnerFile.cpp:90-92), `Players.Succeeds` (no counter lower, same name), `Engine.MainCapacity` (the array size 10, main.cpp:123), `Engine.Valid` (roomCount <= maxRooms, tempCodeRunnerFile.cpp:140) and `Engine.WantsHint` (the "y"/"Y" test, tempCodeRunnerFile.cpp:169).
- Aliased rooms are not modelled: rooms are values, so the same `Room*` added twice (tempCodeRunnerFile.cpp:139-141) becomes two independent rooms, and solving one does not make the loop skip the other as the source would (line 152). `main` never adds a room twice.
- Proof helpers with no source counterpart carry no row: `Players.ApplyAll` (the update run that `Players.ApplyAllCounts` is about); `Unsolved`, `UnsolvedSplit`, `VisitCost`, `GameAttempts`, `GameHints`, `GameReads`, `ExhaustedVisit`, `ExhaustedCounts`, `ExhaustedFlags`, `SameShape`, `AddRooms`, `MainRooms` and `Rebuilt` in `GameProperties` (`Rebuilt` rebuilds rooms with fresh puzzles of one initialisation), and `LineAt`, `Shown` and `LoopStep` in `Engine`.
