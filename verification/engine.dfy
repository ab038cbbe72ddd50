/**
 The game engine: a bounded, insertion-ordered list of rooms, the player, and
 the single pass of startGame over the rooms. Console reads are replaced by an
 explicit sequence of input lines and a cursor that counts getline calls; a
 read past the end of the input yields the empty string.
 */
module Engine {
  import opened Puzzles
  import opened Rooms
  import opened Players

  /** The capacity main.cpp hard-codes (`rooms[10]`). */
  const MainCapacity: nat := 10

  /** `capacity` is maxRooms in tempCodeRunnerFile.cpp and MainCapacity in
      main.cpp; roomCount is |rooms|. */
  datatype Engine = Engine(player: Player, rooms: seq<Room>, capacity: nat)

  predicate Valid(e: Engine)
  {
    |e.rooms| <= e.capacity
  }

  /** The result of addRoom: the engine afterwards, and whether the room was
      stored (false is the "Cannot add more rooms." path). */
  datatype Added = Added(engine: Engine, accepted: bool)

  /** One iteration of the startGame loop: the room and player afterwards,
      the hint shown (if any), and the read cursor afterwards. */
  datatype Visit = Visit(room: Room, player: Player, hint: Option<string>, cursor: nat)

  /** The whole game: rooms and player afterwards, the hints shown in order,
      and the read cursor afterwards. */
  datatype Outcome = Outcome(rooms: seq<Room>, player: Player, hints: seq<string>, cursor: nat)

  /** The line that the getline with cursor `k` reads into its freshly
      declared string: line `k` of the input, or "" once the input is used
      up (a failed read leaves the string empty). The cursor counts getline
      calls, so it may pass the end of the input. */
  function LineAt(input: seq<string>, k: nat): string
  {
    if k < |input| then input[k] else ""
  }

  /** A new engine holds no rooms. */
  function NewEngine(player: Player, maxRooms: nat): (e: Engine)
    ensures Valid(e) && e.rooms == []
    ensures e.player == player && e.capacity == maxRooms
  {
    Engine(player, [], maxRooms)
  }

  /** main.cpp's engine: capacity fixed at 10. */
  function NewMainEngine(player: Player): (e: Engine)
    ensures Valid(e) && e.rooms == [] && e.capacity == 10
    ensures e.player == player
  {
    NewEngine(player, MainCapacity)
  }

  /** addRoom: stores the room at index roomCount while there is space,
      otherwise drops it; the engine never exceeds its capacity. */
  function AddRoom(e: Engine, room: Room): (a: Added)
    ensures a.accepted <==> |e.rooms| < e.capacity
    ensures a.accepted ==>
              && |a.engine.rooms| == |e.rooms| + 1
              && a.engine.rooms[|e.rooms|] == room
              && a.engine.rooms[..|e.rooms|] == e.rooms
    ensures !a.accepted ==> a.engine == e
    ensures a.engine.player == e.player && a.engine.capacity == e.capacity
    ensures Valid(e) ==> Valid(a.engine)
  {
    if |e.rooms| < e.capacity then
      Added(e.(rooms := e.rooms + [room]), true)
    else
      Added(e, false)
  }

  /** The hint decision: exactly "y" or "Y"; anything else means no. */
  predicate WantsHint(line: string)
  {
    line == "y" || line == "Y"
  }

  /** The body of the startGame loop for one room, reading from cursor
      `pos`. A solved room is skipped without reading. Otherwise the puzzle
      is started, one answer line is read and counted as an attempt; a
      correct answer solves the room, a wrong one reads the hint decision,
      and "y" or "Y" shows the room's hint and counts it. */
  function VisitRoom(room: Room, player: Player, input: seq<string>, pos: nat): (v: Visit)
    ensures room.solved ==> v == Visit(room, player, None, pos)
    ensures !room.solved ==>
              && v.room.name == room.name
              && v.room.puzzle.kind == room.puzzle.kind
              && v.room.puzzle.init == room.puzzle.init
              && (v.room.solved <==> LineAt(input, pos) == Expected(room.puzzle.kind))
              && v.player.name == player.name
              && v.player.attempts == player.attempts + 1
              && (v.room.solved ==> v.cursor == pos + 1 && v.hint == None && v.player.hintsUsed == player.hintsUsed)
              && (!v.room.solved ==>
                    && v.cursor == pos + 2
                    && (v.hint.Some? <==> WantsHint(LineAt(input, pos + 1)))
                    && v.player.hintsUsed == player.hintsUsed + (if v.hint.Some? then 1 else 0))
    ensures v.hint.Some? ==> v.hint.value == HintText(room.puzzle.kind)
  {
    if IsRoomSolved(room) then
      Visit(room, player, None, pos)
    else
      var started := StartPuzzle(room);
      var answer := LineAt(input, pos);
      var counted := UpdateAttempts(player);
      var verdict := CheckSolution(started, answer);
      if verdict.correct then
        Visit(verdict.room, counted, None, pos + 1)
      else
        var decision := LineAt(input, pos + 1);
        if WantsHint(decision) then
          Visit(verdict.room, UseHint(counted), ProvideHint(verdict.room), pos + 2)
        else
          Visit(verdict.room, counted, None, pos + 2)
  }

  /** The hints a visit showed, as a list. */
  function Shown(hint: Option<string>): seq<string>
  {
    match hint
    case Some(text) => [text]
    case None => []
  }

  /** The startGame loop from room index `i` on, reading from cursor `pos`:
      each index is visited once, in order, and the visited room is written
      back in place. Every hint counted is a hint shown, and the cursor only
      moves forward. */
  function PlayFrom(rooms: seq<Room>, i: nat, player: Player, input: seq<string>, pos: nat): (o: Outcome)
    requires i <= |rooms|
    decreases |rooms| - i
    ensures |o.rooms| == |rooms|
    ensures Succeeds(player, o.player)
    ensures o.player.hintsUsed == player.hintsUsed + |o.hints|
    ensures pos <= o.cursor
  {
    if i == |rooms| then
      Outcome(rooms, player, [], pos)
    else
      var v := VisitRoom(rooms[i], player, input, pos);
      var o := PlayFrom(rooms[i := v.room], i + 1, v.player, input, v.cursor);
      o.(hints := Shown(v.hint) + o.hints)
  }

  /** startGame over the engine's rooms, reading the input from its start. */
  function StartGame(e: Engine, input: seq<string>): (o: Outcome)
    ensures |o.rooms| == |e.rooms|
    ensures Succeeds(e.player, o.player)
    ensures o.player.hintsUsed == e.player.hintsUsed + |o.hints|
  {
    PlayFrom(e.rooms, 0, e.player, input, 0)
  }

  /** The loop body as the source writes it, for an unsolved room: start the
      puzzle, read the answer, count the attempt, check it, and on a wrong
      answer read the hint decision. */
  method PlayRoom(room: Room, player: Player, input: seq<string>, pos: nat)
    returns (room': Room, player': Player, hint: Option<string>, pos': nat)
    requires !room.solved
    ensures VisitRoom(room, player, input, pos) == Visit(room', player', hint, pos')
  {
    var started := StartPuzzle(room);
    var playerAnswer := LineAt(input, pos);
    pos' := pos + 1;
    player' := UpdateAttempts(player);
    var verdict := CheckSolution(started, playerAnswer);
    room' := verdict.room;
    hint := None;
    if !verdict.correct {
      var needHint := LineAt(input, pos');
      pos' := pos' + 1;
      if WantsHint(needHint) {
        hint := ProvideHint(room');
        player' := UseHint(player');
      }
    }
  }

  /** One turn of the index loop keeps the loop's account of the game: what
      is still to play from `i`, with the hints already shown in front. */
  lemma LoopStep(rooms: seq<Room>, i: nat, player: Player, input: seq<string>, pos: nat,
                 shown: seq<string>, target: Outcome, v: Visit)
    requires i < |rooms|
    requires v == VisitRoom(rooms[i], player, input, pos)
    requires var rest := PlayFrom(rooms, i, player, input, pos);
             target == rest.(hints := shown + rest.hints)
    ensures var rest := PlayFrom(rooms[i := v.room], i + 1, v.player, input, v.cursor);
            target == rest.(hints := (shown + Shown(v.hint)) + rest.hints)
  {
    var later := PlayFrom(rooms[i := v.room], i + 1, v.player, input, v.cursor);
    assert PlayFrom(rooms, i, player, input, pos) == later.(hints := Shown(v.hint) + later.hints);
    assert shown + (Shown(v.hint) + later.hints) == (shown + Shown(v.hint)) + later.hints;
  }

  /** startGame as the source writes it: an index loop over the rooms that
      reads lines through a cursor into the input. */
  method RunGame(e: Engine, input: seq<string>) returns (o: Outcome)
    ensures o == StartGame(e, input)
  {
    var rooms := e.rooms;
    var player := e.player;
    var shown: seq<string> := [];
    var pos := 0;
    var i := 0;
    assert [] + StartGame(e, input).hints == StartGame(e, input).hints;
    while i < |rooms|
      invariant 0 <= i <= |rooms| == |e.rooms|
      invariant var rest := PlayFrom(rooms, i, player, input, pos);
                StartGame(e, input) == rest.(hints := shown + rest.hints)
      decreases |rooms| - i
    {
      if IsRoomSolved(rooms[i]) {
        LoopStep(rooms, i, player, input, pos, shown, StartGame(e, input), Visit(rooms[i], player, None, pos));
        assert rooms[i := rooms[i]] == rooms;
        assert shown + Shown(None) == shown;
        i := i + 1;
        continue;
      }
      var room, player', hint, pos' := PlayRoom(rooms[i], player, input, pos);
      LoopStep(rooms, i, player, input, pos, shown, StartGame(e, input), Visit(room, player', hint, pos'));
      rooms, player, pos := rooms[i := room], player', pos';
      shown := shown + Shown(hint);
      i := i + 1;
    }
    o := Outcome(rooms, player, shown, pos);
  }
}
