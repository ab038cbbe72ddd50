/**
 Properties of a whole game: what startGame does to the rooms, the counters
 and the input, that both ways of initialising the stored answer play the same
 game, and that addRoom never lets the engine exceed its capacity.
 */
module GameProperties {
  import opened Puzzles
  import opened Rooms
  import opened Players
  import opened Engine

  /** How many rooms of `rooms` are still unsolved. */
  function Unsolved(rooms: seq<Room>): nat
  {
    if |rooms| == 0 then 0
    else (if rooms[0].solved then 0 else 1) + Unsolved(rooms[1..])
  }

  lemma UnsolvedSplit(rooms: seq<Room>, i: nat)
    requires i < |rooms|
    ensures Unsolved(rooms[i..]) == (if rooms[i].solved then 0 else 1) + Unsolved(rooms[i + 1..])
  {
    assert rooms[i..][1..] == rooms[i + 1..];
  }

  /** The loop leaves the rooms before `i` alone. */
  lemma {:induction false} GamePrefix(rooms: seq<Room>, i: nat, player: Player, input: seq<string>, pos: nat)
    requires i <= |rooms|
    decreases |rooms| - i
    ensures forall j :: 0 <= j < i ==> PlayFrom(rooms, i, player, input, pos).rooms[j] == rooms[j]
  {
    if i < |rooms| {
      var v := VisitRoom(rooms[i], player, input, pos);
      var next := rooms[i := v.room];
      GamePrefix(next, i + 1, v.player, input, v.cursor);
      assert PlayFrom(rooms, i, player, input, pos).rooms == PlayFrom(next, i + 1, v.player, input, v.cursor).rooms;
    }
  }

  /** The loop keeps every room's name and puzzle variant, and never touches a
      room that was already solved. */
  lemma {:induction false} GameRooms(rooms: seq<Room>, i: nat, player: Player, input: seq<string>, pos: nat)
    requires i <= |rooms|
    decreases |rooms| - i
    ensures var o := PlayFrom(rooms, i, player, input, pos);
            forall j :: 0 <= j < |rooms| ==>
              && o.rooms[j].name == rooms[j].name
              && o.rooms[j].puzzle.kind == rooms[j].puzzle.kind
              && (rooms[j].solved ==> o.rooms[j] == rooms[j])
  {
    if i < |rooms| {
      var v := VisitRoom(rooms[i], player, input, pos);
      var next := rooms[i := v.room];
      GameRooms(next, i + 1, v.player, input, v.cursor);
      assert PlayFrom(rooms, i, player, input, pos).rooms == PlayFrom(next, i + 1, v.player, input, v.cursor).rooms;
    }
  }

  /** The facts about one visit that the counting lemmas use: lines read,
      attempts and hints added, and that a solved room stays solved. */
  lemma VisitCost(room: Room, player: Player, input: seq<string>, pos: nat)
    ensures var v := VisitRoom(room, player, input, pos);
            && v.cursor == pos + (if room.solved then 0 else if v.room.solved then 1 else 2)
            && v.player.attempts == player.attempts + (if room.solved then 0 else 1)
            && v.player.hintsUsed <= player.hintsUsed + (if v.room.solved then 0 else 1)
            && (room.solved ==> v.room.solved)
  {
  }

  /** One attempt per room that is unsolved when reached. */
  lemma {:induction false} GameAttempts(rooms: seq<Room>, i: nat, player: Player, input: seq<string>, pos: nat)
    requires i <= |rooms|
    decreases |rooms| - i
    ensures PlayFrom(rooms, i, player, input, pos).player.attempts == player.attempts + Unsolved(rooms[i..])
  {
    if i < |rooms| {
      var v := VisitRoom(rooms[i], player, input, pos);
      var next := rooms[i := v.room];
      GameAttempts(next, i + 1, v.player, input, v.cursor);
      VisitCost(rooms[i], player, input, pos);
      UnsolvedSplit(rooms, i);
      assert next[i + 1..] == rooms[i + 1..];
      assert PlayFrom(rooms, i, player, input, pos).player == PlayFrom(next, i + 1, v.player, input, v.cursor).player;
    }
  }

  /** Hints only for rooms still unsolved afterwards (wrong answers), and no
      room that was solved becomes unsolved. */
  lemma {:induction false} GameHints(rooms: seq<Room>, i: nat, player: Player, input: seq<string>, pos: nat)
    requires i <= |rooms|
    decreases |rooms| - i
    ensures var o := PlayFrom(rooms, i, player, input, pos);
            && o.player.hintsUsed <= player.hintsUsed + Unsolved(o.rooms[i..])
            && Unsolved(o.rooms[i..]) <= Unsolved(rooms[i..])
  {
    if i < |rooms| {
      var v := VisitRoom(rooms[i], player, input, pos);
      var next := rooms[i := v.room];
      GameHints(next, i + 1, v.player, input, v.cursor);
      GamePrefix(next, i + 1, v.player, input, v.cursor);
      VisitCost(rooms[i], player, input, pos);
      var o := PlayFrom(next, i + 1, v.player, input, v.cursor);
      var whole := PlayFrom(rooms, i, player, input, pos);
      assert whole.rooms == o.rooms && whole.player == o.player;
      assert o.rooms[i] == v.room;
      UnsolvedSplit(rooms, i);
      UnsolvedSplit(o.rooms, i);
      assert next[i + 1..] == rooms[i + 1..];
    }
  }

  /** One getline per attempt plus one per wrong answer. */
  lemma {:induction false} GameReads(rooms: seq<Room>, i: nat, player: Player, input: seq<string>, pos: nat)
    requires i <= |rooms|
    decreases |rooms| - i
    ensures var o := PlayFrom(rooms, i, player, input, pos);
            o.cursor == pos + Unsolved(rooms[i..]) + Unsolved(o.rooms[i..])
  {
    if i < |rooms| {
      var v := VisitRoom(rooms[i], player, input, pos);
      var next := rooms[i := v.room];
      GameReads(next, i + 1, v.player, input, v.cursor);
      GamePrefix(next, i + 1, v.player, input, v.cursor);
      VisitCost(rooms[i], player, input, pos);
      var o := PlayFrom(next, i + 1, v.player, input, v.cursor);
      var whole := PlayFrom(rooms, i, player, input, pos);
      assert whole.rooms == o.rooms && whole.cursor == o.cursor;
      assert o.rooms[i] == v.room;
      UnsolvedSplit(rooms, i);
      UnsolvedSplit(o.rooms, i);
      assert next[i + 1..] == rooms[i + 1..];
    }
  }

  /** Counting over the loop from index `i`: one attempt per room that was
      unsolved when reached; hints only for rooms still unsolved afterwards
      (wrong answers), and no room from `i` on goes from solved to unsolved;
      and one getline per attempt plus one per wrong answer. */
  lemma GameCounts(rooms: seq<Room>, i: nat, player: Player, input: seq<string>, pos: nat)
    requires i <= |rooms|
    ensures var o := PlayFrom(rooms, i, player, input, pos);
            && o.player.attempts == player.attempts + Unsolved(rooms[i..])
            && o.player.hintsUsed <= player.hintsUsed + Unsolved(o.rooms[i..])
            && Unsolved(o.rooms[i..]) <= Unsolved(rooms[i..])
            && (forall j :: i <= j < |rooms| && !o.rooms[j].solved ==> !rooms[j].solved)
            && o.cursor == pos + Unsolved(rooms[i..]) + Unsolved(o.rooms[i..])
  {
    GameAttempts(rooms, i, player, input, pos);
    GameRooms(rooms, i, player, input, pos);
    GameHints(rooms, i, player, input, pos);
    GameReads(rooms, i, player, input, pos);
  }

  /** startGame as a whole: hints never exceed attempts when they did not
      before; attempts grow by exactly the number of rooms unsolved at the
      start; getline runs once per attempt plus once per wrong answer; and a
      room left unsolved was unsolved before. */
  lemma GameSummary(e: Engine, input: seq<string>)
    requires e.player.hintsUsed <= e.player.attempts
    ensures var o := StartGame(e, input);
            && o.player.hintsUsed <= o.player.attempts
            && o.player.attempts == e.player.attempts + Unsolved(e.rooms)
            && o.cursor == Unsolved(e.rooms) + Unsolved(o.rooms)
            && (forall j :: 0 <= j < |e.rooms| && !o.rooms[j].solved ==> !e.rooms[j].solved)
  {
    GameCounts(e.rooms, 0, e.player, input, 0);
    GameRooms(e.rooms, 0, e.player, input, 0);
    assert e.rooms[0..] == e.rooms;
    assert StartGame(e, input).rooms[0..] == StartGame(e, input).rooms;
  }

  /** Past the end of the input a visit reads "" twice: an unsolved room
      takes an attempt and stays unsolved, and no hint is shown. */
  lemma ExhaustedVisit(room: Room, player: Player, input: seq<string>, pos: nat)
    requires |input| <= pos
    ensures var v := VisitRoom(room, player, input, pos);
            && v.player == player.(attempts := player.attempts + (if room.solved then 0 else 1))
            && v.hint == None
            && v.room.solved == room.solved
  {
    if !room.solved {
      assert LineAt(input, pos) != Expected(room.puzzle.kind);
    }
  }

  /** Once the input is used up: counters and hints. */
  lemma {:induction false} ExhaustedCounts(rooms: seq<Room>, i: nat, player: Player, input: seq<string>, pos: nat)
    requires i <= |rooms| && |input| <= pos
    decreases |rooms| - i
    ensures var o := PlayFrom(rooms, i, player, input, pos);
            && o.player == player.(attempts := player.attempts + Unsolved(rooms[i..]))
            && o.hints == []
  {
    if i < |rooms| {
      var v := VisitRoom(rooms[i], player, input, pos);
      ExhaustedVisit(rooms[i], player, input, pos);
      var next := rooms[i := v.room];
      ExhaustedCounts(next, i + 1, v.player, input, v.cursor);
      var o := PlayFrom(next, i + 1, v.player, input, v.cursor);
      assert PlayFrom(rooms, i, player, input, pos) == o.(hints := Shown(v.hint) + o.hints);
      UnsolvedSplit(rooms, i);
      assert next[i + 1..] == rooms[i + 1..];
    }
  }

  /** Once the input is used up, no solved flag changes. */
  lemma {:induction false} ExhaustedFlags(rooms: seq<Room>, i: nat, player: Player, input: seq<string>, pos: nat)
    requires i <= |rooms| && |input| <= pos
    decreases |rooms| - i
    ensures var o := PlayFrom(rooms, i, player, input, pos);
            forall j :: 0 <= j < |rooms| ==> o.rooms[j].solved == rooms[j].solved
  {
    if i < |rooms| {
      var v := VisitRoom(rooms[i], player, input, pos);
      ExhaustedVisit(rooms[i], player, input, pos);
      var next := rooms[i := v.room];
      ExhaustedFlags(next, i + 1, v.player, input, v.cursor);
      assert PlayFrom(rooms, i, player, input, pos).rooms == PlayFrom(next, i + 1, v.player, input, v.cursor).rooms;
    }
  }

  /** Once the input is used up, every read yields the empty string, which
      matches no answer: each room still unsolved gets one attempt, no room
      becomes solved, and no hint is shown or counted. */
  lemma ExhaustedInput(rooms: seq<Room>, i: nat, player: Player, input: seq<string>, pos: nat)
    requires i <= |rooms| && |input| <= pos
    ensures var o := PlayFrom(rooms, i, player, input, pos);
            && o.player == player.(attempts := player.attempts + Unsolved(rooms[i..]))
            && o.hints == []
            && forall j :: 0 <= j < |rooms| ==> o.rooms[j].solved == rooms[j].solved
  {
    ExhaustedCounts(rooms, i, player, input, pos);
    ExhaustedFlags(rooms, i, player, input, pos);
  }

  /** Rooms that agree on name, puzzle variant and solved flag; they may
      differ in how and whether their puzzle's answer has been set. */
  predicate SameShape(a: seq<Room>, b: seq<Room>)
  {
    && |a| == |b|
    && forall j :: 0 <= j < |a| ==>
         && a[j].name == b[j].name
         && a[j].puzzle.kind == b[j].puzzle.kind
         && a[j].solved == b[j].solved
  }

  /** The game does not depend on when the stored answer is initialised:
      startPuzzle always runs before checkSolution, so rooms of the same
      shape play identically, whether built as in main.cpp or as in
      tempCodeRunnerFile.cpp. */
  lemma {:induction false} InitDoesNotMatter(a: seq<Room>, b: seq<Room>, i: nat, player: Player, input: seq<string>, pos: nat)
    requires SameShape(a, b) && i <= |a|
    decreases |a| - i
    ensures var oa := PlayFrom(a, i, player, input, pos);
            var ob := PlayFrom(b, i, player, input, pos);
            && oa.player == ob.player
            && oa.hints == ob.hints
            && oa.cursor == ob.cursor
            && SameShape(oa.rooms, ob.rooms)
  {
    if i < |a| {
      var va := VisitRoom(a[i], player, input, pos);
      var vb := VisitRoom(b[i], player, input, pos);
      assert va.player == vb.player;
      assert va.hint == vb.hint;
      assert va.cursor == vb.cursor;
      InitDoesNotMatter(a[i := va.room], b[i := vb.room], i + 1, va.player, input, va.cursor);
    }
  }

  /** Rebuilds every room's puzzle fresh with the given initialisation. */
  function Rebuilt(rooms: seq<Room>, init: AnswerInit): (r: seq<Room>)
    ensures SameShape(rooms, r)
    ensures forall j :: 0 <= j < |r| ==> r[j].puzzle == NewPuzzle(rooms[j].puzzle.kind, init)
  {
    seq(|rooms|, j requires 0 <= j < |rooms| => rooms[j].(puzzle := NewPuzzle(rooms[j].puzzle.kind, init)))
  }

  /** The main.cpp and tempCodeRunnerFile.cpp puzzles play the same game:
      same player counters, same hints shown, same lines read, and the same
      rooms solved. */
  lemma BothVariantsAgree(e: Engine, input: seq<string>)
    ensures var eager := StartGame(e.(rooms := Rebuilt(e.rooms, AtConstruction)), input);
            var lazy := StartGame(e.(rooms := Rebuilt(e.rooms, OnGenerate)), input);
            && eager.player == lazy.player
            && eager.hints == lazy.hints
            && eager.cursor == lazy.cursor
            && SameShape(eager.rooms, lazy.rooms)
  {
    InitDoesNotMatter(Rebuilt(e.rooms, AtConstruction), Rebuilt(e.rooms, OnGenerate), 0, e.player, input, 0);
  }

  /** addRoom applied to each room of `rs` in turn. */
  function AddRooms(e: Engine, rs: seq<Room>): Engine
    decreases |rs|
  {
    if |rs| == 0 then e else AddRooms(AddRoom(e, rs[0]).engine, rs[1..])
  }

  /** However many rooms are added, the engine keeps the first ones that fit,
      in order, and never holds more than its capacity. */
  lemma {:induction false} AddRoomsBounded(e: Engine, rs: seq<Room>)
    requires Valid(e)
    decreases |rs|
    ensures Valid(AddRooms(e, rs))
    ensures var n := if |e.rooms| + |rs| <= e.capacity then |e.rooms| + |rs| else e.capacity;
            AddRooms(e, rs).rooms == (e.rooms + rs)[..n]
    ensures AddRooms(e, rs).player == e.player && AddRooms(e, rs).capacity == e.capacity
  {
    if |rs| > 0 {
      var a := AddRoom(e, rs[0]);
      AddRoomsBounded(a.engine, rs[1..]);
      if a.accepted {
        assert a.engine.rooms + rs[1..] == e.rooms + rs;
      } else {
        assert |e.rooms| == e.capacity;
        assert (e.rooms + rs[1..])[..e.capacity] == e.rooms == (e.rooms + rs)[..e.capacity];
      }
    }
  }

  /** The two rooms main builds, in main's order. */
  function MainRooms(init: AnswerInit): seq<Room>
  {
    [NewRoom("Mystery Room", NewPuzzle(Riddle, init)),
     NewRoom("Logic Room", NewPuzzle(NumberSequence, init))]
  }

  /** A sample session, built as main builds it: the player answers the
      riddle correctly, answers the sequence wrongly with "16" and asks for a
      hint with "y"; all three lines are read. */
  lemma SampleSession(init: AnswerInit)
    ensures var e := AddRooms(NewEngine(NewPlayer("Alex"), MainCapacity), MainRooms(init));
            var o := StartGame(e, ["Echo", "16", "y"]);
            && o.player == Player("Alex", 2, 1)
            && o.hints == ["It doubles each time."]
            && o.cursor == 3
            && |o.rooms| == 2
            && o.rooms[0].solved && !o.rooms[1].solved
  {
    var rs := MainRooms(init);
    var e := AddRooms(NewEngine(NewPlayer("Alex"), MainCapacity), rs);
    AddRoomsBounded(NewEngine(NewPlayer("Alex"), MainCapacity), rs);
    assert e.rooms == rs;
    var input := ["Echo", "16", "y"];
    var v0 := VisitRoom(rs[0], e.player, input, 0);
    assert v0.room.solved && v0.player == Player("Alex", 1, 0) && v0.hint == None && v0.cursor == 1;
    var r1 := rs[0 := v0.room];
    assert "16" != "32" by { assert "16"[0] != "32"[0]; }
    var v1 := VisitRoom(r1[1], v0.player, input, 1);
    assert LineAt(input, 2) == "y";
    assert !v1.room.solved && v1.player == Player("Alex", 2, 1) && v1.cursor == 3;
    assert v1.hint == Some("It doubles each time.");
    var r2 := r1[1 := v1.room];
    assert PlayFrom(r2, 2, v1.player, input, 3) == Outcome(r2, Player("Alex", 2, 1), [], 3);
  }

  /** The same rooms when the input ends after "Echo": the second and third
      reads yield the empty string, so the sequence room still takes an
      attempt, stays unsolved, shows no hint, and the game finishes. */
  lemma ShortInputSession(init: AnswerInit)
    ensures var e := AddRooms(NewEngine(NewPlayer("Alex"), MainCapacity), MainRooms(init));
            var o := StartGame(e, ["Echo"]);
            && o.player == Player("Alex", 2, 0)
            && o.hints == []
            && o.cursor == 3
            && |o.rooms| == 2
            && o.rooms[0].solved && !o.rooms[1].solved
  {
    var rs := MainRooms(init);
    var e := AddRooms(NewEngine(NewPlayer("Alex"), MainCapacity), rs);
    AddRoomsBounded(NewEngine(NewPlayer("Alex"), MainCapacity), rs);
    assert e.rooms == rs;
    var input := ["Echo"];
    var v0 := VisitRoom(rs[0], e.player, input, 0);
    assert v0.room.solved && v0.player == Player("Alex", 1, 0) && v0.hint == None && v0.cursor == 1;
    var r1 := rs[0 := v0.room];
    ExhaustedInput(r1, 1, v0.player, input, 1);
    GameReads(r1, 1, v0.player, input, 1);
    UnsolvedSplit(r1, 1);
  }
}
