/**
  The main loop of the 2048 engine (2048_game.c, main): the two opening
  tiles, one iteration of the loop (loss check, key dispatch, then a new
  tile and a record line when the move was accepted), and the loop run
  in playback from a file of lines.

  random() is a parameter: `pick` and `roll` are its two draws in
  place_tile.  A playback run takes the draws of the spawns after the
  two opening tiles as `draws`; the four draws of the opening tiles are
  NewGame's own parameters, so random()'s stream is those four followed
  by `draws`.
*/
module Play {
  import opened Wrappers
  import opened Line
  import opened Grid
  import opened Spawn
  import opened Engine
  import opened Replay

  /** The letter keys 'a', 's', 'w' and 'd'. */
  const KeyA: int := 97
  const KeyS: int := 115
  const KeyW: int := 119
  const KeyD: int := 100

  /** The curses arrow-key codes (KEY_DOWN .. KEY_RIGHT of ncurses). */
  const KeyDown: int := 258
  const KeyUp: int := 259
  const KeyLeft: int := 260
  const KeyRight: int := 261

  /** The switch of the main loop: the letter keys a, s, w, d and the
      arrow keys select a move; every other key selects none. */
  function DirectionOf(key: int): Option<Direction>
  {
    if key == KeyA || key == KeyLeft then Some(Left)
    else if key == KeyS || key == KeyDown then Some(Down)
    else if key == KeyW || key == KeyUp then Some(Up)
    else if key == KeyD || key == KeyRight then Some(Right)
    else None
  }

  function LetterOf(d: Direction): int
  {
    match d
    case Left => KeyA
    case Down => KeyS
    case Up => KeyW
    case Right => KeyD
  }

  function ArrowOf(d: Direction): int
  {
    match d
    case Left => KeyLeft
    case Down => KeyDown
    case Up => KeyUp
    case Right => KeyRight
  }

  /** Exactly the letter and the arrow of a direction select it, and the
      quit key selects no move. */
  lemma KeysOfDirection(key: int, d: Direction)
    ensures DirectionOf(key) == Some(d) <==> key == LetterOf(d) || key == ArrowOf(d)
    ensures DirectionOf(KeyQuit) == None
  {
  }

  /** What one iteration of the main loop ends in. */
  datatype Outcome = GameLost | GameQuit | Continue(record: Option<seq<Byte>>)

  /** The fields of struct game, as a value. */
  datatype State = State(board: Board, turns: int, score: int)

  /** One iteration of the main loop on values: stop when the board is
      lost; otherwise dispatch the key; quit on 'q'; when the move raised
      the turn counter, place a tile and record the key and the score. */
  function Turn(s: State, key: int, pick: nat, roll: nat): (r: (Outcome, State))
    requires IsBoard(s.board)
    ensures IsBoard(r.1.board)
  {
    if Lost(s.board) then (GameLost, s)
    else
      match DirectionOf(key)
      case None => (if key == KeyQuit then GameQuit else Continue(None), s)
      case Some(d) =>
        var b := Moved(d, s.board);
        var moved := State(b, s.turns + (if b != s.board then 1 else 0), s.score + Gained(d, s.board));
        if moved.turns != s.turns then
          var placed := Spawned(b, pick, roll);
          (Continue(Some(RecordLine(key, moved.score))),
           moved.(board := if placed.Some? then placed.value else b))
        else
          (Continue(None), moved)
  }

  /** The key is read and names a move that changes the board. */
  predicate Accepted(b: Board, key: int)
    requires IsBoard(b)
  {
    !Lost(b) && DirectionOf(key).Some? && Moved(DirectionOf(key).value, b) != b
  }

  /** The loop stops exactly on a lost board (before reading a key) and
      on the quit key, and then nothing changes. */
  lemma TurnStops(s: State, key: int, pick: nat, roll: nat)
    requires IsBoard(s.board)
    ensures Turn(s, key, pick, roll).0 == GameLost <==> Lost(s.board)
    ensures Turn(s, key, pick, roll).0 == GameQuit <==> !Lost(s.board) && key == KeyQuit
    ensures !Turn(s, key, pick, roll).0.Continue? ==> Turn(s, key, pick, roll).1 == s
  {
    KeysOfDirection(key, Left);
  }

  /** A key that is no move, or a move that changes nothing, leaves the
      game as it was and records nothing. */
  lemma TurnIgnored(s: State, key: int, pick: nat, roll: nat)
    requires IsBoard(s.board) && !Accepted(s.board, key)
    ensures Turn(s, key, pick, roll).1 == s
    ensures Turn(s, key, pick, roll).0 != Continue(Some(RecordLine(key, s.score)))
    ensures Turn(s, key, pick, roll).0.Continue? ==> Turn(s, key, pick, roll).0.record.None?
  {
    if !Lost(s.board) && DirectionOf(key).Some? {
      UnchangedScoresNothing(DirectionOf(key).value, s.board);
    }
  }

  /** An accepted move raises the turn counter by one, earns what the
      move merged, places exactly one tile in a cell the move emptied --
      there always is one -- and records the key with the new score; the
      board's shown total grows by the new tile alone. */
  lemma TurnAccepted(s: State, key: int, pick: nat, roll: nat)
    requires IsBoard(s.board) && Accepted(s.board, key)
    ensures var d := DirectionOf(key).value;
            var b := Moved(d, s.board);
            var r := Turn(s, key, pick, roll);
            Spawned(b, pick, roll).Some?
            && r.1 == State(Spawned(b, pick, roll).value, s.turns + 1, s.score + Gained(d, s.board))
            && r.0 == Continue(Some(RecordLine(key, r.1.score)))
            && BoardSum(r.1.board) == BoardSum(s.board) + Pow2(NewTile(roll))
  {
    var d := DirectionOf(key).value;
    var b := Moved(d, s.board);
    TurnMoves(s, key, pick, roll);
    MovedOpensCell(d, s.board);
    CountPositive(Flatten(b), 0);
    SpawnPlacesOneTile(b, pick, roll);
    MovedKeepsSum(d, s.board);
  }

  /** The iteration for an accepted move, written out. */
  lemma TurnMoves(s: State, key: int, pick: nat, roll: nat)
    requires IsBoard(s.board) && Accepted(s.board, key)
    ensures var d := DirectionOf(key).value;
            var b := Moved(d, s.board);
            var score := s.score + Gained(d, s.board);
            var placed := Spawned(b, pick, roll);
            var r := Turn(s, key, pick, roll);
            r.0 == Continue(Some(RecordLine(key, score)))
            && r.1.board == (if placed.Some? then placed.value else b)
            && r.1.turns == s.turns + 1 && r.1.score == score
  {
  }

  /** What the loop around a turn relies on: one record line per raised
      turn, each for a move key, and a score that never drops. */
  lemma TurnRecords(s: State, key: int, pick: nat, roll: nat)
    requires IsBoard(s.board)
    ensures var r := Turn(s, key, pick, roll);
            (r.0 == GameLost ==> Lost(r.1.board))
            && (r.0.Continue? ==> r.1.turns == s.turns + (if r.0.record.Some? then 1 else 0))
            && (r.0.Continue? && r.0.record.Some? ==>
                  DirectionOf(key).Some? && r.0.record.value == RecordLine(key, r.1.score))
            && r.1.score >= s.score
  {
    if Accepted(s.board, key) {
      TurnAccepted(s, key, pick, roll);
    } else {
      TurnIgnored(s, key, pick, roll);
    }
  }

  /** `struct game game = {0}` followed by the two opening place_tile
      calls. */
  method NewGame(pick1: nat, roll1: nat, pick2: nat, roll2: nat) returns (game: Game)
    ensures fresh(game) && fresh(game.board) && game.Valid()
    ensures game.turns == 0 && game.score == 0
    ensures exists b :: IsBoard(b) && EmptyBoard(b)
                        && Spawned(b, pick1, roll1).Some?
                        && Spawned(Spawned(b, pick1, roll1).value, pick2, roll2).Some?
                        && game.Cells() == Spawned(Spawned(b, pick1, roll1).value, pick2, roll2).value
    ensures Count(Flatten(game.Cells()), 0) == N * N - 2
  {
    game := new Game();
    ghost var b := game.Cells();
    EmptyBoardZeros(b);
    SpawnPlacesOneTile(b, pick1, roll1);
    var first := game.PlaceTile(pick1, roll1);
    ghost var b1 := game.Cells();
    CountPositive(Flatten(b1), 0);
    SpawnPlacesOneTile(b1, pick2, roll2);
    var second := game.PlaceTile(pick2, roll2);
  }

  /** Every cell of an empty board is empty. */
  lemma EmptyBoardZeros(b: Board)
    requires IsBoard(b) && EmptyBoard(b)
    ensures Count(Flatten(b), 0) == N * N
  {
    CountAllZero(Flatten(b));
  }

  lemma {:induction false} CountAllZero(s: seq<nat>)
    requires forall i :: 0 <= i < |s| ==> s[i] == 0
    ensures Count(s, 0) == |s|
  {
    if s != [] {
      CountAllZero(s[1..]);
    }
  }

  /** The move cases of the main loop's switch. */
  method Dispatch(game: Game, d: Direction)
    requires game.Valid()
    modifies game, game.board
    ensures game.Cells() == Moved(d, old(game.Cells()))
    ensures game.score == old(game.score) + Gained(d, old(game.Cells()))
    ensures game.turns == old(game.turns) + (if game.Cells() != old(game.Cells()) then 1 else 0)
  {
    match d {
      case Left => game.MoveLeft();
      case Down => game.MoveDown();
      case Up => game.MoveUp();
      case Right => game.MoveRight();
    }
  }

  /** One iteration of the main loop, after the board is drawn: stop when
      lose_game says so; remember the turn counter; read a key and
      dispatch it; quit on 'q'; when the move changed the turn counter,
      place a tile and write the record line. */
  method Step(game: Game, key: int, pick: nat, roll: nat) returns (outcome: Outcome)
    requires game.Valid()
    modifies game, game.board
    ensures var r := Turn(State(old(game.Cells()), old(game.turns), old(game.score)), key, pick, roll);
            outcome == r.0 && game.Cells() == r.1.board
            && game.turns == r.1.turns && game.score == r.1.score
  {
    ghost var s := State(game.Cells(), game.turns, game.score);
    TurnStops(s, key, pick, roll);
    var lost := LoseGame(game);
    if lost {
      return GameLost;
    }
    var lastTurn := game.turns;
    var dir := DirectionOf(key);
    if dir.Some? {
      Dispatch(game, dir.value);
    } else if key == KeyQuit {
      return GameQuit;
    }
    if lastTurn != game.turns {
      TurnMoves(s, key, pick, roll);
      var placed := game.PlaceTile(pick, roll);
      return Continue(Some(RecordLine(key, game.score)));
    }
    TurnIgnored(s, key, pick, roll);
    return Continue(None);
  }

  /** The line get_input reads on iteration i of a playback: None past
      the last line, which get_input reports as 'q'. */
  function LineAt(lines: seq<seq<Byte>>, i: nat): Option<seq<Byte>>
  {
    if i < |lines| then Some(lines[i]) else None
  }

  /** Where a run of the main loop ends: its outcome, the game, the
      record lines written and the line it stopped on (|lines| meaning
      the end of the file). */
  datatype Run = Run(outcome: Outcome, state: State, log: seq<seq<Byte>>, stop: nat)

  /** The record line an iteration wrote, if any. */
  function Written(o: Outcome): (w: seq<seq<Byte>>)
    ensures |w| <= 1
  {
    if o.Continue? && o.record.Some? then [o.record.value] else []
  }

  /** The main loop in playback mode on values, from line i on, with
      `spawns` tiles already placed: get_input reads line i ('q' past the
      last line) and the iteration runs on its key.

      The loop is one C statement, but its fold is split over four
      mutually recursive functions: PlayFrom reads the key, PlayKey picks
      the draws, PlayTurn runs Turn and PlayOn decides whether the loop
      goes on.  PlayKey and PlayTurn match no code of their own.  Each
      layer unfolds one step at a time, so a proof about the run sees
      Turn only where it asks for it. */
  function PlayFrom(s: State, lines: seq<seq<Byte>>, i: nat, draws: nat -> nat, spawns: nat): (r: Run)
    requires IsBoard(s.board) && i <= |lines|
    ensures IsBoard(r.state.board)
    decreases |lines| - i, 3
  {
    PlayKey(s, KeyOfLine(LineAt(lines, i)), lines, i, draws, spawns)
  }

  /** The iteration on key: the spawn it may make uses the draws
      2 * spawns and 2 * spawns + 1. */
  function PlayKey(s: State, key: int, lines: seq<seq<Byte>>, i: nat, draws: nat -> nat, spawns: nat): (r: Run)
    requires IsBoard(s.board) && i <= |lines|
    ensures IsBoard(r.state.board)
    decreases |lines| - i, 2
  {
    PlayTurn(s, key, draws(2 * spawns), draws(2 * spawns + 1), lines, i, draws, spawns)
  }

  /** The iteration on key with the draws pick and roll, and what follows
      it. */
  function PlayTurn(s: State, key: int, pick: nat, roll: nat, lines: seq<seq<Byte>>, i: nat, draws: nat -> nat, spawns: nat): (r: Run)
    requires IsBoard(s.board) && i <= |lines|
    ensures IsBoard(r.state.board)
    decreases |lines| - i, 1
  {
    PlayOn(Turn(s, key, pick, roll), lines, i, draws, spawns)
  }

  /** What follows an iteration on line i that ended in t: the run stops
      when the game is lost or quit, and otherwise keeps the record line
      the iteration wrote and goes on with the next line. */
  function PlayOn(t: (Outcome, State), lines: seq<seq<Byte>>, i: nat, draws: nat -> nat, spawns: nat): (r: Run)
    requires IsBoard(t.1.board) && i <= |lines|
    ensures IsBoard(r.state.board)
    decreases |lines| - i, 0
  {
    if t.0.Continue? && i < |lines| then
      var rest := PlayFrom(t.1, lines, i + 1, draws, spawns + |Written(t.0)|);
      rest.(log := Written(t.0) + rest.log)
    else
      Run(t.0, t.1, [], i)
  }

  /** The iteration on line i, as values: its outcome o and game next are
      Turn's on the key of line i and the draws for spawn number
      `spawns`, and the run from line i is what follows them.  An
      iteration that goes on has read a line: the end of the file reads
      as 'q'. */
  lemma PlayFromNext(s: State, lines: seq<seq<Byte>>, i: nat, draws: nat -> nat, spawns: nat)
    returns (o: Outcome, next: State)
    requires IsBoard(s.board) && i <= |lines|
    ensures (o, next) == Turn(s, KeyOfLine(LineAt(lines, i)), draws(2 * spawns), draws(2 * spawns + 1))
    ensures IsBoard(next.board) && (o.Continue? ==> i < |lines|)
    ensures PlayFrom(s, lines, i, draws, spawns) == PlayOn((o, next), lines, i, draws, spawns)
  {
    var key := KeyOfLine(LineAt(lines, i));
    var pick, roll := draws(2 * spawns), draws(2 * spawns + 1);
    o, next := Turn(s, key, pick, roll).0, Turn(s, key, pick, roll).1;
    assert PlayFrom(s, lines, i, draws, spawns) == PlayTurn(s, key, pick, roll, lines, i, draws, spawns);
    TurnStops(s, key, pick, roll);
  }

  /** What follows an iteration: the rest of the run after a turn that
      goes on, with its record line in front; the end of the run at once
      otherwise. */
  lemma PlayOnCases(o: Outcome, next: State, lines: seq<seq<Byte>>, i: nat, draws: nat -> nat, spawns: nat)
    requires IsBoard(next.board) && i <= |lines|
    ensures o.Continue? && i < |lines| ==>
              var rest := PlayFrom(next, lines, i + 1, draws, spawns + |Written(o)|);
              PlayOn((o, next), lines, i, draws, spawns) == rest.(log := Written(o) + rest.log)
    ensures !(o.Continue? && i < |lines|) ==> PlayOn((o, next), lines, i, draws, spawns) == Run(o, next, [], i)
  {
  }

  /** PlayFromNext with Turn left out: the run from line i is the rest of
      the run after an iteration that goes on, with its record line in
      front, and ends at line i on the same game otherwise. */
  lemma PlayFromCases(s: State, lines: seq<seq<Byte>>, i: nat, draws: nat -> nat, spawns: nat)
    returns (o: Outcome, next: State)
    requires IsBoard(s.board) && i <= |lines|
    ensures IsBoard(next.board)
    ensures o.Continue? ==> i < |lines|
                            && var rest := PlayFrom(next, lines, i + 1, draws, spawns + |Written(o)|);
                               PlayFrom(s, lines, i, draws, spawns) == rest.(log := Written(o) + rest.log)
    ensures !o.Continue? ==> PlayFrom(s, lines, i, draws, spawns) == Run(o, s, [], i)
  {
    o, next := PlayFromNext(s, lines, i, draws, spawns);
    PlayOnCases(o, next, lines, i, draws, spawns);
    TurnStops(s, KeyOfLine(LineAt(lines, i)), draws(2 * spawns), draws(2 * spawns + 1));
  }

  /** PlayFromNext without Turn: a turn that stops leaves the game as it
      was and ends the run as the loop does; one that goes on raises the
      turn counter by the lines it writes, each for a move key read from
      the line and the new score, and never lowers the score. */
  lemma PlayFromStep(s: State, lines: seq<seq<Byte>>, i: nat, draws: nat -> nat, spawns: nat)
    returns (o: Outcome, next: State)
    requires IsBoard(s.board) && i <= |lines|
    ensures IsBoard(next.board)
    ensures o.Continue? ==> i < |lines|
                            && var rest := PlayFrom(next, lines, i + 1, draws, spawns + |Written(o)|);
                               PlayFrom(s, lines, i, draws, spawns) == rest.(log := Written(o) + rest.log)
    ensures !o.Continue? ==> PlayFrom(s, lines, i, draws, spawns) == Run(o, s, [], i)
    ensures var key := KeyOfLine(LineAt(lines, i));
            o.Continue? ==> next.turns == s.turns + |Written(o)|
                            && (o.record.Some? ==> DirectionOf(key).Some? && -128 <= key < 128
                                                   && o.record.value == RecordLine(key, next.score))
                            && (o.record.None? ==> next.score == s.score)
                            && next.score >= s.score
  {
    var key := KeyOfLine(LineAt(lines, i));
    var pick, roll := draws(2 * spawns), draws(2 * spawns + 1);
    o, next := PlayFromNext(s, lines, i, draws, spawns);
    PlayOnCases(o, next, lines, i, draws, spawns);
    TurnStops(s, key, pick, roll);
    TurnRecords(s, key, pick, roll);
    TurnScore(s, key, pick, roll);
  }

  /** The iteration on line i when it ends the run: the game stays as it
      was and the run ends as the loop does. */
  lemma PlayFromHalts(s: State, lines: seq<seq<Byte>>, i: nat, draws: nat -> nat, spawns: nat)
    returns (o: Outcome, next: State)
    requires IsBoard(s.board) && i <= |lines|
    ensures IsBoard(next.board)
    ensures o.Continue? ==> i < |lines|
                            && var rest := PlayFrom(next, lines, i + 1, draws, spawns + |Written(o)|);
                               PlayFrom(s, lines, i, draws, spawns) == rest.(log := Written(o) + rest.log)
    ensures !o.Continue? ==> PlayFrom(s, lines, i, draws, spawns) == Run(o, s, [], i) && Ends(lines, i, Run(o, s, [], i))
  {
    o, next := PlayFromNext(s, lines, i, draws, spawns);
    PlayOnCases(o, next, lines, i, draws, spawns);
    TurnStops(s, KeyOfLine(LineAt(lines, i)), draws(2 * spawns), draws(2 * spawns + 1));
  }

  /** A playback run from line i stops on a line from i to the end of
      the file. */
  lemma {:induction false} PlayFromBounds(s: State, lines: seq<seq<Byte>>, i: nat, draws: nat -> nat, spawns: nat)
    requires IsBoard(s.board) && i <= |lines|
    ensures i <= PlayFrom(s, lines, i, draws, spawns).stop <= |lines|
    decreases |lines| - i
  {
    var o, next := PlayFromCases(s, lines, i, draws, spawns);
    if o.Continue? {
      PlayFromBounds(next, lines, i + 1, draws, spawns + |Written(o)|);
    }
  }

  /** A playback run restarted from its own end -- its final game, its
      stop line and the spawns it made -- stops there at once, the same
      way. */
  lemma {:induction false} PlayFromSettles(s: State, lines: seq<seq<Byte>>, i: nat, draws: nat -> nat, spawns: nat)
    requires IsBoard(s.board) && i <= |lines|
    ensures var r := PlayFrom(s, lines, i, draws, spawns);
            r.stop <= |lines| ==> PlayFrom(r.state, lines, r.stop, draws, spawns + |r.log|) == r.(log := [])
    decreases |lines| - i
  {
    var o, next := PlayFromCases(s, lines, i, draws, spawns);
    if o.Continue? {
      PlayFromSettles(next, lines, i + 1, draws, spawns + |Written(o)|);
    }
  }

  /** A run that stops on the line it starts from leaves the game as it
      was and ends as the loop does. */
  lemma PlayFromStops(s: State, lines: seq<seq<Byte>>, i: nat, draws: nat -> nat, spawns: nat)
    requires IsBoard(s.board) && i <= |lines|
    ensures var r := PlayFrom(s, lines, i, draws, spawns);
            r.stop == i ==> r.state == s && Ends(lines, i, r)
  {
    var o, next := PlayFromHalts(s, lines, i, draws, spawns);
    if o.Continue? {
      PlayFromBounds(next, lines, i + 1, draws, spawns + |Written(o)|);
    }
  }

  /** How a playback run from line i ends: lost exactly on a lost board,
      otherwise quit at a line whose key is 'q' (the end of the file
      included), never before line i. */
  predicate Ends(lines: seq<seq<Byte>>, i: nat, r: Run)
    requires IsBoard(r.state.board)
  {
    i <= r.stop <= |lines|
    && (r.outcome == GameLost || r.outcome == GameQuit)
    && (r.outcome == GameLost ==> Lost(r.state.board))
    && (r.outcome == GameQuit ==> !Lost(r.state.board) && KeyOfLine(LineAt(lines, r.stop)) == KeyQuit)
  }

  lemma PlayFromEnds(s: State, lines: seq<seq<Byte>>, i: nat, draws: nat -> nat, spawns: nat)
    requires IsBoard(s.board) && i <= |lines|
    ensures Ends(lines, i, PlayFrom(s, lines, i, draws, spawns))
  {
    var r := PlayFrom(s, lines, i, draws, spawns);
    PlayFromBounds(s, lines, i, draws, spawns);
    PlayFromSettles(s, lines, i, draws, spawns);
    PlayFromStops(r.state, lines, r.stop, draws, spawns + |r.log|);
  }

  /** What a playback run from s writes: one record line per turn it
      gains, each of which plays back as a move, and a score that never
      drops. */
  predicate Logged(s: State, r: Run)
  {
    |r.log| == r.state.turns - s.turns
    && r.state.score >= s.score
    && forall j :: 0 <= j < |r.log| ==> ReplaysAsMove(r.log[j])
  }

  lemma {:induction false} PlayFromLogged(s: State, lines: seq<seq<Byte>>, i: nat, draws: nat -> nat, spawns: nat)
    requires IsBoard(s.board) && i <= |lines|
    ensures Logged(s, PlayFrom(s, lines, i, draws, spawns))
    decreases |lines| - i
  {
    var o, next := LoggedStep(s, lines, i, draws, spawns);
    if o.Continue? {
      PlayFromLogged(next, lines, i + 1, draws, spawns + |Written(o)|);
    }
  }

  /** One iteration keeps Logged: it holds of the run from line i if the
      iteration ends the run, or if it holds of the rest of the run. */
  lemma LoggedStep(s: State, lines: seq<seq<Byte>>, i: nat, draws: nat -> nat, spawns: nat)
    returns (o: Outcome, next: State)
    requires IsBoard(s.board) && i <= |lines|
    ensures o.Continue? ==> i < |lines| && IsBoard(next.board)
    ensures o.Continue? && i < |lines| && IsBoard(next.board) ==>
              Logged(next, PlayFrom(next, lines, i + 1, draws, spawns + |Written(o)|))
              ==> Logged(s, PlayFrom(s, lines, i, draws, spawns))
    ensures !o.Continue? ==> Logged(s, PlayFrom(s, lines, i, draws, spawns))
  {
    o, next := PlayFromStep(s, lines, i, draws, spawns);
    if o.Continue? {
      var rest := PlayFrom(next, lines, i + 1, draws, spawns + |Written(o)|);
      LoggedPrepend(s, next, o, rest, KeyOfLine(LineAt(lines, i)), PlayFrom(s, lines, i, draws, spawns));
    }
  }

  /** An iteration that goes on and writes a record line for a move key
      read from a play file, in front of a rest of the run that keeps
      Logged, gives a run that keeps Logged. */
  lemma LoggedPrepend(s: State, next: State, o: Outcome, rest: Run, key: int, r: Run)
    requires o.Continue? && next.turns == s.turns + |Written(o)| && next.score >= s.score
    requires o.record.Some? ==> DirectionOf(key).Some? && -128 <= key < 128
                                && o.record.value == RecordLine(key, next.score)
    ensures r == rest.(log := Written(o) + rest.log) && Logged(next, rest) ==> Logged(s, r)
  {
    var log := Written(o) + rest.log;
    if r == rest.(log := log) && Logged(next, rest) {
      if o.record.Some? {
        RecordedKeyReplays(key, next.score);
      }
      forall j | 0 <= j < |log| ensures ReplaysAsMove(log[j]) {
        if j >= |Written(o)| {
          assert log[j] == rest.log[j - |Written(o)|];
        }
      }
    }
  }

  /** The score on the last record line of a run is the score it ends
      with, and a run that records nothing ends with the score it began
      with. */
  predicate LastScore(s: State, r: Run)
  {
    (r.log == [] ==> r.state.score == s.score)
    && (r.log != [] ==> ParseRecord(r.log[|r.log| - 1]).Some?
                        && ParseRecord(r.log[|r.log| - 1]).value.1 == r.state.score)
  }

  lemma {:induction false} PlayFromLastScore(s: State, lines: seq<seq<Byte>>, i: nat, draws: nat -> nat, spawns: nat)
    requires IsBoard(s.board) && i <= |lines|
    ensures LastScore(s, PlayFrom(s, lines, i, draws, spawns))
    decreases |lines| - i
  {
    var o, next := LastScoreStep(s, lines, i, draws, spawns);
    if o.Continue? {
      PlayFromLastScore(next, lines, i + 1, draws, spawns + |Written(o)|);
    }
  }

  /** One iteration keeps LastScore: it holds of the run from line i if
      the iteration ends the run, or if it holds of the rest of the run. */
  lemma LastScoreStep(s: State, lines: seq<seq<Byte>>, i: nat, draws: nat -> nat, spawns: nat)
    returns (o: Outcome, next: State)
    requires IsBoard(s.board) && i <= |lines|
    ensures o.Continue? ==> i < |lines| && IsBoard(next.board)
    ensures o.Continue? && i < |lines| && IsBoard(next.board) ==>
              LastScore(next, PlayFrom(next, lines, i + 1, draws, spawns + |Written(o)|))
              ==> LastScore(s, PlayFrom(s, lines, i, draws, spawns))
    ensures !o.Continue? ==> LastScore(s, PlayFrom(s, lines, i, draws, spawns))
  {
    o, next := PlayFromStep(s, lines, i, draws, spawns);
    if o.Continue? {
      var rest := PlayFrom(next, lines, i + 1, draws, spawns + |Written(o)|);
      LastScorePrepend(s, next, o, rest, KeyOfLine(LineAt(lines, i)), PlayFrom(s, lines, i, draws, spawns));
    }
  }

  /** A record line of the score a turn ends with, put in front of a run
      whose last line has its final score, keeps that last line; a turn
      that writes nothing keeps the score. */
  lemma LastScorePrepend(s: State, next: State, o: Outcome, rest: Run, key: int, r: Run)
    requires o.Continue?
    requires o.record.Some? ==> o.record.value == RecordLine(key, next.score)
    requires o.record.None? ==> next.score == s.score
    ensures r == rest.(log := Written(o) + rest.log) && LastScore(next, rest) ==> LastScore(s, r)
  {
    var log := Written(o) + rest.log;
    if r == rest.(log := log) && LastScore(next, rest) {
      if o.record.Some? && rest.log == [] {
        RecordRoundTrip(key, next.score);
        assert log[|log| - 1] == o.record.value;
      } else if rest.log != [] {
        assert log[|log| - 1] == rest.log[|rest.log| - 1];
      }
    }
  }

  /** A turn that writes a record line writes the score it ends with; a
      turn that writes none keeps the score. */
  lemma TurnScore(s: State, key: int, pick: nat, roll: nat)
    requires IsBoard(s.board)
    ensures var r := Turn(s, key, pick, roll);
            r.0.Continue? && r.0.record.Some? ==> r.0.record.value == RecordLine(key, r.1.score)
    ensures var r := Turn(s, key, pick, roll);
            !(r.0.Continue? && r.0.record.Some?) ==> r.1.score == s.score
  {
    if Accepted(s.board, key) {
      TurnMoves(s, key, pick, roll);
    } else {
      TurnIgnored(s, key, pick, roll);
    }
  }

  /** One iteration of the main loop in playback mode: get_input reads
      line i ('q' past the last line) and the iteration runs on its key,
      with the draws 2 * spawns and 2 * spawns + 1 for a spawn.  The run
      from the game before is what follows the outcome and the game
      after. */
  method PlayLine(game: Game, lines: seq<seq<Byte>>, i: nat, draws: nat -> nat, spawns: nat)
    returns (outcome: Outcome)
    requires game.Valid() && i <= |lines|
    modifies game, game.board
    ensures outcome.Continue? ==> i < |lines|
    ensures PlayFrom(State(old(game.Cells()), old(game.turns), old(game.score)), lines, i, draws, spawns)
            == PlayOn((outcome, State(game.Cells(), game.turns, game.score)), lines, i, draws, spawns)
  {
    var key := KeyOfLine(LineAt(lines, i));
    ghost var s := State(game.Cells(), game.turns, game.score);
    ghost var o, next := PlayFromNext(s, lines, i, draws, spawns);
    outcome := Step(game, key, draws(2 * spawns), draws(2 * spawns + 1));
    assert outcome == o && State(game.Cells(), game.turns, game.score) == next;
  }

  /** Playback's loop invariant after one more iteration: when the whole
      run is the log so far followed by what follows the iteration on line
      i, it is the longer log followed by the run from line i + 1, or the
      log so far if the iteration ended the run. */
  lemma PlaybackGoesOn(whole: Run, log: seq<seq<Byte>>, o: Outcome, next: State, lines: seq<seq<Byte>>, i: nat, draws: nat -> nat)
    requires IsBoard(next.board) && i <= |lines|
    ensures var r := PlayOn((o, next), lines, i, draws, |log|);
            whole == r.(log := log + r.log) ==>
              (o.Continue? && i < |lines| ==>
                 var rest := PlayFrom(next, lines, i + 1, draws, |log + Written(o)|);
                 whole == rest.(log := (log + Written(o)) + rest.log))
              && (!(o.Continue? && i < |lines|) ==> whole == Run(o, next, log, i))
  {
    PlayOnCases(o, next, lines, i, draws, |log|);
    if o.Continue? && i < |lines| {
      var rest := PlayFrom(next, lines, i + 1, draws, |log| + |Written(o)|);
      assert log + (Written(o) + rest.log) == (log + Written(o)) + rest.log;
    }
  }

  /** The main loop in playback mode: one line per iteration until the
      game is lost or the key is 'q' (end of file included).  Spawn j of
      the run uses the draws 2j and 2j + 1.  It returns the lines record
      writes; the outcome, the game and those lines are PlayFrom's. */
  method Playback(game: Game, lines: seq<seq<Byte>>, draws: nat -> nat)
    returns (outcome: Outcome, log: seq<seq<Byte>>)
    requires game.Valid()
    modifies game, game.board
    ensures var r := PlayFrom(State(old(game.Cells()), old(game.turns), old(game.score)), lines, 0, draws, 0);
            outcome == r.outcome && log == r.log && State(game.Cells(), game.turns, game.score) == r.state
  {
    ghost var whole := PlayFrom(State(game.Cells(), game.turns, game.score), lines, 0, draws, 0);
    var i := 0;
    log := [];
    outcome := Continue(None);
    assert whole == whole.(log := [] + whole.log);
    while outcome.Continue?
      invariant i <= |lines|
      invariant outcome.Continue? ==>
                  var r := PlayFrom(State(game.Cells(), game.turns, game.score), lines, i, draws, |log|);
                  whole == r.(log := log + r.log)
      invariant !outcome.Continue? ==> whole == Run(outcome, State(game.Cells(), game.turns, game.score), log, i)
      decreases if outcome.Continue? then |lines| + 1 - i else 0
    {
      outcome := PlayLine(game, lines, i, draws, |log|);
      PlaybackGoesOn(whole, log, outcome, State(game.Cells(), game.turns, game.score), lines, i, draws);
      if outcome.Continue? {
        log := log + Written(outcome);
        i := i + 1;
      }
    }
  }

  /** A line that play back reads as a move. */
  predicate ReplaysAsMove(line: seq<Byte>)
  {
    DirectionOf(KeyOfLine(Some(line))).Some?
  }

  /** A move recorded from a letter key replays as the same move. */
  lemma LettersReplay(d: Direction, score: int)
    ensures DirectionOf(KeyOfLine(Some(RecordLine(LetterOf(d), score)))) == Some(d)
  {
    RecordedKeyReplays(LetterOf(d), score);
  }

  /** A move recorded from an arrow key does not replay: record keeps
      only the low byte of KEY_LEFT .. KEY_RIGHT, which selects no move
      when read back. */
  lemma ArrowsDoNotReplay(d: Direction, score: int)
    ensures DirectionOf(ArrowOf(d)) == Some(d)
    ensures DirectionOf(KeyOfLine(Some(RecordLine(ArrowOf(d), score)))) == None
  {
    KeyIsFirstNonBlank(RecordLine(ArrowOf(d), score), 0);
  }

  // ---------------------------------------------------------------------
  // Recording a game and playing it back

  /** The key getch returns to iteration i: key i of what the player
      types, and 'q' once the player stops typing. */
  function KeyAt(keys: seq<int>, i: nat): int
  {
    if i < |keys| then keys[i] else KeyQuit
  }

  /** The main loop on keys typed at the keyboard, from key i on, with
      `spawns` tiles already placed: the same iterations as in playback
      mode, on keys instead of lines.  As for PlayFrom, KeyDraws and
      KeyTurn only split the step so that it unfolds a layer at a time. */
  function KeyFrom(s: State, keys: seq<int>, i: nat, draws: nat -> nat, spawns: nat): (r: Run)
    requires IsBoard(s.board) && i <= |keys|
    ensures IsBoard(r.state.board)
    decreases |keys| - i, 3
  {
    KeyDraws(s, KeyAt(keys, i), keys, i, draws, spawns)
  }

  function KeyDraws(s: State, key: int, keys: seq<int>, i: nat, draws: nat -> nat, spawns: nat): (r: Run)
    requires IsBoard(s.board) && i <= |keys|
    ensures IsBoard(r.state.board)
    decreases |keys| - i, 2
  {
    KeyTurn(s, key, draws(2 * spawns), draws(2 * spawns + 1), keys, i, draws, spawns)
  }

  function KeyTurn(s: State, key: int, pick: nat, roll: nat, keys: seq<int>, i: nat, draws: nat -> nat, spawns: nat): (r: Run)
    requires IsBoard(s.board) && i <= |keys|
    ensures IsBoard(r.state.board)
    decreases |keys| - i, 1
  {
    KeyOn(Turn(s, key, pick, roll), keys, i, draws, spawns)
  }

  /** What follows an iteration on key i that ended in t, as PlayOn. */
  function KeyOn(t: (Outcome, State), keys: seq<int>, i: nat, draws: nat -> nat, spawns: nat): (r: Run)
    requires IsBoard(t.1.board) && i <= |keys|
    ensures IsBoard(r.state.board)
    decreases |keys| - i, 0
  {
    if t.0.Continue? && i < |keys| then
      var rest := KeyFrom(t.1, keys, i + 1, draws, spawns + |Written(t.0)|);
      rest.(log := Written(t.0) + rest.log)
    else
      Run(t.0, t.1, [], i)
  }

  /** The iteration on key i, as values: Turn on the key with the draws
      of the next spawn, and what follows it. */
  lemma KeyFromNext(s: State, keys: seq<int>, i: nat, draws: nat -> nat, spawns: nat)
    returns (o: Outcome, next: State)
    requires IsBoard(s.board) && i <= |keys|
    ensures (o, next) == Turn(s, KeyAt(keys, i), draws(2 * spawns), draws(2 * spawns + 1))
    ensures IsBoard(next.board)
    ensures KeyFrom(s, keys, i, draws, spawns) == KeyOn((o, next), keys, i, draws, spawns)
  {
    var key := KeyAt(keys, i);
    var pick, roll := draws(2 * spawns), draws(2 * spawns + 1);
    o, next := Turn(s, key, pick, roll).0, Turn(s, key, pick, roll).1;
    assert KeyFrom(s, keys, i, draws, spawns) == KeyTurn(s, key, pick, roll, keys, i, draws, spawns);
  }

  /** A key whose moves play back: a key that selects a move is an ASCII
      byte other than a blank, so its record line reads back as itself
      (the letter keys are such keys, the arrow keys are not). */
  predicate Replayable(key: int)
  {
    DirectionOf(key).Some? ==> 0 <= key < 128 && !IsBlank(key as Byte)
  }

  /** Playing back the record lines of a run on keys, after lines pre,
      gives the run itself: the same outcome, the same game and the same
      record lines, stopping after the last of them. */
  predicate Replays(s: State, keys: seq<int>, i: nat, pre: seq<seq<Byte>>, draws: nat -> nat, spawns: nat)
    requires IsBoard(s.board) && i <= |keys|
  {
    var k := KeyFrom(s, keys, i, draws, spawns);
    PlayFrom(s, pre + k.log, |pre|, draws, spawns) == k.(stop := |pre| + |k.log|)
  }

  lemma {:induction false} ReplayKeys(s: State, keys: seq<int>, i: nat, pre: seq<seq<Byte>>, draws: nat -> nat, spawns: nat)
    requires IsBoard(s.board) && i <= |keys|
    requires forall j :: i <= j < |keys| ==> Replayable(keys[j])
    ensures Replays(s, keys, i, pre, draws, spawns)
    decreases |keys| - i
  {
    var o, next := ReplayStep(s, keys, i, pre, draws, spawns);
    if o.Continue? {
      ReplayKeys(next, keys, i + 1, pre + Written(o), draws, spawns + |Written(o)|);
    }
  }

  /** What follows an iteration on key i, as PlayOnCases. */
  lemma KeyOnCases(o: Outcome, next: State, keys: seq<int>, i: nat, draws: nat -> nat, spawns: nat)
    requires IsBoard(next.board) && i <= |keys|
    ensures o.Continue? && i < |keys| ==>
              var rest := KeyFrom(next, keys, i + 1, draws, spawns + |Written(o)|);
              KeyOn((o, next), keys, i, draws, spawns) == rest.(log := Written(o) + rest.log)
    ensures !(o.Continue? && i < |keys|) ==> KeyOn((o, next), keys, i, draws, spawns) == Run(o, next, [], i)
  {
  }

  /** The iteration on key i, and the iteration of a playback run on
      line j: a line that reads as the same key gives the same iteration,
      and the end of the file ends the run on the same game, lost exactly
      when the board is lost.  An iteration on a key that goes on leaves
      the game alone when it records nothing, and otherwise records the
      move key with the new score. */
  lemma ReplayTurn(s: State, keys: seq<int>, i: nat, lines: seq<seq<Byte>>, j: nat, draws: nat -> nat, spawns: nat)
    returns (o: Outcome, next: State)
    requires IsBoard(s.board) && i <= |keys| && j <= |lines|
    ensures IsBoard(next.board)
    ensures KeyFrom(s, keys, i, draws, spawns) == KeyOn((o, next), keys, i, draws, spawns)
    ensures KeyOfLine(LineAt(lines, j)) == KeyAt(keys, i) ==>
              PlayFrom(s, lines, j, draws, spawns) == PlayOn((o, next), lines, j, draws, spawns)
    ensures j == |lines| ==>
              PlayFrom(s, lines, j, draws, spawns) == Run(if Lost(s.board) then GameLost else GameQuit, s, [], j)
    ensures !o.Continue? ==> next == s && (o == GameLost <==> Lost(s.board))
    ensures o.Continue? ==> i < |keys|
    ensures o.Continue? && o.record.None? ==> next == s
    ensures o.Continue? && o.record.Some? ==>
              DirectionOf(KeyAt(keys, i)).Some? && o.record.value == RecordLine(KeyAt(keys, i), next.score)
  {
    var key := KeyAt(keys, i);
    var pick, roll := draws(2 * spawns), draws(2 * spawns + 1);
    o, next := KeyFromNext(s, keys, i, draws, spawns);
    var o2, next2 := PlayFromNext(s, lines, j, draws, spawns);
    PlayOnCases(o2, next2, lines, j, draws, spawns);
    TurnStops(s, key, pick, roll);
    TurnStops(s, KeyOfLine(LineAt(lines, j)), pick, roll);
    TurnRecords(s, key, pick, roll);
    if Accepted(s.board, key) {
      TurnMoves(s, key, pick, roll);
    } else {
      TurnIgnored(s, key, pick, roll);
    }
  }

  /** One iteration keeps Replays: it holds from key i if the iteration
      ends the run, or if it holds of the rest of the run after the line
      the iteration records. */
  lemma ReplayStep(s: State, keys: seq<int>, i: nat, pre: seq<seq<Byte>>, draws: nat -> nat, spawns: nat)
    returns (o: Outcome, next: State)
    requires IsBoard(s.board) && i <= |keys|
    requires i < |keys| ==> Replayable(keys[i])
    ensures o.Continue? ==> i < |keys| && IsBoard(next.board)
    ensures o.Continue? && i < |keys| && IsBoard(next.board) ==>
              Replays(next, keys, i + 1, pre + Written(o), draws, spawns + |Written(o)|)
              ==> Replays(s, keys, i, pre, draws, spawns)
    ensures !o.Continue? ==> Replays(s, keys, i, pre, draws, spawns)
  {
    var k := KeyFrom(s, keys, i, draws, spawns);
    var lines := pre + k.log;
    o, next := ReplayTurn(s, keys, i, lines, |pre|, draws, spawns);
    KeyOnCases(o, next, keys, i, draws, spawns);
    if !o.Continue? {
      assert lines == pre;
    } else if o.record.None? {
      assert Written(o) == [];
      var rest := KeyFrom(s, keys, i + 1, draws, spawns);
      assert rest.log == [] + rest.log;
      assert k == rest;
      assert pre + Written(o) == pre;
    } else {
      var line := o.record.value;
      assert Written(o) == [line];
      var rest := KeyFrom(next, keys, i + 1, draws, spawns + 1);
      assert k == rest.(log := [line] + rest.log);
      RecordedKeyReplays(KeyAt(keys, i), next.score);
      assert lines == (pre + [line]) + rest.log;
      assert LineAt(lines, |pre|) == Some(line);
      PlayOnCases(o, next, lines, |pre|, draws, spawns);
      var rest2 := PlayFrom(next, lines, |pre| + 1, draws, spawns + 1);
      assert PlayFrom(s, lines, |pre|, draws, spawns) == rest2.(log := [line] + rest2.log);
      if Replays(next, keys, i + 1, pre + [line], draws, spawns + 1) {
        assert rest2 == rest.(stop := |pre| + 1 + |rest.log|);
      }
    }
  }

  /** A game played on keys whose moves are letters, played back from its
      own record file with the same random draws, replays exactly: the
      same outcome, the same final game and the same record file. */
  lemma ReplayGame(s: State, keys: seq<int>, draws: nat -> nat)
    requires IsBoard(s.board)
    requires forall j :: 0 <= j < |keys| ==> Replayable(keys[j])
    ensures var k := KeyFrom(s, keys, 0, draws, 0);
            PlayFrom(s, k.log, 0, draws, 0) == k.(stop := |k.log|)
  {
    ReplayKeys(s, keys, 0, [], draws, 0);
    assert [] + KeyFrom(s, keys, 0, draws, 0).log == KeyFrom(s, keys, 0, draws, 0).log;
  }
}
