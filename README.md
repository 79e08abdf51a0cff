# 2048 engine, modelled in Dafny

This project models the game engine of a terminal clone of the 2048
sliding-tile puzzle. The whole engine lives in `2048_game.c`.

A game is a 4x4 board of tile exponents. A cell holding `v` shows the tile
`1 << v`, and 0 is an empty cell. The game also keeps a turn counter and a
score. Every move is built from three parts:

- two row primitives:
  - `deflate_left` slides the tiles of a row to the front;
  - `combine_left` makes one left-to-right sweep that merges equal
    neighbours.
- a quarter-turn `rotate_clockwise`: right, up and down are left moves
  between rotations.

After a move that changed the board, `place_tile` puts a new tile in an
empty cell chosen by `random()`. `lose_game` tries all four moves on a
copy of the game. The main loop reads a key, either from the keyboard or
one line per turn from a play file. It writes one `key:score` line per
accepted move to a record file.

Layout:

- `line.dfy` (module `Line`): the row primitives as functions on
  `seq<nat>`.
  - What each primitive keeps: tiles in order, shown total.
  - When each primitive changes a row.
  - The sweep invariant of `combine_left`.
- `grid.dfy` (module `Grid`): boards as `seq<seq<nat>>`.
  - The quarter turn, the four moves and the loss predicate.
  - Rotation is a permutation that comes back after four turns.
  - Each move keeps the shown total.
  - The full characterisation of a lost board.
- `spawn.dfy` (module `Spawn`): the spawn policy of `place_tile` as a
  function of the board and the two random draws.
- `game.dfy` (module `Engine`): `struct game` as a class.
  - Its fields are `turns`, `score` and a 4x4 `array2`.
  - The methods follow the source's loops: the buffer of `deflate_left`,
    the `c = 1 .. 3` sweep of `combine_left`, the buffer copy of the
    rotation, the counting walk of `place_tile`, and the fold of
    `max_tile`.
  - Each method is proved against the functions above.
  - `LoseGame` works on a copy, as the source does by passing the game by
    value.
- `replay.dfy` (module `Replay`): the playback line to key extraction of
  `get_input` and the `"%c:%d\n"` line of `record`, on bytes, with a
  parser for the record line.
- `turn.dfy` (module `Play`):
  - the key switch of the main loop;
  - one loop iteration, `Step`, proved against the value-level function
    `Turn`;
  - the two opening tiles;
  - the loop itself in playback mode: the value-level fold `PlayFrom`
    over the lines of the play file, its properties, and the method
    `Playback`, proved against it;
  - the same loop on keys typed at the keyboard, `KeyFrom`, and the
    theorem that playing back the record file of such a game replays
    it exactly.

`random()` is an input: `pick` and `roll` are the two draws of one
`place_tile` call. `NewGame` takes the four draws of the two opening
tiles. A playback run takes the draws that follow as a function `draws`:
the j-th tile spawned after playback starts uses `draws(2j)` and
`draws(2j + 1)`.

## Model

| member | source | states |
|---|---|---|
| Line.Deflate | 2048_game.c:120-136 | the deflated row has the row's length and no tile stands after an empty cell |
| Line.DeflateKeepsTiles | 2048_game.c:120-136 | deflating keeps the row's tiles in their order, and so keeps the row's shown total |
| Line.DeflateFixed | 2048_game.c:120-136 | deflating leaves a row unchanged exactly when it is already packed |
| Line.DeflateScanStep | 2048_game.c:126-131 | one step of the scan appends exactly the scanned tile; the prefix stays packed exactly when the new cell is empty or no empty cell came before it |
| Line.Combine | 2048_game.c:105-117 | one left-to-right sweep: a non-empty cell equal to its left neighbour merges into it (+1) and is emptied, and the sweep goes on past the emptied cell; the row keeps its length |
| Line.CombineScore | 2048_game.c:108-115 | what the sweep adds to the score: `1 << v` for each pair of exponent v it merges |
| Line.CombineConserves | 2048_game.c:105-117 | combining keeps the row's shown total (two tiles `1 << v` become one `1 << (v+1)`) |
| Line.CombineScoreBound | 2048_game.c:109-113 | the score a sweep earns is at most half the row's shown total |
| Line.CombineFixed | 2048_game.c:105-117 | the sweep changes the row exactly when some adjacent pair of equal tiles exists, and it scores exactly then |
| Line.CombineDropsTiles | 2048_game.c:105-117 | a sweep never adds tiles, and a sweep that changes the row removes at least one |
| Line.CombineMergeStep | 2048_game.c:108-113 | merging the front pair raises the left cell by one, empties the right one, earns `1 << v`, and the sweep goes on from the emptied cell |
| Line.CombineSweepMerge | 2048_game.c:107-114 | a merge step keeps the sweep invariant, earns `1 << v` for the pair and leaves the row different from the original |
| Line.Resolve | 2048_game.c:155-158 | the row after deflate, combine, deflate, as move_left treats each row; it keeps its length |
| Line.ResolveScore | 2048_game.c:155-158 | what move_left scores on one row: the sweep's score on the deflated row |
| Line.ResolveConserves | 2048_game.c:151-162 | a row after deflate, combine, deflate has its length, is packed, keeps its shown total and has no more tiles |
| Line.ResolveChanged | 2048_game.c:155-158 | the three flags move_left ORs together for a row are set exactly when the row changed |
| Line.ResolveFixed | 2048_game.c:151-162 | move_left leaves a row alone exactly when it is packed and has no adjacent equal tiles |
| Line.ResolveScoreUnchanged | 2048_game.c:151-162 | a row move_left leaves alone scores nothing |
| Line.ResolveOpensCell | 2048_game.c:151-162 | a row move_left changes has an empty cell afterwards |
| Line.StuckLineIff | 2048_game.c:192-200 | a line that neither direction changes is empty, or is full with no equal neighbours |
| Line.FourEqualTiles | 2048_game.c:105-136 | `[1,1,1,1]` combines to `[2,0,2,0]` (the emptied cell is not reused), resolves to `[2,2,0,0]` and scores 4 |
| Grid.Rotate | 2048_game.c:138-149 | the quarter turn `new[r][c] = old[N-1-c][r]`; a board stays a 4x4 board |
| Grid.RotateTwiceAt | 2048_game.c:138-149 | two quarter turns put cell (r, c) at (N-1-r, N-1-c) |
| Grid.RotateFour | 2048_game.c:138-149 | four quarter turns give back the board |
| Grid.RotateCounts | 2048_game.c:138-149 | a quarter turn permutes the cells: every value occurs as often as before |
| Grid.RotateKeepsSum | 2048_game.c:138-149 | a quarter turn keeps the board's shown total |
| Grid.SlideLeft | 2048_game.c:151-162 | move_left's board: every row resolved; a board stays a 4x4 board |
| Grid.RowsScore | 2048_game.c:154-159 | what move_left adds to the score over the first k rows: the sum of their row scores |
| Grid.QuarterTurns | 2048_game.c:164-189 | the quarter turns before move_left: 0, 2, 3 and 1 for left, right, up and down |
| Grid.QuarterTurnsBack | 2048_game.c:164-189 | the quarter turns after move_left, which complete those before it to a full turn: 0, 2, 1 and 3 |
| Grid.Moved | 2048_game.c:164-189 | a move's board: turn, move_left, turn the rest of the way round; a board stays a 4x4 board |
| Grid.Gained | 2048_game.c:164-189 | a move's score: what move_left scores on the turned board |
| Grid.RotateBack | 2048_game.c:164-189 | the k and 4-k quarter turns around move_left (k = 2, 3, 1 for right, up, down) cancel out |
| Grid.MovedKeepsSum | 2048_game.c:151-189 | every move keeps the board's shown total |
| Grid.MovedChanged | 2048_game.c:164-189 | a move changes the board exactly when move_left changes the turned board, so all four moves count a turn on the same rule |
| Grid.UnchangedScoresNothing | 2048_game.c:151-189 | a move that leaves the board alone leaves the score alone |
| Grid.MovedOpensCell | 2048_game.c:151-189 | after a move that changed the board there is an empty cell |
| Grid.MovedLeftRows | 2048_game.c:151-162 | unfolding of `Moved(Left)` kept for symmetry with the three lemmas below: moving left resolves every row |
| Grid.MovedRightRows | 2048_game.c:164-171 | moving right resolves every row read from the right |
| Grid.MovedUpColumns | 2048_game.c:173-180 | moving up resolves every column read from the top |
| Grid.MovedDownColumns | 2048_game.c:182-189 | moving down resolves every column read from the bottom |
| Grid.TrialTurns | 2048_game.c:192-199 | how many of the moves, made one after another on a copy, change the copy, which is what they add to its turn counter |
| Grid.Lost | 2048_game.c:192-200 | lose_game: left, up, down and right made in turn on a copy of the game add no turn |
| Grid.TrialsNone | 2048_game.c:192-200 | the trial moves of lose_game count no turn exactly when each of them, made on the board itself, leaves it alone |
| Grid.LostMoves | 2048_game.c:192-200 | the board is lost exactly when each of left, up, down and right leaves it alone |
| Grid.LostByLines | 2048_game.c:192-200 | the board is lost exactly when no row changes either way and no column changes either way |
| Grid.LostIff | 2048_game.c:192-200 | the board is lost exactly when it is empty, or full with no two equal neighbours in a row or a column |
| Grid.RoomMeansNotLost | 2048_game.c:192-200 | a board with an empty cell and at least one tile is never lost |
| Spawn.NthZero | 2048_game.c:64-69 | the k-th empty cell in row-major order: it is empty and exactly k empty cells precede it |
| Spawn.NewTile | 2048_game.c:67 | the new tile is 1 (shows 2) unless the draw is a multiple of ten, then 2 (shows 4) |
| Spawn.NthZeroUnique | 2048_game.c:64-69 | an empty cell with k empty cells before it is the k-th empty cell, which is where the `loc--` walk stops |
| Spawn.Spawned | 2048_game.c:46-72 | place_tile on values: nothing when the board has no empty cell (the -1 return), otherwise the board with the new tile in the (pick mod #empty)-th empty cell in row-major order |
| Spawn.SpawnPlacesOneTile | 2048_game.c:46-72 | no tile is placed exactly on a full board; otherwise exactly one cell changes: the (pick mod #empty)-th empty cell becomes the new tile, one empty cell fewer, total grows by the new tile |
| Engine.Game.constructor | 2048_game.c:271 | a new game has no turns, no score and an empty board |
| Engine.Game.Copy | 2048_game.c:192 | the copy has the original's fields and board in a fresh array |
| Engine.Game.DeflateLeft | 2048_game.c:120-136 | row r becomes its deflated row and no other row changes; the result is true exactly when the board changed |
| Engine.Game.CopyRow | 2048_game.c:134 | the copy of the buffer into row r: row r becomes the buffer's contents and no other row changes |
| Engine.Game.CombineLeft | 2048_game.c:105-117 | row r becomes its combined row and no other row changes; the score grows by the row's merge score; turns stay; the result is true exactly when the board changed |
| Engine.Game.MoveLeft | 2048_game.c:151-162 | the board becomes the left move of the old board; the score grows by what the move merged; turns grow by one exactly when the board changed |
| Engine.Game.RotateClockwise | 2048_game.c:138-149 | the board becomes its quarter turn, `new[r][c] = old[N-1-c][r]` |
| Engine.Game.MoveRight | 2048_game.c:164-171 | the board becomes the right move of the old board; score and turns as for move_left on the turned board |
| Engine.Game.MoveUp | 2048_game.c:173-180 | the board becomes the up move of the old board; score and turns as for move_left on the turned board |
| Engine.Game.MoveDown | 2048_game.c:182-189 | the board becomes the down move of the old board; score and turns as for move_left on the turned board |
| Engine.Game.PlaceTile | 2048_game.c:46-72 | returns -1 and leaves the board unchanged when no cell is empty; otherwise returns 0 and the board is the spawn policy's board |
| Engine.Game.SetCell | 2048_game.c:67 | the store into one cell of the linear board: that cell takes the new value and every other cell keeps its own |
| Engine.Game.MaxTile | 2048_game.c:223-230 | the result is at least every cell and is 0 or the value of some cell |
| Engine.LoseGame | 2048_game.c:192-200 | true exactly when none of left, up, down, right changes the board; the caller's game is not modified |
| Replay.SignedChar | 2048_game.c:250 | a byte read as a signed `char`: in -128 .. 127, and the same byte modulo 256 |
| Replay.LeadingBlanks | 2048_game.c:250 | the length of the run of spaces and tabs at the front of the line, and the next byte is no blank |
| Replay.KeyOfLine | 2048_game.c:244-254 | at end of file the key is 'q'; every key read from a line is a signed byte |
| Replay.KeyIsFirstNonBlank | 2048_game.c:250 | the key of a read line is its first byte that is not a space or a tab |
| Replay.BlankLineKey | 2048_game.c:250 | a line of spaces and tabs yields the terminator 0 |
| Replay.EmptyLineKey | 2048_game.c:244-254 | an empty line yields '\n', not the quit key |
| Replay.QuitKey | 2048_game.c:244-254 | playback quits at end of file, and otherwise only on a line whose first non-blank byte is 'q' |
| Replay.RecordLine | 2048_game.c:261-266 | the record line has at least four bytes, with a colon second and a newline last; RecordRoundTrip reads back the key's low byte and the score from it |
| Replay.DecimalRoundTrip | 2048_game.c:264 | the `%d` text of a number reads back as that number |
| Replay.RecordRoundTrip | 2048_game.c:264 | a record line reads back as the low byte of its key and its score |
| Replay.RecordedKeyReplays | 2048_game.c:242-264 | a key that is an ASCII byte other than a blank comes back as the same key when its record line is played back |
| Play.DirectionOf | 2048_game.c:321-325 | the move cases of the switch: 'a' or KEY_LEFT left, 's' or KEY_DOWN down, 'w' or KEY_UP up, 'd' or KEY_RIGHT right, any other key no move |
| Play.KeysOfDirection | 2048_game.c:321-329 | exactly the letter and the arrow of a direction select it; 'q' selects no move |
| Play.Turn | 2048_game.c:313-334 | one loop iteration on values; the board after it is a board |
| Play.TurnStops | 2048_game.c:312-328 | the loop stops exactly on a lost board and, otherwise, on 'q'; nothing changes then |
| Play.TurnIgnored | 2048_game.c:321-334 | a key that is no move, or a move that changes nothing, changes nothing and records nothing |
| Play.TurnAccepted | 2048_game.c:321-334 | an accepted move raises turns by one, adds what it merged to the score, places exactly one tile, which always finds room, and records key and new score; the shown total grows by the new tile alone |
| Play.TurnRecords | 2048_game.c:313-334 | a lost stop leaves a lost board; turns grow by one exactly when a line is recorded; every recorded line belongs to a move key; the score never drops |
| Play.Dispatch | 2048_game.c:321-325 | the board becomes the move's board, with score and turns as the move sets them |
| Play.Step | 2048_game.c:313-334 | the game and outcome after the iteration are those of `Turn` |
| Play.NewGame | 2048_game.c:271-301 | the opening board is the empty board with two tiles spawned; neither spawn fails; 14 cells stay empty |
| Play.TurnScore | 2048_game.c:331-334 | a recorded line carries the key and the score after the move; an iteration that records nothing keeps the score |
| Play.PlayFrom | 2048_game.c:308-335 | the loop in playback mode from line i: get_input reads the key of line i ('q' past the end of file), the iteration runs with the draws of the next spawn, and PlayOn decides what follows; the board stays a 4x4 board |
| Play.PlayOn | 2048_game.c:313-335 | what follows an iteration on line i: the run stops there when the game was lost or quit, and otherwise goes on with line i + 1, the iteration's record line in front of the rest |
| Play.PlayFromNext | 2048_game.c:320-334 | the iteration on line i is `Turn` on the key get_input reads from line i ('q' past the end of file) with the draws of the next spawn; an iteration that goes on has read a line |
| Play.PlayFromCases | 2048_game.c:308-335 | the run from line i goes on from line i + 1 after an iteration that goes on, and otherwise ends on line i with the game unchanged |
| Play.PlayFromStep | 2048_game.c:313-334 | an iteration that goes on raises turns by the lines it records, records the move key it read with the new score, keeps the score when it records nothing, and never lowers the score |
| Play.PlayFromHalts | 2048_game.c:313-328 | an iteration that ends the run leaves the game alone and ends it lost exactly on a lost board, quit otherwise on 'q' |
| Play.PlayFromBounds | 2048_game.c:308-335 | a run from line i stops on a line from i to the end of file |
| Play.PlayFromSettles | 2048_game.c:308-335 | the loop restarted where a run stopped, with its game and its spawn count, stops there at once the same way |
| Play.PlayFromStops | 2048_game.c:313-328 | a run that stops on its first line leaves the game alone and ends as the loop does |
| Play.PlayFromEnds | 2048_game.c:308-335 | every playback run ends lost on a lost board, or quit on a board that is not lost at a line whose key is 'q' (end of file included) |
| Play.LoggedPrepend | 2048_game.c:331-334 | a record line written for a move key read from a play file plays back as a move, so an iteration that records it keeps every recorded line replayable |
| Play.LoggedStep | 2048_game.c:313-334 | one iteration keeps "one record line per turn gained, each a move, score never lower" from the rest of the run to the whole |
| Play.PlayFromLogged | 2048_game.c:308-335 | a run writes one record line per turn it gains, each of which plays back as a move, and never lowers the score |
| Play.LastScorePrepend | 2048_game.c:331-334 | the line an iteration records carries the score after it, so it is the last line's score when nothing is recorded later |
| Play.LastScoreStep | 2048_game.c:313-334 | one iteration keeps "the last record line reads back as the final score" from the rest of the run to the whole |
| Play.PlayFromLastScore | 2048_game.c:308-335 | the last record line of a run reads back as the score it ends with; a run that records nothing keeps the score |
| Play.PlayLine | 2048_game.c:313-334 | one iteration on the game object: the run from the game before is what follows the outcome and the game after; an iteration that goes on has read a line |
| Play.PlaybackGoesOn | 2048_game.c:308-335 | the loop invariant of Playback (the whole run is the log so far followed by the rest) holds again after one iteration |
| Play.Playback | 2048_game.c:308-335 | the outcome, the final game and the record lines are those of `PlayFrom` from the game before, line 0 and spawn 0, so PlayFromEnds, PlayFromLogged and PlayFromLastScore hold of them |
| Play.LettersReplay | 2048_game.c:242-264 | a move recorded from a letter key plays back as the same move |
| Play.ArrowsDoNotReplay | 2048_game.c:261-264 | a move recorded from an arrow key plays back as no move, because `record` keeps only the low byte of KEY_LEFT .. KEY_RIGHT |
| Play.KeyFrom | 2048_game.c:308-335 | the loop on keys typed at the keyboard from key i: getch returns key i ('q' once the player stops typing), the iteration runs with the draws of the next spawn, and KeyOn decides what follows; the board stays a 4x4 board |
| Play.KeyOn | 2048_game.c:313-335 | what follows an iteration on key i: the run stops there when the game was lost or quit, and otherwise goes on with key i + 1, the iteration's record line in front of the rest |
| Play.KeyFromNext | 2048_game.c:320-334 | the iteration on key i is `Turn` on that key with the draws of the next spawn |
| Play.ReplayTurn | 2048_game.c:242-334 | a play-file line that reads as the key typed gives the same iteration; the end of the play file ends the run lost exactly on a lost board; an iteration on a key that goes on records nothing and keeps the game, or records the move key with the new score |
| Play.ReplayStep | 2048_game.c:308-335 | one iteration keeps "playing back the record lines replays the run": it holds at once when the iteration ends the run, and otherwise follows from the rest of the run after the recorded line |
| Play.ReplayKeys | 2048_game.c:308-335 | after any lines already read, playing back the record lines of a run on keys whose moves are ASCII non-blank bytes gives that run's outcome, game and record lines, stopping after its last line |
| Play.ReplayGame | 2048_game.c:242-335 | a game played on keys whose moves are letters (ASCII non-blank bytes), played back from its own record file with the same draws, ends with the same outcome, the same game and the same record file |

## Left out

- Curses rendering and terminal setup are not modelled: `print_tile`, `print_game`, `init_curses`, `endwin`, the "You lose" prompt and the final summary line (2048_game.c:74-103, 202-221, 337-355). They only display the state.
- Command-line parsing is not modelled: `getopt`, `atoi`, `fopen_or_die` and `usage`. It only opens files and sets the seed and delay.
- `srandom` and `random()` are not modelled. Their values are parameters: two per `place_tile` call.
- The file and keyboard I/O is not modelled: `getline`, `getch`, `usleep`, `free` and the `fprintf` in `record`. The model keeps the line-to-key and key-and-score-to-line functions. `Play.Step` takes the key `get_input` returned. `Play.Playback` takes the play file as a sequence of lines.
- Engine.Game.MoveLeft: C `int` overflow is not modelled. Cells, `score` and `turns` are unbounded integers, so `1 << v` for large exponents and a score past `INT_MAX` do not wrap. Cells are `nat`, because the engine never stores a negative exponent.
- Replay.SignedChar: assumes a signed `char`, as on the common Unix ABIs. An unsigned `char` would turn bytes 128-255 into the keys 128-255; no such key is a move or 'q' either way.
- Play.KeysOfDirection: the arrow-key codes 258-261 are those of ncurses. The curses header is not part of this model.
- The score rule follows the code: a merged pair of exponent `v` adds `1 << v`, which is half the new tile's shown value.
- The empty board counts as lost, also following the code: every move leaves it unchanged.
- Play.KeyFrom: what the player types is a finite sequence of keys, followed by 'q'. A player who never quits is not modelled.
- The interactive loop (not batch mode) is the same `Step`. Only the drawing and the wait for 'q' after a loss differ, and those are left out above.
