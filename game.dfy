/**
  The game state of the 2048 engine and the operations that update it in
  place (2048_game.c: struct game, deflate_left, combine_left,
  rotate_clockwise, move_left .. move_down, place_tile, max_tile,
  lose_game).

  Each method follows the source's loops and is proved against the
  functions of modules Line, Grid and Spawn.
*/
module Engine {
  import opened Wrappers
  import opened Line
  import opened Grid
  import opened Spawn

  /** struct game: the number of accepted moves, the score and the 4x4
      board of tile exponents. */
  class Game {
    var turns: int
    var score: int
    const board: array2<nat>

    predicate Valid()
    {
      board.Length0 == N && board.Length1 == N
    }

    /** The board as a value. */
    function Cells(): (b: Board)
      requires Valid()
      reads board
      ensures IsBoard(b)
    {
      seq(N, r requires 0 <= r < N reads board =>
        seq(N, c requires 0 <= c < N reads board => board[r, c]))
    }

    /** The array holds board b, cell by cell. */
    predicate Holds(b: Board)
      requires Valid() && IsBoard(b)
      reads board
    {
      forall r, c :: 0 <= r < N && 0 <= c < N ==> board[r, c] == b[r][c]
    }

    lemma HoldsCells(b: Board)
      requires Valid() && IsBoard(b)
      ensures Holds(b) <==> Cells() == b
    {
      if Holds(b) {
        forall r | 0 <= r < N ensures Cells()[r] == b[r] {
        }
      }
    }

    /** Cell (r, c) of the array is cell (r, c) of its board. */
    lemma CellAt(r: nat, c: nat)
      requires Valid() && r < N && c < N
      ensures board[r, c] == Cells()[r][c]
    {
    }

    /** The array holds b with row r replaced by x when row r holds x and
        every other row holds b's. */
    lemma HoldsRowUpdate(b: Board, r: nat, x: seq<nat>)
      requires Valid() && IsBoard(b) && r < N && |x| == N
      requires forall k :: 0 <= k < N ==> board[r, k] == x[k]
      requires forall i, k :: 0 <= i < N && i != r && 0 <= k < N ==> board[i, k] == b[i][k]
      ensures Cells() == b[r := x]
    {
      var q := b[r := x];
      forall i, k | 0 <= i < N && 0 <= k < N ensures board[i, k] == q[i][k] {
        if i != r {
          assert q[i] == b[i];
        }
      }
      HoldsCells(q);
    }

    /** `struct game game = {0}`: no turns, no score, every cell empty. */
    constructor ()
      ensures Valid() && fresh(board)
      ensures turns == 0 && score == 0
      ensures EmptyBoard(Cells())
    {
      turns, score := 0, 0;
      board := new nat[N, N]((r, c) => 0);
    }

    /** The copy made when a game is passed by value. */
    constructor Copy(g: Game)
      requires g.Valid()
      ensures Valid() && fresh(board)
      ensures turns == g.turns && score == g.score
      ensures Cells() == g.Cells()
    {
      turns, score := g.turns, g.score;
      board := new nat[N, N]((r, c) requires 0 <= r < N && 0 <= c < N reads g.board => g.board[r, c]);
      new;
      g.HoldsCells(g.Cells());
      HoldsCells(g.Cells());
    }

    /** deflate_left on row r: slides the tiles to the front through a
        zeroed buffer and reports whether any tile moved. */
    method DeflateLeft(r: nat) returns (did: bool)
      requires Valid() && r < N
      modifies board
      ensures Cells() == old(Cells())[r := Deflate(old(Cells())[r])]
      ensures did <==> Cells() != old(Cells())
    {
      ghost var b := Cells();
      HoldsCells(b);
      ghost var s := b[r];
      var buf := new nat[N](_ => 0);
      var out := 0;
      did := false;
      for i := 0 to N
        modifies buf
        invariant out <= i
        invariant buf[..out] == NonZeros(s[..i])
        invariant forall k :: out <= k < N ==> buf[k] == 0
        invariant did == !Packed(s[..i])
      {
        DeflateScanStep(s, i);
        CellAt(r, i);
        if board[r, i] != 0 {
          buf[out] := board[r, i];
          out := out + 1;
          did := did || buf[i] != board[r, i];
        }
      }
      assert s[..N] == s;
      DeflateScanDone(s, buf[..], out);
      CopyRow(r, buf);
      DeflateFixed(s);
      RowUpdate(b, r, Deflate(s));
    }

    /** memcpy of a row-sized buffer into row r. */
    method CopyRow(r: nat, buf: array<nat>)
      requires Valid() && r < N && buf.Length == N
      modifies board
      ensures Cells() == old(Cells())[r := buf[..]]
    {
      ghost var b := Cells();
      HoldsCells(b);
      for c := 0 to N
        invariant forall k :: 0 <= k < c ==> board[r, k] == buf[k]
        invariant forall i, k :: 0 <= i < N && 0 <= k < N && (i != r || c <= k) ==> board[i, k] == b[i][k]
      {
        board[r, c] := buf[c];
      }
      forall k | 0 <= k < N ensures board[r, k] == buf[..][k] {
      }
      HoldsRowUpdate(b, r, buf[..]);
    }

    /** combine_left on row r: one sweep c = 1 .. N-1 merging equal
        neighbours into cell c - 1, adding 1 << v per merged pair of
        exponent v to the score; reports whether anything merged. */
    method CombineLeft(r: nat) returns (did: bool)
      requires Valid() && r < N
      modifies this, board
      ensures Cells() == old(Cells())[r := Combine(old(Cells())[r])]
      ensures score == old(score) + CombineScore(old(Cells())[r])
      ensures turns == old(turns)
      ensures did <==> Cells() != old(Cells())
    {
      ghost var b := Cells();
      HoldsCells(b);
      ghost var s := b[r];
      ghost var row := s;
      did := false;
      CombineSweepStart(s);
      for c := 1 to N
        invariant CombineSweep(s, row, c)
        invariant forall i, k :: 0 <= i < N && 0 <= k < N ==> board[i, k] == (if i == r then row[k] else b[i][k])
        invariant score + CombineScore(row[c - 1..]) == old(score) + CombineScore(s)
        invariant did <==> row != s
        invariant turns == old(turns)
      {
        if board[r, c] != 0 && board[r, c - 1] == board[r, c] {
          CombineSweepMerge(s, row, c);
          board[r, c - 1] := board[r, c - 1] + 1;
          board[r, c] := 0;
          score := score + Pow2(board[r, c - 1] - 1);
          did := true;
          row := row[c - 1 := row[c - 1] + 1][c := 0];
        } else {
          CombineSweepKeep(s, row, c);
        }
      }
      CombineSweepDone(s, row);
      HoldsRowUpdate(b, r, row);
      RowUpdate(b, r, row);
    }

    /** move_left: deflate, combine, deflate on every row; the turn
        counter goes up by one when any of them reported a change. */
    method MoveLeft()
      requires Valid()
      modifies this, board
      ensures Cells() == SlideLeft(old(Cells()))
      ensures score == old(score) + Gained(Left, old(Cells()))
      ensures turns == old(turns) + (if Cells() != old(Cells()) then 1 else 0)
    {
      ghost var b := Cells();
      var ret := false;
      for r := 0 to N
        invariant Cells() == SlideRows(b, r)
        invariant score == old(score) + RowsScore(b, r)
        invariant turns == old(turns)
        invariant ret <==> SlideRows(b, r) != b
      {
        var d1 := DeflateLeft(r);
        ghost var c1 := Cells();
        var c := CombineLeft(r);
        ghost var c2 := Cells();
        var d2 := DeflateLeft(r);
        SlideRowStep(b, r, c1, c2, Cells());
        ret := ret || d1 || c || d2;
      }
      SlideRowsDone(b);
      turns := turns + (if ret then 1 else 0);
    }

    /** rotate_clockwise: copy the board and write the quarter-turned
        copy back. */
    method RotateClockwise()
      requires Valid()
      modifies board
      ensures Cells() == Rotate(old(Cells()))
    {
      ghost var b := Cells();
      HoldsCells(b);
      var buf := new nat[N, N]((i, j) requires 0 <= i < N && 0 <= j < N reads board => board[i, j]);
      for r := 0 to N
        modifies board
        invariant forall i, j :: 0 <= i < r && 0 <= j < N ==> board[i, j] == buf[N - j - 1, i]
      {
        for c := 0 to N
          modifies board
          invariant forall i, j :: 0 <= i < N && 0 <= j < N && (i < r || (i == r && j < c)) ==> board[i, j] == buf[N - j - 1, i]
        {
          board[r, c] := buf[N - c - 1, r];
        }
      }
      assert Holds(Rotate(old(Cells())));
      HoldsCells(Rotate(old(Cells())));
    }

    /** move_right: two quarter turns, move_left, two quarter turns. */
    method MoveRight()
      requires Valid()
      modifies this, board
      ensures Cells() == Moved(Right, old(Cells()))
      ensures score == old(score) + Gained(Right, old(Cells()))
      ensures turns == old(turns) + (if Cells() != old(Cells()) then 1 else 0)
    {
      ghost var b := Cells();
      RotateClockwise();
      ghost var b1 := Cells();
      RotateClockwise();
      ghost var b2 := Cells();
      TwoTurns(b, b1, b2);
      MoveLeft();
      ghost var u := Cells();
      RotateClockwise();
      ghost var u1 := Cells();
      RotateClockwise();
      ghost var u2 := Cells();
      TwoTurns(u, u1, u2);
      MoveChain(Right, 2, 2, b, b2, u, u2);
    }

    /** move_up: three quarter turns, move_left, one quarter turn. */
    method MoveUp()
      requires Valid()
      modifies this, board
      ensures Cells() == Moved(Up, old(Cells()))
      ensures score == old(score) + Gained(Up, old(Cells()))
      ensures turns == old(turns) + (if Cells() != old(Cells()) then 1 else 0)
    {
      ghost var b := Cells();
      RotateClockwise();
      ghost var b1 := Cells();
      RotateClockwise();
      ghost var b2 := Cells();
      RotateClockwise();
      ghost var b3 := Cells();
      ThreeTurns(b, b1, b2, b3);
      MoveLeft();
      ghost var u := Cells();
      RotateClockwise();
      ghost var u1 := Cells();
      assert RotateN(u, 1) == u1;
      MoveChain(Up, 3, 1, b, b3, u, u1);
    }

    /** move_down: one quarter turn, move_left, three quarter turns. */
    method MoveDown()
      requires Valid()
      modifies this, board
      ensures Cells() == Moved(Down, old(Cells()))
      ensures score == old(score) + Gained(Down, old(Cells()))
      ensures turns == old(turns) + (if Cells() != old(Cells()) then 1 else 0)
    {
      ghost var b := Cells();
      RotateClockwise();
      ghost var b1 := Cells();
      assert RotateN(b, 1) == b1;
      MoveLeft();
      ghost var u := Cells();
      RotateClockwise();
      ghost var u1 := Cells();
      RotateClockwise();
      ghost var u2 := Cells();
      RotateClockwise();
      ghost var u3 := Cells();
      ThreeTurns(u, u1, u2, u3);
      MoveChain(Down, 1, 3, b, b1, u, u3);
    }

    /** place_tile: count the empty cells of the linear board; with none,
        return -1; otherwise walk to the (pick mod count)-th empty cell
        and put a new tile there, decided by roll. */
    method PlaceTile(pick: nat, roll: nat) returns (status: int)
      requires Valid()
      modifies board
      ensures Spawned(old(Cells()), pick, roll).None? ==> status == -1 && Cells() == old(Cells())
      ensures Spawned(old(Cells()), pick, roll).Some? ==>
                status == 0 && Cells() == Spawned(old(Cells()), pick, roll).value
    {
      ghost var b := Cells();
      HoldsCells(b);
      ghost var flat := Flatten(b);
      var numZeros := 0;
      for i := 0 to N * N
        invariant numZeros == Count(flat[..i], 0)
        invariant Holds(b)
      {
        CountStep(flat, i, 0);
        numZeros := numZeros + (if board[i / N, i % N] != 0 then 0 else 1);
      }
      assert flat[..N * N] == flat;
      CountPositive(flat, 0);
      if numZeros == 0 {
        HoldsCells(b);
        return -1;
      }
      var loc := pick % numZeros;
      for i := 0 to N * N
        invariant Count(flat[..i], 0) <= pick % numZeros
        invariant loc == pick % numZeros - Count(flat[..i], 0)
        invariant Holds(b)
      {
        CountStep(flat, i, 0);
        if board[i / N, i % N] == 0 {
          var hit := loc == 0;
          loc := loc - 1;
          if hit {
            NthZeroUnique(flat, pick % numZeros, i);
            HoldsCells(b);
            SetCell(i / N, i % N, if roll % 10 != 0 then 1 else 2);
            return 0;
          }
        }
      }
      assert false;
    }

    /** Writes v into cell (r, c) of the board. */
    method SetCell(r: nat, c: nat, v: nat)
      requires Valid() && r < N && c < N
      modifies board
      ensures var row: seq<nat> := old(Cells())[r][c := v]; Cells() == old(Cells())[r := row]
    {
      ghost var b := Cells();
      HoldsCells(b);
      board[r, c] := v;
      ghost var row: seq<nat> := b[r][c := v];
      ghost var q := b[r := row];
      assert Holds(q);
      HoldsCells(q);
    }

    /** max_tile: the largest exponent on the board, starting from 0. */
    method MaxTile() returns (m: nat)
      requires Valid()
      ensures forall i :: 0 <= i < N * N ==> Flatten(Cells())[i] <= m
      ensures m == 0 || m in Flatten(Cells())
    {
      ghost var flat := Flatten(Cells());
      HoldsCells(Cells());
      m := 0;
      for i := 0 to N * N
        invariant forall k :: 0 <= k < i ==> flat[k] <= m
        invariant m == 0 || m in flat
      {
        assert flat[i] == board[i / N, i % N];
        m := if m > board[i / N, i % N] then m else board[i / N, i % N];
      }
    }
  }

  /** Replacing row r changes a board exactly when the row changes. */
  lemma RowUpdate(b: Board, r: nat, x: seq<nat>)
    requires IsBoard(b) && r < N
    ensures b[r := x] == b <==> x == b[r]
  {
    if x != b[r] {
      assert b[r := x][r] != b[r];
    }
  }

  /** The board with rows 0 .. r - 1 resolved as move_left does and the
      other rows untouched. */
  ghost function SlideRows(b: Board, r: nat): (q: Board)
    requires IsBoard(b) && r <= N
    ensures IsBoard(q)
  {
    seq(N, k requires 0 <= k < N => if k < r then Resolve(b[k]) else b[k])
  }

  /** deflate, combine, deflate on row r advances SlideRows by one row;
      one of the three reports a change exactly when the row changes;
      the combine earns what move_left credits for that row. */
  lemma SlideRowStep(b: Board, r: nat, c1: Board, c2: Board, c3: Board)
    requires IsBoard(b) && r < N
    requires c1 == SlideRows(b, r)[r := Deflate(SlideRows(b, r)[r])]
    requires c2 == c1[r := Combine(c1[r])]
    requires c3 == c2[r := Deflate(c2[r])]
    ensures c3 == SlideRows(b, r + 1)
    ensures CombineScore(c1[r]) == ResolveScore(b[r])
    ensures (SlideRows(b, r) != b || c1 != SlideRows(b, r) || c2 != c1 || c3 != c2)
            <==> SlideRows(b, r + 1) != b
  {
    var c0 := SlideRows(b, r);
    SlideRowsNext(b, r);
    assert c3 == c0[r := Resolve(b[r])];
    ResolveChanged(b[r]);
    RowUpdate(c0, r, c1[r]);
    RowUpdate(c1, r, c2[r]);
    RowUpdate(c2, r, c3[r]);
    UpdateChanged(b, c0, r, Resolve(b[r]));
  }

  /** SlideRows advances by resolving row r, which it has not touched. */
  lemma SlideRowsNext(b: Board, r: nat)
    requires IsBoard(b) && r < N
    ensures SlideRows(b, r)[r] == b[r]
    ensures SlideRows(b, r + 1) == SlideRows(b, r)[r := Resolve(b[r])]
  {
  }

  /** Setting row r of a board c that agrees with b on row r gives b
      back exactly when c is b and the new row is b's. */
  lemma UpdateChanged(b: Board, c: Board, r: nat, x: seq<nat>)
    requires IsBoard(b) && IsBoard(c) && r < N && c[r] == b[r]
    ensures c[r := x] != b <==> c != b || x != b[r]
  {
    if c != b && x == b[r] {
      assert c[r := x] == c;
    }
    if x != b[r] {
      assert c[r := x][r] != b[r];
    }
  }

  /** After the last row, SlideRows is the whole move. */
  lemma SlideRowsDone(b: Board)
    requires IsBoard(b)
    ensures SlideRows(b, N) == SlideLeft(b)
  {
  }

  /** Quarter turns made one after another add up. */
  lemma TwoTurns(b: Board, b1: Board, b2: Board)
    requires IsBoard(b) && IsBoard(b1)
    requires b1 == Rotate(b) && b2 == Rotate(b1)
    ensures b2 == RotateN(b, 2)
  {
    assert RotateN(b, 1) == b1;
  }

  lemma ThreeTurns(b: Board, b1: Board, b2: Board, b3: Board)
    requires IsBoard(b) && IsBoard(b1) && IsBoard(b2)
    requires b1 == Rotate(b) && b2 == Rotate(b1) && b3 == Rotate(b2)
    ensures b3 == RotateN(b, 3)
  {
    TwoTurns(b, b1, b2);
  }

  /** Turning, sliding left and turning back is the move in direction d;
      the move changes the board exactly when the slide changes the turned
      board. */
  lemma MoveChain(d: Direction, k: nat, j: nat, b: Board, t: Board, u: Board, q: Board)
    requires IsBoard(b) && IsBoard(t) && IsBoard(u) && IsBoard(q)
    requires k == QuarterTurns(d) && j == QuarterTurnsBack(d)
    requires t == RotateN(b, k)
    requires u == SlideLeft(t)
    requires q == RotateN(u, j)
    ensures q == Moved(d, b)
    ensures RowsScore(t, N) == Gained(d, b)
    ensures q != b <==> u != t
  {
    MovedChanged(d, b);
  }

  /** lose_game: on a copy of the game (the source passes it by value),
      try left, up, down and right in turn; the game is lost when the
      copy's turn counter never moved.  The caller's game is not
      touched. */
  method LoseGame(game: Game) returns (lost: bool)
    requires game.Valid()
    ensures lost <==> Lost(game.Cells())
  {
    var test := new Game.Copy(game);
    var startTurns := test.turns;
    ghost var b := test.Cells();
    test.MoveLeft();
    ghost var b1 := test.Cells();
    test.MoveUp();
    ghost var b2 := test.Cells();
    test.MoveDown();
    ghost var b3 := test.Cells();
    test.MoveRight();
    lost := test.turns == startTurns;
  }
}
