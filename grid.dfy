/**
  The 4x4 board of the 2048 engine and its four moves.

  A board is a sequence of N rows of N tile exponents.  A move in any
  direction turns the board clockwise until that direction points left,
  slides every row left, and turns the board back (2048_game.c,
  move_left .. move_down).  The loss test asks whether any of the four
  moves would change the board (lose_game).
*/
module Grid {
  import opened Line

  /** NROWS == NCOLS == 4. */
  const N: nat := 4

  type Board = seq<seq<nat>>

  predicate IsBoard(b: Board)
  {
    |b| == N && forall r :: 0 <= r < N ==> |b[r]| == N
  }

  /** The cells in row-major order (the source's "linear board"). */
  function Flatten(b: Board): (s: seq<nat>)
    requires IsBoard(b)
    ensures |s| == N * N
  {
    seq(N * N, i requires 0 <= i < N * N => b[i / N][i % N])
  }

  /** Column c read from top to bottom. */
  function Column(b: Board, c: nat): (s: seq<nat>)
    requires IsBoard(b) && c < N
    ensures |s| == N
  {
    seq(N, r requires 0 <= r < N => b[r][c])
  }

  /** rotate_clockwise: a quarter turn clockwise. */
  function Rotate(b: Board): (q: Board)
    requires IsBoard(b)
    ensures IsBoard(q)
  {
    seq(N, r requires 0 <= r < N => seq(N, c requires 0 <= c < N => b[N - c - 1][r]))
  }

  /** k quarter turns clockwise. */
  function RotateN(b: Board, k: nat): (q: Board)
    requires IsBoard(b)
    ensures IsBoard(q)
  {
    if k == 0 then b else Rotate(RotateN(b, k - 1))
  }

  /** move_left on a whole board: every row resolved independently. */
  function SlideLeft(b: Board): (q: Board)
    requires IsBoard(b)
    ensures IsBoard(q)
  {
    seq(N, r requires 0 <= r < N => Resolve(b[r]))
  }

  /** What move_left adds to the score over rows 0 .. k - 1. */
  function RowsScore(b: Board, k: nat): nat
    requires IsBoard(b) && k <= N
  {
    if k == 0 then 0 else RowsScore(b, k - 1) + ResolveScore(b[k - 1])
  }

  datatype Direction = Left | Right | Up | Down

  /** Quarter turns clockwise before move_left: move_right turns twice,
      move_up three times, move_down once; each then turns the rest of
      the way round. */
  function QuarterTurns(d: Direction): nat
  {
    match d
    case Left => 0
    case Right => 2
    case Up => 3
    case Down => 1
  }

  /** Quarter turns clockwise after move_left that complete the turns
      before it to a full turn. */
  function QuarterTurnsBack(d: Direction): nat
  {
    match d
    case Left => 0
    case Right => 2
    case Up => 1
    case Down => 3
  }

  /** The board after a move in direction d. */
  function Moved(d: Direction, b: Board): (q: Board)
    requires IsBoard(b)
    ensures IsBoard(q)
  {
    RotateN(SlideLeft(RotateN(b, QuarterTurns(d))), QuarterTurnsBack(d))
  }

  /** What a move in direction d adds to the score. */
  function Gained(d: Direction, b: Board): nat
    requires IsBoard(b)
  {
    RowsScore(RotateN(b, QuarterTurns(d)), N)
  }

  /** The moves ds made in turn on a copy of b: how many of them changed
      the copy, which is what they add to its turn counter. */
  function TrialTurns(b: Board, ds: seq<Direction>): nat
    requires IsBoard(b)
    decreases |ds|
  {
    if ds == [] then 0
    else (if Moved(ds[0], b) != b then 1 else 0) + TrialTurns(Moved(ds[0], b), ds[1..])
  }

  /** lose_game: left, up, down and right made in turn on a copy leave
      its turn counter where it was. */
  predicate Lost(b: Board)
    requires IsBoard(b)
  {
    TrialTurns(b, [Left, Up, Down, Right]) == 0
  }

  /** No trial move counts exactly when each of them, made on b itself,
      leaves b alone. */
  lemma {:induction false} TrialsNone(b: Board, ds: seq<Direction>)
    requires IsBoard(b)
    ensures TrialTurns(b, ds) == 0 <==> forall k :: 0 <= k < |ds| ==> Moved(ds[k], b) == b
    decreases |ds|
  {
    if ds != [] {
      TrialsNone(b, ds[1..]);
      if Moved(ds[0], b) == b {
        forall k | 0 <= k < |ds| && k > 0 ensures ds[k] == ds[1..][k - 1] {
        }
      }
    }
  }

  /** The board is lost exactly when each of the four moves leaves it
      alone. */
  lemma LostMoves(b: Board)
    requires IsBoard(b)
    ensures Lost(b) <==> Moved(Left, b) == b && Moved(Up, b) == b && Moved(Down, b) == b && Moved(Right, b) == b
  {
    var ds := [Left, Up, Down, Right];
    TrialsNone(b, ds);
    assert ds[0] == Left && ds[1] == Up && ds[2] == Down && ds[3] == Right;
  }

  predicate EmptyBoard(b: Board)
    requires IsBoard(b)
  {
    forall r :: 0 <= r < N ==> AllZero(b[r])
  }

  predicate FullBoard(b: Board)
    requires IsBoard(b)
  {
    forall r :: 0 <= r < N ==> 0 !in b[r]
  }

  /** No two horizontally or vertically adjacent cells are equal. */
  predicate NoEqualNeighbours(b: Board)
    requires IsBoard(b)
  {
    (forall r :: 0 <= r < N ==> NoEqualPair(b[r]))
    && (forall c :: 0 <= c < N ==> NoEqualPair(Column(b, c)))
  }

  // ---------------------------------------------------------------------
  // Rotation

  lemma FlattenRows(b: Board)
    requires IsBoard(b)
    ensures Flatten(b) == b[0] + b[1] + b[2] + b[3]
  {
  }

  lemma RotateTwiceAt(b: Board, r: nat, c: nat)
    requires IsBoard(b) && r < N && c < N
    ensures RotateN(b, 2)[r][c] == b[N - 1 - r][N - 1 - c]
  {
    var one := Rotate(b);
    assert RotateN(b, 1) == one;
    assert RotateN(b, 2) == Rotate(one);
    assert one[N - c - 1][r] == b[N - r - 1][N - c - 1];
  }

  lemma RotateThriceAt(b: Board, r: nat, c: nat)
    requires IsBoard(b) && r < N && c < N
    ensures RotateN(b, 3)[r][c] == b[c][N - 1 - r]
  {
    var two := RotateN(b, 2);
    assert RotateN(b, 3) == Rotate(two);
    RotateTwiceAt(b, N - c - 1, r);
  }

  /** Four quarter turns give back the original board. */
  lemma RotateFour(b: Board)
    requires IsBoard(b)
    ensures RotateN(b, 4) == b
  {
    var three := RotateN(b, 3);
    var q := RotateN(b, 4);
    assert q == Rotate(three);
    forall r | 0 <= r < N ensures q[r] == b[r] {
      forall c | 0 <= c < N ensures q[r][c] == b[r][c] {
        RotateThriceAt(b, N - c - 1, r);
      }
    }
  }

  lemma {:induction false} RotateNAdd(b: Board, j: nat, k: nat)
    requires IsBoard(b)
    ensures RotateN(RotateN(b, j), k) == RotateN(b, j + k)
    decreases k
  {
    if k > 0 {
      RotateNAdd(b, j, k - 1);
    }
  }

  /** Turning the board for a move and turning it back, in either order,
      restores it. */
  lemma RotateBack(b: Board, d: Direction)
    requires IsBoard(b)
    ensures RotateN(RotateN(b, QuarterTurns(d)), QuarterTurnsBack(d)) == b
    ensures RotateN(RotateN(b, QuarterTurnsBack(d)), QuarterTurns(d)) == b
  {
    RotateNAdd(b, QuarterTurns(d), QuarterTurnsBack(d));
    RotateNAdd(b, QuarterTurnsBack(d), QuarterTurns(d));
    if d != Left {
      assert QuarterTurns(d) + QuarterTurnsBack(d) == 4;
      RotateFour(b);
    }
  }

  function Indicator(p: bool): nat
  {
    if p then 1 else 0
  }

  lemma Count4(a: seq<nat>, x: nat)
    requires |a| == 4
    ensures Count(a, x) == Indicator(a[0] == x) + Indicator(a[1] == x)
                           + Indicator(a[2] == x) + Indicator(a[3] == x)
  {
    assert a == [a[0]] + [a[1]] + [a[2]] + [a[3]];
    CountAppend([a[0]] + [a[1]] + [a[2]], [a[3]], x);
    CountAppend([a[0]] + [a[1]], [a[2]], x);
    CountAppend([a[0]], [a[1]], x);
    assert [a[0]][1..] == [] && [a[1]][1..] == [] && [a[2]][1..] == [] && [a[3]][1..] == [];
  }

  lemma TileSum4(a: seq<nat>)
    requires |a| == 4
    ensures TileSum(a) == CellValue(a[0]) + CellValue(a[1]) + CellValue(a[2]) + CellValue(a[3])
  {
    assert a == [a[0]] + [a[1]] + [a[2]] + [a[3]];
    TileSumAppend([a[0]] + [a[1]] + [a[2]], [a[3]]);
    TileSumAppend([a[0]] + [a[1]], [a[2]]);
    TileSumAppend([a[0]], [a[1]]);
    assert [a[0]][1..] == [] && [a[1]][1..] == [] && [a[2]][1..] == [] && [a[3]][1..] == [];
  }

  /** A quarter turn permutes the cells: every value occurs as often
      after it as before. */
  lemma RotateCounts(b: Board, x: nat)
    requires IsBoard(b)
    ensures Count(Flatten(Rotate(b)), x) == Count(Flatten(b), x)
  {
    var q := Rotate(b);
    FlattenRows(q);
    FlattenRows(b);
    CountAppend(q[0] + q[1] + q[2], q[3], x);
    CountAppend(q[0] + q[1], q[2], x);
    CountAppend(q[0], q[1], x);
    CountAppend(b[0] + b[1] + b[2], b[3], x);
    CountAppend(b[0] + b[1], b[2], x);
    CountAppend(b[0], b[1], x);
    Count4(q[0], x); Count4(q[1], x); Count4(q[2], x); Count4(q[3], x);
    Count4(b[0], x); Count4(b[1], x); Count4(b[2], x); Count4(b[3], x);
  }

  lemma {:induction false} RotateNCounts(b: Board, k: nat, x: nat)
    requires IsBoard(b)
    ensures Count(Flatten(RotateN(b, k)), x) == Count(Flatten(b), x)
  {
    if k > 0 {
      RotateNCounts(b, k - 1, x);
      RotateCounts(RotateN(b, k - 1), x);
    }
  }

  /** The shown total of a board: the sum of 2^v over its tiles. */
  function BoardSum(b: Board): nat
    requires IsBoard(b)
  {
    TileSum(Flatten(b))
  }

  lemma BoardSumRows(b: Board)
    requires IsBoard(b)
    ensures BoardSum(b) == TileSum(b[0]) + TileSum(b[1]) + TileSum(b[2]) + TileSum(b[3])
  {
    FlattenRows(b);
    TileSumAppend(b[0] + b[1] + b[2], b[3]);
    TileSumAppend(b[0] + b[1], b[2]);
    TileSumAppend(b[0], b[1]);
  }

  lemma RotateKeepsSum(b: Board)
    requires IsBoard(b)
    ensures BoardSum(Rotate(b)) == BoardSum(b)
  {
    var q := Rotate(b);
    BoardSumRows(q);
    BoardSumRows(b);
    TileSum4(q[0]); TileSum4(q[1]); TileSum4(q[2]); TileSum4(q[3]);
    TileSum4(b[0]); TileSum4(b[1]); TileSum4(b[2]); TileSum4(b[3]);
  }

  lemma {:induction false} RotateNKeepsSum(b: Board, k: nat)
    requires IsBoard(b)
    ensures BoardSum(RotateN(b, k)) == BoardSum(b)
  {
    if k > 0 {
      RotateNKeepsSum(b, k - 1);
      RotateKeepsSum(RotateN(b, k - 1));
    }
  }

  // ---------------------------------------------------------------------
  // Moves

  /** move_left keeps the shown total: merges only turn two tiles 2^v
      into one tile 2^(v+1). */
  lemma SlideKeepsSum(b: Board)
    requires IsBoard(b)
    ensures BoardSum(SlideLeft(b)) == BoardSum(b)
  {
    var q := SlideLeft(b);
    BoardSumRows(q);
    BoardSumRows(b);
    ResolveConserves(b[0]);
    ResolveConserves(b[1]);
    ResolveConserves(b[2]);
    ResolveConserves(b[3]);
  }

  /** Every move keeps the shown total of the board; only the spawned
      tile adds to it. */
  lemma MovedKeepsSum(d: Direction, b: Board)
    requires IsBoard(b)
    ensures BoardSum(Moved(d, b)) == BoardSum(b)
  {
    var k := QuarterTurns(d);
    RotateNKeepsSum(b, k);
    SlideKeepsSum(RotateN(b, k));
    RotateNKeepsSum(SlideLeft(RotateN(b, k)), QuarterTurnsBack(d));
  }

  /** A move changes the board exactly when move_left changes the turned
      board, so move_right, move_up and move_down count a turn on the
      same rule as move_left. */
  lemma MovedChanged(d: Direction, b: Board)
    requires IsBoard(b)
    ensures Moved(d, b) != b <==> SlideLeft(RotateN(b, QuarterTurns(d))) != RotateN(b, QuarterTurns(d))
  {
    UnmovedSlide(d, b);
    UnslidMoved(d, b);
  }

  lemma UnmovedSlide(d: Direction, b: Board)
    requires IsBoard(b)
    ensures Moved(d, b) == b ==> SlideLeft(RotateN(b, QuarterTurns(d))) == RotateN(b, QuarterTurns(d))
  {
    var s := SlideLeft(RotateN(b, QuarterTurns(d)));
    RotateBack(s, d);
    UndoTurn(b, s, QuarterTurns(d), QuarterTurnsBack(d));
  }

  lemma UnslidMoved(d: Direction, b: Board)
    requires IsBoard(b)
    ensures SlideLeft(RotateN(b, QuarterTurns(d))) == RotateN(b, QuarterTurns(d)) ==> Moved(d, b) == b
  {
    var s := SlideLeft(RotateN(b, QuarterTurns(d)));
    RotateBack(b, d);
    RedoTurn(b, s, QuarterTurns(d), QuarterTurnsBack(d));
  }

  /** If s turned j times is b and turning j then k times gives s back,
      then s is b turned k times. */
  lemma UndoTurn(b: Board, s: Board, k: nat, j: nat)
    requires IsBoard(b) && IsBoard(s)
    requires RotateN(RotateN(s, j), k) == s
    ensures RotateN(s, j) == b ==> s == RotateN(b, k)
  {
  }

  /** If s is b turned k times and turning k then j times gives b back,
      then s turned j times is b. */
  lemma RedoTurn(b: Board, s: Board, k: nat, j: nat)
    requires IsBoard(b) && IsBoard(s)
    requires RotateN(RotateN(b, k), j) == b
    ensures s == RotateN(b, k) ==> RotateN(s, j) == b
  {
  }

  /** A row of a turned-and-slid board that did not change scores
      nothing, so an unchanged board scores nothing. */
  lemma {:induction false} RowsScoreUnchanged(b: Board, k: nat)
    requires IsBoard(b) && k <= N
    requires forall r :: 0 <= r < k ==> Resolve(b[r]) == b[r]
    ensures RowsScore(b, k) == 0
  {
    if k > 0 {
      RowsScoreUnchanged(b, k - 1);
      ResolveScoreUnchanged(b[k - 1]);
    }
  }

  /** A move that leaves the board alone leaves the score alone. */
  lemma UnchangedScoresNothing(d: Direction, b: Board)
    requires IsBoard(b)
    ensures Moved(d, b) == b ==> Gained(d, b) == 0
  {
    var t := RotateN(b, QuarterTurns(d));
    MovedChanged(d, b);
    if SlideLeft(t) == t {
      assert forall r :: 0 <= r < N ==> Resolve(t[r]) == t[r] by {
        forall r | 0 <= r < N ensures Resolve(t[r]) == t[r] {
          assert SlideLeft(t)[r] == Resolve(t[r]);
        }
      }
      RowsScoreUnchanged(t, N);
    }
  }

  /** After a move that changed the board there is an empty cell, so the
      tile that follows always finds room. */
  lemma MovedOpensCell(d: Direction, b: Board)
    requires IsBoard(b)
    ensures Moved(d, b) != b ==> Count(Flatten(Moved(d, b)), 0) > 0
  {
    var t := RotateN(b, QuarterTurns(d));
    MovedChanged(d, b);
    SlideOpensCell(t);
    RotateNCounts(SlideLeft(t), QuarterTurnsBack(d), 0);
  }

  /** A slide that changed the board leaves an empty cell. */
  lemma SlideOpensCell(t: Board)
    requires IsBoard(t)
    ensures SlideLeft(t) != t ==> Count(Flatten(SlideLeft(t)), 0) > 0
  {
    var s := SlideLeft(t);
    if s != t {
      var r :| 0 <= r < N && s[r] != t[r];
      assert s[r] == Resolve(t[r]);
      ResolveOpensCell(t[r]);
      ZeroInRow(s, r);
    }
  }

  /** An empty cell in a row is an empty cell of the board. */
  lemma ZeroInRow(s: Board, r: nat)
    requires IsBoard(s) && r < N && 0 in s[r]
    ensures Count(Flatten(s), 0) > 0
  {
    var c :| 0 <= c < N && s[r][c] == 0;
    assert Flatten(s)[r * N + c] == 0;
    CountPositive(Flatten(s), 0);
  }

  // ---------------------------------------------------------------------
  // The four moves seen one line at a time

  lemma MovedLeftRows(b: Board)
    requires IsBoard(b)
    ensures forall r :: 0 <= r < N ==> Moved(Left, b)[r] == Resolve(b[r])
  {
  }

  lemma MovedRightRows(b: Board)
    requires IsBoard(b)
    ensures forall r :: 0 <= r < N ==> Moved(Right, b)[r] == Reverse(Resolve(Reverse(b[r])))
  {
    var t := RotateN(b, 2);
    var s := SlideLeft(t);
    var q := Moved(Right, b);
    forall r | 0 <= r < N ensures q[r] == Reverse(Resolve(Reverse(b[r]))) {
      assert t[N - 1 - r] == Reverse(b[r]) by {
        forall c | 0 <= c < N ensures t[N - 1 - r][c] == Reverse(b[r])[c] {
          RotateTwiceAt(b, N - 1 - r, c);
        }
      }
      forall c | 0 <= c < N ensures q[r][c] == Reverse(Resolve(Reverse(b[r])))[c] {
        RotateTwiceAt(s, r, c);
      }
    }
  }

  lemma MovedUpColumns(b: Board)
    requires IsBoard(b)
    ensures forall c :: 0 <= c < N ==> Column(Moved(Up, b), c) == Resolve(Column(b, c))
  {
    var t := RotateN(b, 3);
    var s := SlideLeft(t);
    var q := Moved(Up, b);
    assert RotateN(s, 1) == Rotate(s);
    assert q == Rotate(s);
    forall c | 0 <= c < N ensures Column(q, c) == Resolve(Column(b, c)) {
      assert t[N - 1 - c] == Column(b, c) by {
        forall r | 0 <= r < N ensures t[N - 1 - c][r] == Column(b, c)[r] {
          RotateThriceAt(b, N - 1 - c, r);
        }
      }
    }
  }

  lemma MovedDownColumns(b: Board)
    requires IsBoard(b)
    ensures forall c :: 0 <= c < N ==>
              Column(Moved(Down, b), c) == Reverse(Resolve(Reverse(Column(b, c))))
  {
    var t := Rotate(b);
    var s := SlideLeft(t);
    var q := Moved(Down, b);
    assert RotateN(t, 0) == t;
    assert RotateN(b, 1) == t;
    assert q == RotateN(s, 3);
    forall c | 0 <= c < N ensures Column(q, c) == Reverse(Resolve(Reverse(Column(b, c)))) {
      assert t[c] == Reverse(Column(b, c));
      forall r | 0 <= r < N ensures Column(q, c)[r] == Reverse(Resolve(Reverse(Column(b, c))))[r] {
        RotateThriceAt(s, r, c);
      }
    }
  }

  lemma ReverseTwice(s: seq<nat>)
    ensures Reverse(Reverse(s)) == s
  {
  }

  lemma BoardByRows(a: Board, b: Board)
    requires IsBoard(a) && IsBoard(b)
    ensures a == b <==> forall r :: 0 <= r < N ==> a[r] == b[r]
  {
  }

  lemma BoardByColumns(a: Board, b: Board)
    requires IsBoard(a) && IsBoard(b)
    ensures a == b <==> forall c :: 0 <= c < N ==> Column(a, c) == Column(b, c)
  {
    if forall c :: 0 <= c < N ==> Column(a, c) == Column(b, c) {
      forall r | 0 <= r < N ensures a[r] == b[r] {
        forall c | 0 <= c < N ensures a[r][c] == b[r][c] {
          assert Column(a, c)[r] == Column(b, c)[r];
        }
      }
    }
  }

  lemma LeftStuck(b: Board)
    requires IsBoard(b)
    ensures Moved(Left, b) == b <==> forall r :: 0 <= r < N ==> Resolve(b[r]) == b[r]
  {
    MovedLeftRows(b);
    BoardByRows(Moved(Left, b), b);
  }

  lemma RightStuck(b: Board)
    requires IsBoard(b)
    ensures Moved(Right, b) == b
            <==> forall r :: 0 <= r < N ==> Resolve(Reverse(b[r])) == Reverse(b[r])
  {
    MovedRightRows(b);
    BoardByRows(Moved(Right, b), b);
    forall r | 0 <= r < N
      ensures Reverse(Resolve(Reverse(b[r]))) == b[r] <==> Resolve(Reverse(b[r])) == Reverse(b[r])
    {
      ReverseTwice(Resolve(Reverse(b[r])));
      ReverseTwice(b[r]);
    }
  }

  lemma UpStuck(b: Board)
    requires IsBoard(b)
    ensures Moved(Up, b) == b <==> forall c :: 0 <= c < N ==> Resolve(Column(b, c)) == Column(b, c)
  {
    MovedUpColumns(b);
    BoardByColumns(Moved(Up, b), b);
  }

  lemma DownStuck(b: Board)
    requires IsBoard(b)
    ensures Moved(Down, b) == b
            <==> forall c :: 0 <= c < N ==> Resolve(Reverse(Column(b, c))) == Reverse(Column(b, c))
  {
    MovedDownColumns(b);
    BoardByColumns(Moved(Down, b), b);
    forall c | 0 <= c < N
      ensures Reverse(Resolve(Reverse(Column(b, c)))) == Column(b, c)
              <==> Resolve(Reverse(Column(b, c))) == Reverse(Column(b, c))
    {
      ReverseTwice(Resolve(Reverse(Column(b, c))));
      ReverseTwice(Column(b, c));
    }
  }

  predicate RowsStuck(b: Board)
    requires IsBoard(b)
  {
    forall r :: 0 <= r < N ==> StuckLine(b[r])
  }

  predicate ColumnsStuck(b: Board)
    requires IsBoard(b)
  {
    forall c :: 0 <= c < N ==> StuckLine(Column(b, c))
  }

  lemma RowsStuckIff(b: Board)
    requires IsBoard(b)
    ensures Moved(Left, b) == b && Moved(Right, b) == b <==> RowsStuck(b)
  {
    LeftStuck(b);
    RightStuck(b);
  }

  lemma ColumnsStuckIff(b: Board)
    requires IsBoard(b)
    ensures Moved(Up, b) == b && Moved(Down, b) == b <==> ColumnsStuck(b)
  {
    UpStuck(b);
    DownStuck(b);
  }

  /** lose_game holds exactly when every row and every column is stuck. */
  lemma LostByLines(b: Board)
    requires IsBoard(b)
    ensures Lost(b) <==> RowsStuck(b) && ColumnsStuck(b)
  {
    LostMoves(b);
    RowsStuckIff(b);
    ColumnsStuckIff(b);
  }

  /** A board whose rows and columns are all empty or full is empty when
      any cell is empty. */
  lemma EmptyRowEmptiesBoard(b: Board, r0: nat)
    requires IsBoard(b) && r0 < N
    requires AllZero(b[r0])
    requires forall c :: 0 <= c < N ==> AllZero(Column(b, c)) || 0 !in Column(b, c)
    ensures EmptyBoard(b)
  {
    forall c | 0 <= c < N ensures AllZero(Column(b, c)) {
      assert Column(b, c)[r0] == 0;
    }
    forall r | 0 <= r < N ensures AllZero(b[r]) {
      forall c | 0 <= c < N ensures b[r][c] == 0 {
        assert AllZero(Column(b, c));
        assert Column(b, c)[r] == b[r][c];
      }
    }
  }

  lemma FullColumns(b: Board)
    requires IsBoard(b) && FullBoard(b)
    ensures forall c :: 0 <= c < N ==> 0 !in Column(b, c)
  {
    forall c | 0 <= c < N ensures 0 !in Column(b, c) {
      forall r | 0 <= r < N ensures Column(b, c)[r] != 0 {
        assert b[r][c] in b[r];
      }
    }
  }

  lemma ShapeWhenStuck(b: Board)
    requires IsBoard(b)
    requires RowsStuck(b) && ColumnsStuck(b)
    ensures EmptyBoard(b) || (FullBoard(b) && NoEqualNeighbours(b))
  {
    forall r | 0 <= r < N ensures AllZero(b[r]) || (0 !in b[r] && NoEqualPair(b[r])) {
      StuckLineIff(b[r]);
    }
    forall c | 0 <= c < N
      ensures AllZero(Column(b, c)) || (0 !in Column(b, c) && NoEqualPair(Column(b, c)))
    {
      StuckLineIff(Column(b, c));
    }
    if !FullBoard(b) {
      var r0 :| 0 <= r0 < N && 0 in b[r0];
      EmptyRowEmptiesBoard(b, r0);
    } else {
      FullColumns(b);
    }
  }

  lemma StuckWhenShaped(b: Board)
    requires IsBoard(b)
    requires EmptyBoard(b) || (FullBoard(b) && NoEqualNeighbours(b))
    ensures RowsStuck(b) && ColumnsStuck(b)
  {
    forall r | 0 <= r < N ensures StuckLine(b[r]) {
      StuckLineIff(b[r]);
    }
    forall c | 0 <= c < N ensures StuckLine(Column(b, c)) {
      StuckLineIff(Column(b, c));
      if EmptyBoard(b) {
        forall r | 0 <= r < N ensures Column(b, c)[r] == 0 {
          assert AllZero(b[r]);
        }
      } else {
        forall r | 0 <= r < N ensures Column(b, c)[r] != 0 {
          assert b[r][c] in b[r];
        }
      }
    }
  }

  /** The loss test in the terms of the board: lose_game reports a loss
      exactly for the empty board and for a full board with no two equal
      neighbours. */
  lemma LostIff(b: Board)
    requires IsBoard(b)
    ensures Lost(b) <==> EmptyBoard(b) || (FullBoard(b) && NoEqualNeighbours(b))
  {
    LostByLines(b);
    if Lost(b) {
      ShapeWhenStuck(b);
    }
    if EmptyBoard(b) || (FullBoard(b) && NoEqualNeighbours(b)) {
      StuckWhenShaped(b);
    }
  }

  /** A board with at least one empty cell and at least one tile is never
      lost. */
  lemma RoomMeansNotLost(b: Board)
    requires IsBoard(b)
    requires 0 in Flatten(b)
    requires exists i :: 0 <= i < N * N && Flatten(b)[i] != 0
    ensures !Lost(b)
  {
    LostIff(b);
    var i :| 0 <= i < N * N && Flatten(b)[i] != 0;
    assert !AllZero(b[i / N]);
    var j :| 0 <= j < N * N && Flatten(b)[j] == 0;
    assert b[j / N][j % N] == 0;
    assert 0 in b[j / N];
  }
}
