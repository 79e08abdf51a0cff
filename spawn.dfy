/**
  The spawn policy of the 2048 engine (2048_game.c, place_tile).

  The two `random()` draws of place_tile are inputs here: `pick` chooses
  the empty cell and `roll` the value of the new tile.
*/
module Spawn {
  import opened Wrappers
  import opened Line
  import opened Grid

  /** The index of the k-th empty cell of s, counting from 0 in order. */
  function NthZero(s: seq<nat>, k: nat): (i: nat)
    requires k < Count(s, 0)
    ensures i < |s| && s[i] == 0
    ensures Count(s[..i], 0) == k
    decreases |s|
  {
    if s[0] == 0 && k == 0 then
      0
    else
      var j := NthZero(s[1..], if s[0] == 0 then k - 1 else k);
      assert s[..1 + j] == [s[0]] + s[1..][..j];
      CountAppend([s[0]], s[1..][..j], 0);
      assert [s[0]][1..] == [];
      1 + j
  }

  /** The exponent of a new tile: 1 (tile 2) unless the draw is a
      multiple of ten, then 2 (tile 4). */
  function NewTile(roll: nat): (v: nat)
    ensures v == 1 || v == 2
    ensures v == 2 <==> roll % 10 == 0
  {
    if roll % 10 != 0 then 1 else 2
  }

  /** The board with linear cell i set to v. */
  function PlaceAt(b: Board, i: nat, v: nat): (q: Board)
    requires IsBoard(b) && i < N * N
    ensures IsBoard(q)
  {
    var row: seq<nat> := b[i / N][i % N := v];
    b[i / N := row]
  }

  /** place_tile: None when the board has no empty cell (the source
      returns -1), otherwise the board with a new tile in the
      (pick mod #empty)-th empty cell in row-major order. */
  function Spawned(b: Board, pick: nat, roll: nat): Option<Board>
    requires IsBoard(b)
  {
    var zeros := Count(Flatten(b), 0);
    if zeros == 0 then None
    else Some(PlaceAt(b, NthZero(Flatten(b), pick % zeros), NewTile(roll)))
  }

  // ---------------------------------------------------------------------

  lemma FlattenPlaceAt(b: Board, i: nat, v: nat)
    requires IsBoard(b) && i < N * N
    ensures Flatten(PlaceAt(b, i, v)) == Flatten(b)[i := v]
  {
  }

  /** Extending a prefix by one cell adds that cell to the count. */
  lemma CountStep(s: seq<nat>, i: nat, x: nat)
    requires i < |s|
    ensures Count(s[..i + 1], x) == Count(s[..i], x) + Indicator(s[i] == x)
  {
    assert s[..i + 1] == s[..i] + [s[i]];
    CountAppend(s[..i], [s[i]], x);
    assert [s[i]][1..] == [];
  }

  lemma CountPrefixGrows(s: seq<nat>, a: nat, c: nat, x: nat)
    requires a <= c <= |s|
    ensures Count(s[..a], x) <= Count(s[..c], x)
    ensures a < c && s[a] == x ==> Count(s[..a], x) < Count(s[..c], x)
  {
    assert s[..c] == s[..a] + s[a..c];
    CountAppend(s[..a], s[a..c], x);
    if a < c {
      assert s[a..c][0] == s[a];
    }
  }

  /** Only one empty cell has exactly k empty cells before it. */
  lemma NthZeroUnique(s: seq<nat>, k: nat, i: nat)
    requires i < |s| && s[i] == 0 && Count(s[..i], 0) == k
    ensures k < Count(s, 0)
    ensures NthZero(s, k) == i
  {
    assert s[..|s|] == s;
    CountPrefixGrows(s, i, |s|, 0);
    var j := NthZero(s, k);
    if i < j {
      CountPrefixGrows(s, i, j, 0);
    } else if j < i {
      CountPrefixGrows(s, j, i, 0);
    }
  }

  lemma CountUpdate(s: seq<nat>, i: nat, v: nat, x: nat)
    requires i < |s|
    ensures Count(s[i := v], x) + Indicator(s[i] == x) == Count(s, x) + Indicator(v == x)
  {
    assert s == s[..i] + [s[i]] + s[i + 1..];
    assert s[i := v] == s[..i] + [v] + s[i + 1..];
    CountAppend(s[..i] + [s[i]], s[i + 1..], x);
    CountAppend(s[..i], [s[i]], x);
    CountAppend(s[..i] + [v], s[i + 1..], x);
    CountAppend(s[..i], [v], x);
    assert [v][1..] == [] && [s[i]][1..] == [];
  }

  lemma TileSumUpdate(s: seq<nat>, i: nat, v: nat)
    requires i < |s| && s[i] == 0
    ensures TileSum(s[i := v]) == TileSum(s) + CellValue(v)
  {
    assert s == s[..i] + [s[i]] + s[i + 1..];
    assert s[i := v] == s[..i] + [v] + s[i + 1..];
    TileSumAppend(s[..i] + [s[i]], s[i + 1..]);
    TileSumAppend(s[..i], [s[i]]);
    TileSumAppend(s[..i] + [v], s[i + 1..]);
    TileSumAppend(s[..i], [v]);
    assert [v][1..] == [] && [s[i]][1..] == [];
  }

  /** place_tile fails exactly on a full board; otherwise it fills exactly
      one previously empty cell, the (pick mod #empty)-th one in
      row-major order, with a 2 or a 4, and adds that tile to the board's
      shown total. */
  lemma SpawnPlacesOneTile(b: Board, pick: nat, roll: nat)
    requires IsBoard(b)
    ensures Spawned(b, pick, roll).None? <==> 0 !in Flatten(b)
    ensures Spawned(b, pick, roll).Some? ==>
              var before := Flatten(b);
              var after := Flatten(Spawned(b, pick, roll).value);
              exists i :: 0 <= i < N * N && before[i] == 0
                          && Count(before[..i], 0) == pick % Count(before, 0)
                          && after == before[i := NewTile(roll)]
    ensures Spawned(b, pick, roll).Some? ==>
              Count(Flatten(Spawned(b, pick, roll).value), 0) == Count(Flatten(b), 0) - 1
              && BoardSum(Spawned(b, pick, roll).value) == BoardSum(b) + Pow2(NewTile(roll))
  {
    var s := Flatten(b);
    CountPositive(s, 0);
    if Count(s, 0) > 0 {
      var i := NthZero(s, pick % Count(s, 0));
      var v := NewTile(roll);
      FlattenPlaceAt(b, i, v);
      CountUpdate(s, i, v, 0);
      TileSumUpdate(s, i, v);
    }
  }
}
