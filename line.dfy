/**
  The one-dimensional move primitive of the 2048 engine.

  A row holds tile exponents: 0 is an empty cell and a value v > 0 is the
  tile 2^v.  A left move of one row is deflate, combine, deflate
  (2048_game.c, move_left).  This module gives each step as a function on
  sequences, which the in-place methods of module Engine are proved
  against, and proves what the steps promise about a row.
*/
module Line {

  /** 2^v, the value shown for a tile of exponent v (C: `1 << v`). */
  function Pow2(v: nat): (p: nat)
    ensures p >= 1
  {
    if v == 0 then 1 else 2 * Pow2(v - 1)
  }

  /** The non-empty cells of s, in their original order. */
  function NonZeros(s: seq<nat>): (r: seq<nat>)
    ensures |r| <= |s|
  {
    if s == [] then []
    else (if s[0] == 0 then [] else [s[0]]) + NonZeros(s[1..])
  }

  function Zeros(k: nat): (r: seq<nat>)
    ensures |r| == k
    ensures forall i :: 0 <= i < k ==> r[i] == 0
  {
    seq(k, _ => 0)
  }

  /** No tile stands to the right of an empty cell. */
  predicate Packed(s: seq<nat>)
  {
    forall i, j :: 0 <= i < j < |s| && s[i] == 0 ==> s[j] == 0
  }

  /** deflate_left: the tiles slid to the front, in order, zeros after. */
  function Deflate(s: seq<nat>): (r: seq<nat>)
    ensures |r| == |s|
    ensures Packed(r)
  {
    NonZerosTiles(s);
    NonZeros(s) + Zeros(|s| - |NonZeros(s)|)
  }

  /** True when combine_left merges the pair (i - 1, i) of a row that
      reaches position i unchanged. */
  predicate MergesAt(s: seq<nat>, i: nat)
    requires 0 < i < |s|
  {
    s[i] != 0 && s[i - 1] == s[i]
  }

  /** No adjacent pair of equal tiles. */
  predicate NoMerge(s: seq<nat>)
  {
    forall i :: 0 < i < |s| ==> !MergesAt(s, i)
  }

  /** Two neighbouring cells hold the same value. */
  predicate EqualAt(s: seq<nat>, i: nat)
    requires 0 < i < |s|
  {
    s[i - 1] == s[i]
  }

  predicate NoEqualPair(s: seq<nat>)
  {
    forall i :: 0 < i < |s| ==> !EqualAt(s, i)
  }

  predicate AllZero(s: seq<nat>)
  {
    forall i :: 0 <= i < |s| ==> s[i] == 0
  }

  /** combine_left: one left-to-right sweep that merges each adjacent
      pair of equal tiles into the left cell (exponent + 1) and empties
      the right cell, which the sweep then steps over. */
  function Combine(s: seq<nat>): (r: seq<nat>)
    ensures |r| == |s|
    decreases |s|
  {
    if |s| < 2 then s
    else if s[1] != 0 && s[0] == s[1] then [s[0] + 1, 0] + Combine(s[2..])
    else [s[0]] + Combine(s[1..])
  }

  /** What combine_left adds to the score: 1 << v for every merged pair
      of exponent v (2048_game.c:112 adds `1 << (row[c-1] - 1)` after the
      increment). */
  function CombineScore(s: seq<nat>): nat
    decreases |s|
  {
    if |s| < 2 then 0
    else if s[1] != 0 && s[0] == s[1] then Pow2(s[0]) + CombineScore(s[2..])
    else CombineScore(s[1..])
  }

  /** One row of move_left: deflate, combine, deflate. */
  function Resolve(s: seq<nat>): (r: seq<nat>)
    ensures |r| == |s|
  {
    Deflate(Combine(Deflate(s)))
  }

  /** What one row of move_left adds to the score. */
  function ResolveScore(s: seq<nat>): nat
  {
    CombineScore(Deflate(s))
  }

  /** The value a cell shows: nothing when empty, 2^v for exponent v. */
  function CellValue(v: nat): nat
  {
    if v == 0 then 0 else Pow2(v)
  }

  /** The sum of the shown tile values of a row. */
  function TileSum(s: seq<nat>): nat
  {
    if s == [] then 0
    else CellValue(s[0]) + TileSum(s[1..])
  }

  /** How many cells of s hold x. */
  function Count(s: seq<nat>, x: nat): nat
  {
    if s == [] then 0
    else (if s[0] == x then 1 else 0) + Count(s[1..], x)
  }

  function Reverse(s: seq<nat>): (r: seq<nat>)
    ensures |r| == |s|
    ensures forall i :: 0 <= i < |s| ==> r[i] == s[|s| - 1 - i]
  {
    seq(|s|, i requires 0 <= i < |s| => s[|s| - 1 - i])
  }

  // ---------------------------------------------------------------------
  // Sequence facts

  lemma {:induction false} NonZerosAppend(a: seq<nat>, b: seq<nat>)
    ensures NonZeros(a + b) == NonZeros(a) + NonZeros(b)
    decreases |a|
  {
    if a == [] {
      assert a + b == b;
    } else {
      assert (a + b)[1..] == a[1..] + b;
      NonZerosAppend(a[1..], b);
    }
  }

  /** NonZeros keeps no empty cell. */
  lemma {:induction false} NonZerosTiles(s: seq<nat>)
    ensures 0 !in NonZeros(s)
  {
    if s != [] {
      NonZerosTiles(s[1..]);
    }
  }

  lemma {:induction false} NonZerosOfZeros(k: nat)
    ensures NonZeros(Zeros(k)) == []
  {
    if k > 0 {
      assert Zeros(k)[1..] == Zeros(k - 1);
      NonZerosOfZeros(k - 1);
    }
  }

  /** A row without empty cells is its own list of tiles. */
  lemma {:induction false} NonZerosFull(s: seq<nat>)
    ensures |NonZeros(s)| == |s| <==> 0 !in s
    ensures 0 !in s ==> NonZeros(s) == s
  {
    if s != [] {
      NonZerosFull(s[1..]);
      NonZerosTiles(s[1..]);
      assert s == [s[0]] + s[1..];
    }
  }

  lemma {:induction false} CountAppend(a: seq<nat>, b: seq<nat>, x: nat)
    ensures Count(a + b, x) == Count(a, x) + Count(b, x)
    decreases |a|
  {
    if a == [] {
      assert a + b == b;
    } else {
      assert (a + b)[1..] == a[1..] + b;
      CountAppend(a[1..], b, x);
    }
  }

  /** x occurs in s exactly when it is counted. */
  lemma {:induction false} CountPositive(s: seq<nat>, x: nat)
    ensures Count(s, x) > 0 <==> x in s
  {
    if s != [] {
      CountPositive(s[1..], x);
      assert s == [s[0]] + s[1..];
    }
  }

  lemma {:induction false} TileSumAppend(a: seq<nat>, b: seq<nat>)
    ensures TileSum(a + b) == TileSum(a) + TileSum(b)
    decreases |a|
  {
    if a == [] {
      assert a + b == b;
    } else {
      assert (a + b)[1..] == a[1..] + b;
      TileSumAppend(a[1..], b);
    }
  }

  lemma {:induction false} TileSumNonZeros(s: seq<nat>)
    ensures TileSum(NonZeros(s)) == TileSum(s)
  {
    if s != [] {
      TileSumNonZeros(s[1..]);
      TileSumAppend(if s[0] == 0 then [] else [s[0]], NonZeros(s[1..]));
    }
  }

  lemma {:induction false} TileSumZeros(k: nat)
    ensures TileSum(Zeros(k)) == 0
  {
    if k > 0 {
      assert Zeros(k)[1..] == Zeros(k - 1);
      TileSumZeros(k - 1);
    }
  }

  /** A row has a tile exactly when its shown sum is positive. */
  lemma {:induction false} TileSumPositive(s: seq<nat>)
    ensures TileSum(s) > 0 <==> exists i :: 0 <= i < |s| && s[i] != 0
  {
    if s != [] {
      TileSumPositive(s[1..]);
      if s[0] == 0 {
        forall i | 0 <= i < |s| && s[i] != 0 ensures s[1..][i - 1] != 0 { }
      }
    }
  }

  // ---------------------------------------------------------------------
  // Deflate

  /** deflate_left keeps the tiles, their order and the shown sum. */
  lemma DeflateKeepsTiles(s: seq<nat>)
    ensures NonZeros(Deflate(s)) == NonZeros(s)
    ensures TileSum(Deflate(s)) == TileSum(s)
  {
    var k := |s| - |NonZeros(s)|;
    NonZerosAppend(NonZeros(s), Zeros(k));
    NonZerosOfZeros(k);
    NonZerosTiles(s);
    NonZerosFull(NonZeros(s));
    TileSumAppend(NonZeros(s), Zeros(k));
    TileSumZeros(k);
    TileSumNonZeros(s);
  }

  /** deflate_left leaves a row unchanged exactly when it is packed. */
  lemma {:induction false} DeflateFixed(s: seq<nat>)
    ensures Deflate(s) == s <==> Packed(s)
  {
    if Packed(s) && s != [] {
      if s[0] == 0 {
        assert forall j :: 0 <= j < |s| ==> s[j] == 0;
        NonZerosOfZeros(|s|);
        assert s == Zeros(|s|);
      } else {
        var t := s[1..];
        assert Packed(t) by {
          forall i, j | 0 <= i < j < |t| && t[i] == 0 ensures t[j] == 0 {
            assert s[i + 1] == 0;
          }
        }
        DeflateFixed(t);
        assert NonZeros(s) == [s[0]] + NonZeros(t);
        assert Deflate(s) == [s[0]] + Deflate(t);
        assert s == [s[0]] + t;
      }
    }
  }

  /** Appending a cell keeps a row packed exactly when the cell is empty
      or the row had no empty cell. */
  lemma PackedSnoc(p: seq<nat>, x: nat)
    ensures Packed(p + [x]) <==> Packed(p) && (x == 0 || 0 !in p)
  {
    var s := p + [x];
    if Packed(s) {
      assert Packed(p) by {
        forall i, j | 0 <= i < j < |p| && p[i] == 0 ensures p[j] == 0 {
          assert s[i] == 0 && s[j] == p[j];
        }
      }
      if x != 0 {
        assert 0 !in p by {
          forall i | 0 <= i < |p| ensures p[i] != 0 {
            assert s[i] == p[i] && s[|p|] == x;
          }
        }
      }
    }
  }

  /** One step of deflate_left's scan over the row: a tile is appended to
      the packed prefix, and the scanned part stays packed exactly when
      the new cell is empty or no empty cell has been seen. */
  lemma DeflateScanStep(s: seq<nat>, i: nat)
    requires i < |s|
    ensures NonZeros(s[..i + 1]) == NonZeros(s[..i]) + (if s[i] == 0 then [] else [s[i]])
    ensures Packed(s[..i + 1]) <==> Packed(s[..i]) && (s[i] == 0 || |NonZeros(s[..i])| == i)
  {
    assert s[..i + 1] == s[..i] + [s[i]];
    NonZerosAppend(s[..i], [s[i]]);
    assert [s[i]][1..] == [];
    PackedSnoc(s[..i], s[i]);
    NonZerosFull(s[..i]);
  }

  /** A buffer holding the tiles of s in order and zeros after them is
      the deflated row. */
  lemma DeflateScanDone(s: seq<nat>, buf: seq<nat>, out: nat)
    requires |buf| == |s| && out <= |s|
    requires buf[..out] == NonZeros(s)
    requires forall k :: out <= k < |buf| ==> buf[k] == 0
    ensures buf == Deflate(s)
  {
    assert buf == buf[..out] + buf[out..];
    assert buf[out..] == Zeros(|s| - out);
  }

  // ---------------------------------------------------------------------
  // Combine

  /** combine_left keeps the shown sum of the row. */
  lemma {:induction false} CombineConserves(s: seq<nat>)
    ensures TileSum(Combine(s)) == TileSum(s)
    decreases |s|
  {
    if |s| >= 2 {
      if s[1] != 0 && s[0] == s[1] {
        CombineConserves(s[2..]);
        TileSumAppend([s[0] + 1, 0], Combine(s[2..]));
        assert s == [s[0], s[1]] + s[2..];
        TileSumAppend([s[0], s[1]], s[2..]);
      } else {
        CombineConserves(s[1..]);
        TileSumAppend([s[0]], Combine(s[1..]));
        assert s == [s[0]] + s[1..];
        TileSumAppend([s[0]], s[1..]);
      }
    }
  }

  /** The score gained by one sweep is at most half the shown sum: each
      merged pair 2^v + 2^v pays 2^v. */
  lemma {:induction false} CombineScoreBound(s: seq<nat>)
    ensures 2 * CombineScore(s) <= TileSum(s)
    decreases |s|
  {
    if |s| >= 2 {
      assert s == [s[0], s[1]] + s[2..];
      TileSumAppend([s[0], s[1]], s[2..]);
      if s[1] != 0 && s[0] == s[1] {
        CombineScoreBound(s[2..]);
      } else {
        CombineScoreBound(s[1..]);
        assert s == [s[0]] + s[1..];
        TileSumAppend([s[0]], s[1..]);
      }
    }
  }

  /** combine_left changes a row exactly when it merges something, which
      is exactly when it scores. */
  lemma {:induction false} CombineFixed(s: seq<nat>)
    ensures Combine(s) == s <==> NoMerge(s)
    ensures CombineScore(s) == 0 <==> NoMerge(s)
    decreases |s|
  {
    if |s| >= 2 {
      if s[1] != 0 && s[0] == s[1] {
        assert MergesAt(s, 1);
        assert Combine(s)[0] != s[0];
      } else {
        var t := s[1..];
        CombineFixed(t);
        assert NoMerge(s) <==> NoMerge(t) by {
          if NoMerge(t) {
            forall i | 0 < i < |s| ensures !MergesAt(s, i) {
              if i > 1 { assert !MergesAt(t, i - 1); }
            }
          }
          if NoMerge(s) {
            forall i | 0 < i < |t| ensures !MergesAt(t, i) {
              assert !MergesAt(s, i + 1);
            }
          }
        }
        assert s == [s[0]] + t;
      }
    }
  }

  lemma NonZerosCons(x: nat, t: seq<nat>)
    ensures |NonZeros([x] + t)| == (if x == 0 then 0 else 1) + |NonZeros(t)|
  {
    assert ([x] + t)[1..] == t;
  }

  /** A merge empties a cell: a sweep that changes the row leaves fewer
      tiles, and no sweep adds one. */
  lemma {:induction false} CombineDropsTiles(s: seq<nat>)
    ensures |NonZeros(Combine(s))| <= |NonZeros(s)|
    ensures Combine(s) != s ==> |NonZeros(Combine(s))| < |NonZeros(s)|
    decreases |s|
  {
    if |s| >= 2 {
      if s[1] != 0 && s[0] == s[1] {
        CombineDropsTiles(s[2..]);
        MergeTileCount(s);
      } else {
        CombineDropsTiles(s[1..]);
        KeepTileCount(s);
      }
    }
  }

  /** Merging the front pair turns two tiles into one. */
  lemma MergeTileCount(s: seq<nat>)
    requires |s| >= 2 && s[1] != 0 && s[0] == s[1]
    ensures |NonZeros(Combine(s))| == 1 + |NonZeros(Combine(s[2..]))|
    ensures |NonZeros(s)| == 2 + |NonZeros(s[2..])|
  {
    var c := Combine(s[2..]);
    CombineMergeStep(s);
    CombineFromEmpty(s[2..]);
    NonZerosCons(s[0] + 1, [0] + c);
    NonZerosCons(0, c);
    assert s[1..][1..] == s[2..];
  }

  /** Passing over the front cell keeps it. */
  lemma KeepTileCount(s: seq<nat>)
    requires |s| >= 2 && !(s[1] != 0 && s[0] == s[1])
    ensures |NonZeros(Combine(s))| == (if s[0] == 0 then 0 else 1) + |NonZeros(Combine(s[1..]))|
    ensures |NonZeros(s)| == (if s[0] == 0 then 0 else 1) + |NonZeros(s[1..])|
    ensures Combine(s) != s ==> Combine(s[1..]) != s[1..]
  {
    var r := Combine(s[1..]);
    assert Combine(s) == [s[0]] + r;
    NonZerosCons(s[0], r);
    assert s == [s[0]] + s[1..];
    NonZerosCons(s[0], s[1..]);
  }

  /** The step of combine_left that merges the pair at the front: the
      left cell goes up by one, the right cell empties, and the sweep
      carries on from the emptied cell. */
  lemma CombineMergeStep(t: seq<nat>)
    requires |t| >= 2 && t[1] != 0 && t[0] == t[1]
    ensures Combine(t) == [t[0] + 1] + Combine([0] + t[2..])
    ensures CombineScore(t) == Pow2(t[0]) + CombineScore([0] + t[2..])
  {
    var rest := t[2..];
    CombineFromEmpty(rest);
    var c := Combine(rest);
    assert Combine(t) == [t[0] + 1, 0] + c;
    assert [t[0] + 1, 0] + c == [t[0] + 1] + ([0] + c);
  }

  /** The sweep passes over an empty cell without merging it. */
  lemma CombineFromEmpty(rest: seq<nat>)
    ensures Combine([0] + rest) == [0] + Combine(rest)
    ensures CombineScore([0] + rest) == CombineScore(rest)
  {
    var u := [0] + rest;
    assert u[1..] == rest;
    if rest == [] {
      assert Combine(rest) == [];
    }
  }

  /** The invariant of combine_left's sweep over s when it stands at
      cell c with the row now reading row: the cells before c - 1 are
      final, cell c - 1 is the original one or was emptied by a merge,
      and the cells from c on are untouched. */
  predicate CombineSweep(s: seq<nat>, row: seq<nat>, c: nat)
  {
    1 <= c <= |s| && |row| == |s|
    && row[..c - 1] + Combine(row[c - 1..]) == Combine(s)
    && row[c..] == s[c..]
    && (row[c - 1] == s[c - 1] || row[c - 1] == 0)
  }

  /** Merging the pair (c - 1, c) keeps the sweep invariant, earns
      1 << v for the pair of exponent v and leaves the row different from
      the original. */
  lemma CombineSweepMerge(s: seq<nat>, row: seq<nat>, c: nat)
    requires CombineSweep(s, row, c) && c < |s|
    requires row[c] != 0 && row[c - 1] == row[c]
    ensures CombineSweep(s, row[c - 1 := row[c - 1] + 1][c := 0], c + 1)
    ensures CombineScore(row[c - 1..]) == Pow2(row[c - 1]) + CombineScore(row[c - 1 := row[c - 1] + 1][c := 0][c..])
    ensures row[c - 1 := row[c - 1] + 1][c := 0] != s
  {
    var t := row[c - 1..];
    var next := row[c - 1 := row[c - 1] + 1][c := 0];
    CombineMergeStep(t);
    assert next[..c] == row[..c - 1] + [row[c - 1] + 1];
    assert next[c..] == [0] + t[2..];
    assert row[c] == s[c];
    assert next[c - 1] != s[c - 1];
  }

  /** Passing over a pair that does not merge keeps the sweep invariant
      and earns nothing. */
  lemma CombineSweepKeep(s: seq<nat>, row: seq<nat>, c: nat)
    requires CombineSweep(s, row, c) && c < |s|
    requires !(row[c] != 0 && row[c - 1] == row[c])
    ensures CombineSweep(s, row, c + 1)
    ensures CombineScore(row[c - 1..]) == CombineScore(row[c..])
  {
    var t := row[c - 1..];
    assert Combine(t) == [t[0]] + Combine(t[1..]);
    assert row[..c] == row[..c - 1] + [row[c - 1]];
    assert t[1..] == row[c..];
  }

  /** At the end of the sweep the row is the combined row. */
  lemma CombineSweepDone(s: seq<nat>, row: seq<nat>)
    requires CombineSweep(s, row, |s|)
    ensures row == Combine(s)
    ensures CombineScore(row[|s| - 1..]) == 0
  {
    var n := |s|;
    assert row[n - 1..] == [row[n - 1]];
    assert Combine(row[n - 1..]) == row[n - 1..];
    assert row == row[..n - 1] + row[n - 1..];
  }

  /** The sweep invariant holds before the first step. */
  lemma CombineSweepStart(s: seq<nat>)
    requires |s| >= 1
    ensures CombineSweep(s, s, 1)
  {
    assert s[0..] == s;
  }

  // ---------------------------------------------------------------------
  // One row of move_left

  /** A resolved row has the row's length, is packed and keeps the shown
      sum. */
  lemma ResolveConserves(s: seq<nat>)
    ensures |Resolve(s)| == |s|
    ensures Packed(Resolve(s))
    ensures TileSum(Resolve(s)) == TileSum(s)
    ensures |NonZeros(Resolve(s))| <= |NonZeros(s)|
  {
    var d := Deflate(s);
    DeflateKeepsTiles(s);
    CombineConserves(d);
    CombineDropsTiles(d);
    DeflateKeepsTiles(Combine(d));
  }

  /** The flag move_left ORs together for a row (first deflate, combine,
      second deflate) is set exactly when the row changed. */
  lemma ResolveChanged(s: seq<nat>)
    ensures (Deflate(s) != s || Combine(Deflate(s)) != Deflate(s)
             || Resolve(s) != Combine(Deflate(s))) <==> Resolve(s) != s
  {
    var d := Deflate(s);
    var c := Combine(d);
    DeflateFixed(s);
    DeflateKeepsTiles(s);
    DeflateKeepsTiles(c);
    if d != s {
      // s is not packed but every resolved row is
      assert Resolve(s) != s;
    } else if c != d {
      CombineDropsTiles(d);
      assert |NonZeros(Resolve(s))| < |NonZeros(s)|;
    } else {
      DeflateFixed(c);
    }
  }

  /** A row is left alone by move_left exactly when it is packed and has
      no adjacent equal tiles. */
  lemma ResolveFixed(s: seq<nat>)
    ensures Resolve(s) == s <==> Packed(s) && NoMerge(s)
  {
    ResolveChanged(s);
    DeflateFixed(s);
    if Packed(s) {
      CombineFixed(s);
      if NoMerge(s) {
        DeflateFixed(s);
      }
    }
  }

  /** A row that move_left leaves alone scores nothing. */
  lemma ResolveScoreUnchanged(s: seq<nat>)
    ensures Resolve(s) == s ==> ResolveScore(s) == 0
    ensures ResolveScore(s) > 0 ==> Resolve(s) != s
  {
    ResolveFixed(s);
    DeflateFixed(s);
    CombineFixed(s);
  }

  /** A row changed by move_left has an empty cell afterwards, so the
      tile spawned after a changing move always finds room. */
  lemma ResolveOpensCell(s: seq<nat>)
    ensures Resolve(s) != s ==> 0 in Resolve(s)
  {
    if Resolve(s) != s {
      var d := Deflate(s);
      var c := Combine(d);
      ResolveConserves(s);
      NonZerosFull(s);
      DeflateKeepsTiles(s);
      DeflateKeepsTiles(c);
      DeflateFixed(s);
      if d != s {
        // s is not packed: it has an empty cell, so fewer tiles than cells
        var i, j :| 0 <= i < j < |s| && s[i] == 0 && s[j] != 0;
        assert 0 in s;
      } else {
        assert c != d;
        CombineDropsTiles(d);
      }
      assert |NonZeros(Resolve(s))| < |s|;
      NonZerosFull(Resolve(s));
    }
  }

  /** A row packed towards both ends is empty or full. */
  lemma PackedBothWays(s: seq<nat>)
    ensures Packed(s) && Packed(Reverse(s)) <==> AllZero(s) || 0 !in s
  {
    var r := Reverse(s);
    var n := |s|;
    if Packed(s) && Packed(r) && 0 in s {
      var i :| 0 <= i < n && s[i] == 0;
      forall j | 0 <= j < n ensures s[j] == 0 {
        if j < i {
          assert r[n - 1 - i] == 0 && n - 1 - i < n - 1 - j;
          assert r[n - 1 - j] == s[j];
        } else if j > i {
          assert s[i] == 0;
        }
      }
    }
    if 0 !in s {
      assert forall i :: 0 <= i < n ==> r[i] != 0;
    }
  }

  /** Adjacency of equal tiles in a full row does not depend on the
      direction it is read in. */
  lemma NoMergeReverse(s: seq<nat>)
    requires 0 !in s
    ensures NoMerge(s) <==> NoMerge(Reverse(s))
  {
    var r := Reverse(s);
    var n := |s|;
    if NoMerge(s) {
      forall i | 0 < i < n ensures !MergesAt(r, i) {
        assert !MergesAt(s, n - i);
      }
    }
    if NoMerge(r) {
      forall i | 0 < i < n ensures !MergesAt(s, i) {
        assert !MergesAt(r, n - i);
      }
    }
  }

  /** A line is stuck when sliding it towards either end leaves it
      alone. */
  predicate StuckLine(s: seq<nat>)
  {
    Resolve(s) == s && Resolve(Reverse(s)) == Reverse(s)
  }

  /** A line is stuck exactly when it is empty, or full with no two equal
      neighbours. */
  lemma StuckLineIff(s: seq<nat>)
    ensures StuckLine(s) <==> AllZero(s) || (0 !in s && NoEqualPair(s))
  {
    ResolveFixed(s);
    ResolveFixed(Reverse(s));
    PackedBothWays(s);
    if 0 !in s {
      NoMergeReverse(s);
      assert NoMerge(s) <==> NoEqualPair(s) by {
        if NoMerge(s) {
          forall i | 0 < i < |s| ensures !EqualAt(s, i) {
            assert !MergesAt(s, i);
          }
        }
        if NoEqualPair(s) {
          forall i | 0 < i < |s| ensures !MergesAt(s, i) {
            assert !EqualAt(s, i);
          }
        }
      }
    } else if AllZero(s) {
      var r := Reverse(s);
      assert NoMerge(s) && NoMerge(r) && Packed(s) && Packed(r);
    }
  }

  // ---------------------------------------------------------------------
  // Worked rows

  /** A sweep never reuses a cell emptied by a merge: four equal tiles
      give two pairs, not one tile of exponent + 2. */
  lemma FourEqualTiles()
    ensures Combine([1, 1, 1, 1]) == [2, 0, 2, 0]
    ensures Resolve([1, 1, 1, 1]) == [2, 2, 0, 0]
    ensures ResolveScore([1, 1, 1, 1]) == 4
  {
    DeflateFourOnes();
    CombineFourOnes();
    DeflateTwoPairs();
  }

  lemma DeflateFourOnes()
    ensures Deflate([1, 1, 1, 1]) == [1, 1, 1, 1]
  {
    DeflateFixed([1, 1, 1, 1]);
  }

  lemma CombineFourOnes()
    ensures Combine([1, 1, 1, 1]) == [2, 0, 2, 0]
    ensures CombineScore([1, 1, 1, 1]) == 4
  {
    var s: seq<nat> := [1, 1, 1, 1];
    var t: seq<nat> := [1, 1];
    assert s[2..] == t;
    assert t[2..] == [];
    assert Combine(t) == [2, 0];
    assert CombineScore(t) == 2;
  }

  lemma DeflateTwoPairs()
    ensures Deflate([2, 0, 2, 0]) == [2, 2, 0, 0]
  {
    assert NonZeros([2, 0, 2, 0]) == [2, 2] by {
      assert [2, 0, 2, 0][1..] == [0, 2, 0];
      assert [0, 2, 0][1..] == [2, 0];
      assert [2, 0][1..] == [0];
    }
    assert Zeros(2) == [0, 0];
  }
}
