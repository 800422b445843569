/**
 * The aligner as the program runs it: four (m+1) x (n+1) tables filled row
 * by row, then a walk back from the last cell. Each method is proved to leave
 * the values of the specification in module AlignSpec.
 */
module Aligner {
  import opened Errors
  import opened Alphabet
  import opened Blosum
  import opened AlignSpec

  /** The four tables have m+1 rows and n+1 columns and are four different arrays. */
  ghost predicate Shaped(M: array2<int>, Ix: array2<int>, Iy: array2<int>, tb: array2<char>, m: nat, n: nat)
  {
    && M.Length0 == m + 1 && M.Length1 == n + 1
    && Ix.Length0 == m + 1 && Ix.Length1 == n + 1
    && Iy.Length0 == m + 1 && Iy.Length1 == n + 1
    && tb.Length0 == m + 1 && tb.Length1 == n + 1
    && M != Ix && M != Iy && Ix != Iy
  }

  /** Row 0 and column 0: the start cell and the two initial gap runs. Inner cells keep their values. */
  method InitBorders(M: array2<int>, Ix: array2<int>, Iy: array2<int>, tb: array2<char>,
                     s1: string, s2: string, ghost x1: seq<Index>, ghost x2: seq<Index>, g: Scoring)
    requires Shaped(M, Ix, Iy, tb, |s1|, |s2|)
    requires |x1| == |s1| && |x2| == |s2|
    modifies M, Ix, Iy, tb
    ensures forall a :: 0 <= a <= |s1| ==> Cell(x1, x2, g, a, 0) == CellVal(M[a, 0], Ix[a, 0], Iy[a, 0], tb[a, 0])
    ensures forall b :: 0 <= b <= |s2| ==> Cell(x1, x2, g, 0, b) == CellVal(M[0, b], Ix[0, b], Iy[0, b], tb[0, b])
    ensures forall a, b :: 1 <= a <= |s1| && 1 <= b <= |s2| ==>
      M[a, b] == old(M[a, b]) && Ix[a, b] == old(Ix[a, b]) && Iy[a, b] == old(Iy[a, b]) && tb[a, b] == old(tb[a, b])
  {
    M[0, 0] := 0;
    Ix[0, 0] := NEG_INF;
    Iy[0, 0] := NEG_INF;
    tb[0, 0] := '0';
    InitColumn(M, Ix, Iy, tb, g);
    InitRow(M, Ix, Iy, tb, g);
  }

  /** Column 0 below the start cell: a vertical gap run in Ix, marked 'U'. No other cell changes. */
  method InitColumn(M: array2<int>, Ix: array2<int>, Iy: array2<int>, tb: array2<char>, g: Scoring)
    requires M.Length0 >= 1 && M.Length1 >= 1 && Shaped(M, Ix, Iy, tb, M.Length0 - 1, M.Length1 - 1)
    modifies M, Ix, Iy, tb
    ensures forall a :: 1 <= a < M.Length0 ==>
      M[a, 0] == NEG_INF && Ix[a, 0] == -g.gapOpen - (a - 1) * g.gapExt && Iy[a, 0] == NEG_INF && tb[a, 0] == 'U'
    ensures forall a, b :: 0 <= a < M.Length0 && 0 <= b < M.Length1 && (a == 0 || b != 0) ==>
      M[a, b] == old(M[a, b]) && Ix[a, b] == old(Ix[a, b]) && Iy[a, b] == old(Iy[a, b]) && tb[a, b] == old(tb[a, b])
  {
    for i := 1 to M.Length0
      invariant forall a :: 1 <= a < i ==>
        M[a, 0] == NEG_INF && Ix[a, 0] == -g.gapOpen - (a - 1) * g.gapExt && Iy[a, 0] == NEG_INF && tb[a, 0] == 'U'
      invariant forall a, b :: 0 <= a < M.Length0 && 0 <= b < M.Length1 && (a == 0 || b != 0) ==>
        M[a, b] == old(M[a, b]) && Ix[a, b] == old(Ix[a, b]) && Iy[a, b] == old(Iy[a, b]) && tb[a, b] == old(tb[a, b])
    {
      M[i, 0] := NEG_INF;
      Ix[i, 0] := -g.gapOpen - (i - 1) * g.gapExt;
      Iy[i, 0] := NEG_INF;
      tb[i, 0] := 'U';
    }
  }

  /** Row 0 right of the start cell: a horizontal gap run in Iy, marked 'L'. No other cell changes. */
  method InitRow(M: array2<int>, Ix: array2<int>, Iy: array2<int>, tb: array2<char>, g: Scoring)
    requires M.Length0 >= 1 && M.Length1 >= 1 && Shaped(M, Ix, Iy, tb, M.Length0 - 1, M.Length1 - 1)
    modifies M, Ix, Iy, tb
    ensures forall b :: 1 <= b < M.Length1 ==>
      M[0, b] == NEG_INF && Ix[0, b] == NEG_INF && Iy[0, b] == -g.gapOpen - (b - 1) * g.gapExt && tb[0, b] == 'L'
    ensures forall a, b :: 0 <= a < M.Length0 && 0 <= b < M.Length1 && (a != 0 || b == 0) ==>
      M[a, b] == old(M[a, b]) && Ix[a, b] == old(Ix[a, b]) && Iy[a, b] == old(Iy[a, b]) && tb[a, b] == old(tb[a, b])
  {
    for j := 1 to M.Length1
      invariant forall b :: 1 <= b < j ==>
        M[0, b] == NEG_INF && Ix[0, b] == NEG_INF && Iy[0, b] == -g.gapOpen - (b - 1) * g.gapExt && tb[0, b] == 'L'
      invariant forall a, b :: 0 <= a < M.Length0 && 0 <= b < M.Length1 && (a != 0 || b == 0) ==>
        M[a, b] == old(M[a, b]) && Ix[a, b] == old(Ix[a, b]) && Iy[a, b] == old(Iy[a, b]) && tb[a, b] == old(tb[a, b])
    {
      M[0, j] := NEG_INF;
      Ix[0, j] := NEG_INF;
      Iy[0, j] := -g.gapOpen - (j - 1) * g.gapExt;
      tb[0, j] := 'L';
    }
  }

  /**
   * Fills the inner cells row by row. Each row first looks up its symbol of
   * s1 and then fills its cells; the fill stops at the first symbol outside
   * the alphabet, and the error it stops with is SymbolError's. Without an
   * error every cell holds the values of the specification.
   */
  method Fill(M: array2<int>, Ix: array2<int>, Iy: array2<int>, tb: array2<char>,
              s1: string, s2: string, ghost x1: seq<Index>, ghost x2: seq<Index>, g: Scoring)
    returns (err: Option<Error>)
    requires Shaped(M, Ix, Iy, tb, |s1|, |s2|)
    requires IndexesOf(x1, s1) && IndexesOf(x2, s2)
    requires forall a :: 0 <= a <= |s1| ==> Cell(x1, x2, g, a, 0) == CellVal(M[a, 0], Ix[a, 0], Iy[a, 0], tb[a, 0])
    requires forall b :: 0 <= b <= |s2| ==> Cell(x1, x2, g, 0, b) == CellVal(M[0, b], Ix[0, b], Iy[0, b], tb[0, b])
    modifies M, Ix, Iy, tb
    ensures err == SymbolError(s1, s2)
    ensures err.None? ==>
      forall a, b :: 0 <= a <= |s1| && 0 <= b <= |s2| ==> Cell(x1, x2, g, a, b) == CellVal(M[a, b], Ix[a, b], Iy[a, b], tb[a, b])
  {
    var m, n := |s1|, |s2|;
    for i := 1 to m + 1
      invariant FirstUnknown(s1) >= i - 1
      invariant i > 1 ==> FirstUnknown(s2) == |s2|
      invariant forall a :: 0 <= a <= m ==> Cell(x1, x2, g, a, 0) == CellVal(M[a, 0], Ix[a, 0], Iy[a, 0], tb[a, 0])
      invariant forall a, b :: 0 <= a < i && 0 <= b <= n ==> Cell(x1, x2, g, a, b) == CellVal(M[a, b], Ix[a, b], Iy[a, b], tb[a, b])
    {
      var aa1 := s1[i - 1];
      var it1 := Lookup(aa1);
      if it1.None? {
        return Some(InvalidAminoAcid(Sequence1, aa1));
      }
      var rowErr := FillRow(M, Ix, Iy, tb, s1, s2, x1, x2, g, i, it1.value);
      if rowErr.Some? {
        return rowErr;
      }
    }
    return None;
  }

  /**
   * Fills row i, cell by cell: each cell looks up its symbol of s2, stops
   * with an error if it is outside the alphabet, and otherwise takes the best
   * of opening or extending a gap from above (Ix) or from the left (Iy) and of
   * the diagonal move, preferring the diagonal, then up. The rows above and
   * column 0 keep their values.
   */
  method FillRow(M: array2<int>, Ix: array2<int>, Iy: array2<int>, tb: array2<char>,
                 s1: string, s2: string, ghost x1: seq<Index>, ghost x2: seq<Index>, g: Scoring,
                 i: nat, index1: Index) returns (err: Option<Error>)
    requires Shaped(M, Ix, Iy, tb, |s1|, |s2|)
    requires |x1| == |s1| && IndexesOf(x2, s2)
    requires 1 <= i <= |s1| && x1[i - 1] == index1
    requires forall a :: 0 <= a <= |s1| ==> Cell(x1, x2, g, a, 0) == CellVal(M[a, 0], Ix[a, 0], Iy[a, 0], tb[a, 0])
    requires forall a, b :: 0 <= a < i && 0 <= b <= |s2| ==> Cell(x1, x2, g, a, b) == CellVal(M[a, b], Ix[a, b], Iy[a, b], tb[a, b])
    modifies M, Ix, Iy, tb
    ensures err.None? <==> FirstUnknown(s2) == |s2|
    ensures err.Some? ==> FirstUnknown(s2) < |s2| && err.value == InvalidAminoAcid(Sequence2, s2[FirstUnknown(s2)])
    ensures forall a :: 0 <= a <= |s1| ==> Cell(x1, x2, g, a, 0) == CellVal(M[a, 0], Ix[a, 0], Iy[a, 0], tb[a, 0])
    ensures forall a, b :: 0 <= a < i && 0 <= b <= |s2| ==> Cell(x1, x2, g, a, b) == CellVal(M[a, b], Ix[a, b], Iy[a, b], tb[a, b])
    ensures err.None? ==> forall b :: 0 <= b <= |s2| ==> Cell(x1, x2, g, i, b) == CellVal(M[i, b], Ix[i, b], Iy[i, b], tb[i, b])
    ensures forall a, b :: i < a <= |s1| && 0 <= b <= |s2| ==>
      M[a, b] == old(M[a, b]) && Ix[a, b] == old(Ix[a, b]) && Iy[a, b] == old(Iy[a, b]) && tb[a, b] == old(tb[a, b])
  {
    var m, n := |s1|, |s2|;
    for j := 1 to n + 1
      invariant FirstUnknown(s2) >= j - 1
      invariant forall a, b :: 0 <= a <= m && 0 <= b <= n && (a != i || b == 0) ==>
        M[a, b] == old(M[a, b]) && Ix[a, b] == old(Ix[a, b]) && Iy[a, b] == old(Iy[a, b]) && tb[a, b] == old(tb[a, b])
      invariant forall b :: 0 <= b < j ==> Cell(x1, x2, g, i, b) == CellVal(M[i, b], Ix[i, b], Iy[i, b], tb[i, b])
    {
      var aa2 := s2[j - 1];
      var it2 := Lookup(aa2);
      if it2.None? {
        FirstUnknownAt(s2, j - 1);
        return Some(InvalidAminoAcid(Sequence2, aa2));
      }
      FirstUnknownPast(s2, j - 1);
      var index2 := it2.value;
      var score := Score(g.table, index1, index2);

      InnerCell(x1, x2, g, i, j);
      FillCell(M, Ix, Iy, tb, g, i, j, score, Cell(x1, x2, g, i - 1, j), Cell(x1, x2, g, i, j - 1),
               Cell(x1, x2, g, i - 1, j - 1));
    }
    return None;
  }

  /**
   * Cell (i, j) from its three neighbours, as the fill computes it: Ix is the
   * better of opening a gap below the cell above or extending its Ix, Iy the
   * same from the left, M the best diagonal candidate; the mark prefers the
   * diagonal, then up over left, and M is overwritten with the chosen gap
   * score. No other cell changes.
   */
  method FillCell(M: array2<int>, Ix: array2<int>, Iy: array2<int>, tb: array2<char>,
                  g: Scoring, i: nat, j: nat, score: int, ghost up: CellVal, ghost left: CellVal, ghost corner: CellVal)
    requires 1 <= i < M.Length0 && 1 <= j < M.Length1
    requires Shaped(M, Ix, Iy, tb, M.Length0 - 1, M.Length1 - 1)
    requires up == CellVal(M[i - 1, j], Ix[i - 1, j], Iy[i - 1, j], tb[i - 1, j])
    requires left == CellVal(M[i, j - 1], Ix[i, j - 1], Iy[i, j - 1], tb[i, j - 1])
    requires corner == CellVal(M[i - 1, j - 1], Ix[i - 1, j - 1], Iy[i - 1, j - 1], tb[i - 1, j - 1])
    modifies M, Ix, Iy, tb
    ensures CellVal(M[i, j], Ix[i, j], Iy[i, j], tb[i, j]) == Step(g, up, left, corner, score)
    ensures forall a, b :: 0 <= a < M.Length0 && 0 <= b < M.Length1 && (a != i || b != j) ==>
      M[a, b] == old(M[a, b]) && Ix[a, b] == old(Ix[a, b]) && Iy[a, b] == old(Iy[a, b]) && tb[a, b] == old(tb[a, b])
  {
    var ix := Max(M[i - 1, j] - (g.gapOpen + g.gapExt), Ix[i - 1, j] - g.gapExt);
    var iy := Max(M[i, j - 1] - (g.gapOpen + g.gapExt), Iy[i, j - 1] - g.gapExt);
    var diag := Max(Max(M[i - 1, j - 1] + score, Ix[i - 1, j - 1] + score), Iy[i - 1, j - 1] + score);
    Ix[i, j] := ix;
    Iy[i, j] := iy;
    M[i, j] := diag;
    if diag >= ix && diag >= iy {
      tb[i, j] := 'D';
    } else if ix >= iy {
      M[i, j] := ix;
      tb[i, j] := 'U';
    } else {
      M[i, j] := iy;
      tb[i, j] := 'L';
    }
  }


  /**
   * The walk back from the last cell, counting identical diagonal pairs and
   * steps: the counts are those of Walk over the marks in tb.
   */
  method Backtrace(tb: array2<char>, s1: string, s2: string, ghost t: seq<seq<char>>) returns (c: Counts)
    requires tb.Length0 == |s1| + 1 && tb.Length1 == |s2| + 1
    requires SafeMarks(t, |s1|, |s2|)
    requires forall a, b :: 0 <= a <= |s1| && 0 <= b <= |s2| ==> tb[a, b] == t[a][b]
    ensures c == Walk(t, s1, s2, |s1|, |s2|)
  {
    var matches: nat := 0;
    var length: nat := 0;
    var i: nat, j: nat := |s1|, |s2|;
    while i > 0 || j > 0
      invariant i <= |s1| && j <= |s2|
      invariant Walk(t, s1, s2, |s1|, |s2|) ==
        Counts(matches + Walk(t, s1, s2, i, j).matches, length + Walk(t, s1, s2, i, j).length)
      decreases i + j
    {
      var mark := tb[i, j];
      assert mark == t[i][j];
      if mark == 'D' {
        assert i > 0 && j > 0;
        ghost var rest := Walk(t, s1, s2, i - 1, j - 1);
        assert Walk(t, s1, s2, i, j) ==
          Counts(rest.matches + (if s1[i - 1] == s2[j - 1] then 1 else 0), rest.length + 1);
        if s1[i - 1] == s2[j - 1] {
          matches := matches + 1;
        }
        i, j := i - 1, j - 1;
      } else if mark == 'U' {
        assert i > 0;
        ghost var rest := Walk(t, s1, s2, i - 1, j);
        assert Walk(t, s1, s2, i, j) == Counts(rest.matches, rest.length + 1);
        i := i - 1;
      } else {
        assert j > 0;
        ghost var rest := Walk(t, s1, s2, i, j - 1);
        assert Walk(t, s1, s2, i, j) == Counts(rest.matches, rest.length + 1);
        j := j - 1;
      }
      length := length + 1;
    }
    return Counts(matches, length);
  }

  /**
   * One pairwise alignment: the first bad symbol stops it with an error,
   * otherwise the result is matches / length of the walk back, None when both
   * sequences are empty (0 / 0).
   */
  method CalculateSimilarity(s1: string, s2: string, table: Table, gapOpen: int := 10, gapExt: int := 4)
    returns (r: Result<Option<real>>)
    ensures r == PairSimilarity(s1, s2, Scoring(table, gapOpen, gapExt))
  {
    var g := Scoring(table, gapOpen, gapExt);
    var m, n := |s1|, |s2|;
    var M := new int[m + 1, n + 1]((_, _) => NEG_INF);
    var Ix := new int[m + 1, n + 1]((_, _) => NEG_INF);
    var Iy := new int[m + 1, n + 1]((_, _) => NEG_INF);
    var tb := new char[m + 1, n + 1]((_, _) => '0');
    ghost var x1, x2 := Indices(s1), Indices(s2);
    IndicesIndex(s1);
    IndicesIndex(s2);
    InitBorders(M, Ix, Iy, tb, s1, s2, x1, x2, g);
    var err := Fill(M, Ix, Iy, tb, s1, s2, x1, x2, g);
    if err.Some? {
      return Err(err.value);
    }
    ghost var t := Marks(x1, x2, g);
    MarksAreSafe(x1, x2, g);
    var c := Backtrace(tb, s1, s2, t);
    return Ok(Similarity(c));
  }
}
