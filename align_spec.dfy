/**
 * Pure specification of the affine-gap (Gotoh) global aligner: the value of
 * every cell of the three score tables and of the traceback table, the walk
 * back from the last cell, and the order in which bad symbols are reported.
 * Module Aligner computes the same values with loops over 2-D arrays.
 */
module AlignSpec {
  import opened Errors
  import opened Alphabet
  import opened Blosum

  /** The "unreachable" score: INT_MIN / 2 of a 32-bit int. */
  const NEG_INF: int := -1073741824

  /** The table and the two gap costs of one alignment (opening a gap costs gapOpen + gapExt). */
  datatype Scoring = Scoring(table: Table, gapOpen: int, gapExt: int)

  /** One cell: M (best score), Ix (ends in an up move), Iy (ends in a left move), traceback mark. */
  datatype CellVal = CellVal(m: int, ix: int, iy: int, tb: char)

  /** What the walk back reports: identical diagonal pairs, and the number of steps. */
  datatype Counts = Counts(matches: nat, length: nat)

  function Max(a: int, b: int): int
  {
    if a >= b then a else b
  }

  function Min(a: int, b: int): int
  {
    if a <= b then a else b
  }

  /** c is one of the 24 symbols of the alphabet (see IndexOfAgreesWithMap). */
  predicate Known(c: char)
  {
    IndexOf(c).Some?
  }

  /** True when every symbol of s is in the alphabet. */
  predicate AllKnown(s: string)
  {
    forall q :: 0 <= q < |s| ==> Known(s[q])
  }

  /**
   * The symbols the fill loop looks at are all in the alphabet: every symbol
   * of s1 and, when s1 is not empty, every symbol of s2 (an empty s1 runs no
   * row of the fill, so s2 is never looked at).
   */
  predicate Accepted(s1: string, s2: string)
  {
    AllKnown(s1) && (|s1| > 0 ==> AllKnown(s2))
  }

  /**
   * The table indices of the symbols of s, as the fill looks them up. A symbol
   * outside the alphabet is given index 0, which is never used: the fill
   * stops at such a symbol before it scores a cell with it.
   */
  function Indices(s: string): (x: seq<Index>)
    ensures |x| == |s|
  {
    if s == [] then []
    else [match IndexOf(s[0]) case Some(k) => k case None => 0] + Indices(s[1..])
  }

  /** x has one entry per symbol of s, and the entry of a symbol of the alphabet is its index. */
  predicate IndexesOf(x: seq<Index>, s: string)
  {
    && |x| == |s|
    && forall q {:trigger IndexOf(s[q])} :: 0 <= q < |s| && IndexOf(s[q]).Some? ==> x[q] == IndexOf(s[q]).value
  }

  /** Indices(s) indexes s. */
  lemma IndicesIndex(s: string)
    ensures IndexesOf(Indices(s), s)
  {
    forall q | 0 <= q < |s| && IndexOf(s[q]).Some?
      ensures Indices(s)[q] == IndexOf(s[q]).value
    {
      IndicesAt(s, q);
    }
  }

  /** Position q of Indices(s) is the index of the symbol at position q of s. */
  lemma {:induction false} IndicesAt(s: string, q: nat)
    requires q < |s| && Known(s[q])
    ensures Indices(s)[q] == IndexOf(s[q]).value
  {
    if q > 0 {
      IndicesAt(s[1..], q - 1);
    }
  }

  /**
   * One inner cell from its three neighbours: Ix opens a gap below the
   * cell above or extends its Ix, Iy does the same from the cell to the
   * left, and the diagonal candidate adds the pair score to the best of the
   * up-left cell. The mark prefers the diagonal, then up over left, and M is
   * overwritten with the chosen value.
   */
  function Step(g: Scoring, up: CellVal, left: CellVal, corner: CellVal, score: int): (c: CellVal)
    ensures c.tb == 'D' || c.tb == 'U' || c.tb == 'L'
  {
    var ix := Max(up.m - (g.gapOpen + g.gapExt), up.ix - g.gapExt);
    var iy := Max(left.m - (g.gapOpen + g.gapExt), left.iy - g.gapExt);
    var diag := Max(Max(corner.m + score, corner.ix + score), corner.iy + score);
    if diag >= ix && diag >= iy then CellVal(diag, ix, iy, 'D')
    else if ix >= iy then CellVal(ix, ix, iy, 'U')
    else CellVal(iy, ix, iy, 'L')
  }

  /**
   * The values the aligner leaves in cell (i, j): row 0 and column 0 hold the
   * initial gap runs, an inner cell is a Step from its neighbours.
   */
  function Cell(x1: seq<Index>, x2: seq<Index>, g: Scoring, i: nat, j: nat): (c: CellVal)
    requires i <= |x1| && j <= |x2|
    ensures i == 0 && j == 0 ==> c.tb == '0'
    ensures i > 0 && j == 0 ==> c.tb == 'U'
    ensures i == 0 && j > 0 ==> c.tb == 'L'
    ensures i > 0 && j > 0 ==> c.tb == 'D' || c.tb == 'U' || c.tb == 'L'
    decreases i + j
  {
    if i == 0 && j == 0 then
      CellVal(0, NEG_INF, NEG_INF, '0')
    else if j == 0 then
      CellVal(NEG_INF, -g.gapOpen - (i - 1) * g.gapExt, NEG_INF, 'U')
    else if i == 0 then
      CellVal(NEG_INF, NEG_INF, -g.gapOpen - (j - 1) * g.gapExt, 'L')
    else
      Step(g, Cell(x1, x2, g, i - 1, j), Cell(x1, x2, g, i, j - 1), Cell(x1, x2, g, i - 1, j - 1),
           Score(g.table, x1[i - 1], x2[j - 1]))
  }

  /** The traceback table the aligner builds: the mark of every cell. */
  function Marks(x1: seq<Index>, x2: seq<Index>, g: Scoring): (t: seq<seq<char>>)
    ensures |t| == |x1| + 1
    ensures forall a :: 0 <= a <= |x1| ==> |t[a]| == |x2| + 1
    ensures forall a, b :: 0 <= a <= |x1| && 0 <= b <= |x2| ==> t[a][b] == Cell(x1, x2, g, a, b).tb
  {
    seq(|x1| + 1, a requires 0 <= a <= |x1| =>
      seq(|x2| + 1, b requires 0 <= b <= |x2| => Cell(x1, x2, g, a, b).tb))
  }

  /**
   * A traceback table of (m+1) x (n+1) marks that the walk back can follow
   * without leaving it: below (0, 0) column 0 holds 'U', right of (0, 0)
   * row 0 holds marks that read as 'L'. At an inner cell every mark leads
   * to a cell of the table.
   */
  predicate SafeMarks(t: seq<seq<char>>, m: nat, n: nat)
  {
    && |t| == m + 1
    && (forall a :: 0 <= a <= m ==> |t[a]| == n + 1)
    && (forall a :: 0 < a <= m ==> t[a][0] == 'U')
    && (forall b :: 0 < b <= n ==> t[0][b] != 'D' && t[0][b] != 'U')
  }

  /** The table the aligner builds is safe to walk. */
  lemma MarksAreSafe(x1: seq<Index>, x2: seq<Index>, g: Scoring)
    ensures SafeMarks(Marks(x1, x2, g), |x1|, |x2|)
  {
  }

  /**
   * The number of diagonal steps on the walk back from (i, j) to (0, 0). The
   * other steps each consume one symbol of one sequence only, so the walk takes
   * i - d up steps and j - d left steps: it is a global alignment of s1[..i]
   * with s2[..j].
   */
  ghost function Diagonals(t: seq<seq<char>>, m: nat, n: nat, i: nat, j: nat): (d: nat)
    requires SafeMarks(t, m, n)
    requires i <= m && j <= n
    ensures d <= Min(i, j)
    decreases i + j
  {
    if i == 0 && j == 0 then 0
    else if t[i][j] == 'D' then Diagonals(t, m, n, i - 1, j - 1) + 1
    else if t[i][j] == 'U' then Diagonals(t, m, n, i - 1, j)
    else Diagonals(t, m, n, i, j - 1)
  }

  /**
   * The walk back from (i, j) to (0, 0) along the marks of t: 'D' steps to
   * (i-1, j-1) and counts a match when the two symbols are equal, 'U' steps to
   * (i-1, j), any other mark to (i, j-1). Every step adds one to the length,
   * which lies between max(i, j) and i + j; the matches are at most min(i, j).
   */
  function Walk(t: seq<seq<char>>, s1: string, s2: string, i: nat, j: nat): (c: Counts)
    requires SafeMarks(t, |s1|, |s2|)
    requires i <= |s1| && j <= |s2|
    ensures Max(i, j) <= c.length <= i + j
    ensures c.matches <= Min(i, j)
    decreases i + j
  {
    if i == 0 && j == 0 then
      Counts(0, 0)
    else if t[i][j] == 'D' then
      var rest := Walk(t, s1, s2, i - 1, j - 1);
      Counts(rest.matches + (if s1[i - 1] == s2[j - 1] then 1 else 0), rest.length + 1)
    else if t[i][j] == 'U' then
      var rest := Walk(t, s1, s2, i - 1, j);
      Counts(rest.matches, rest.length + 1)
    else
      var rest := Walk(t, s1, s2, i, j - 1);
      Counts(rest.matches, rest.length + 1)
  }

  /**
   * Every step of the walk that is not diagonal consumes a symbol of one
   * sequence only: the length is i + j less the diagonal steps, and only
   * diagonal steps count matches.
   */
  lemma {:induction false} WalkConsumesPrefixes(t: seq<seq<char>>, s1: string, s2: string, i: nat, j: nat)
    requires SafeMarks(t, |s1|, |s2|)
    requires i <= |s1| && j <= |s2|
    ensures Walk(t, s1, s2, i, j).length + Diagonals(t, |s1|, |s2|, i, j) == i + j
    ensures Walk(t, s1, s2, i, j).matches <= Diagonals(t, |s1|, |s2|, i, j)
    decreases i + j
  {
    if i == 0 && j == 0 {
    } else if t[i][j] == 'D' {
      WalkConsumesPrefixes(t, s1, s2, i - 1, j - 1);
    } else if t[i][j] == 'U' {
      WalkConsumesPrefixes(t, s1, s2, i - 1, j);
    } else {
      WalkConsumesPrefixes(t, s1, s2, i, j - 1);
    }
  }

  /** The walk of the aligner: over its own traceback table, from the last cell. */
  function Trace(s1: string, s2: string, g: Scoring): (c: Counts)
    ensures Max(|s1|, |s2|) <= c.length <= |s1| + |s2|
    ensures c.matches <= Min(|s1|, |s2|)
  {
    var x1, x2 := Indices(s1), Indices(s2);
    MarksAreSafe(x1, x2, g);
    Walk(Marks(x1, x2, g), s1, s2, |s1|, |s2|)
  }

  /** Values of row 0 and column 0 after initialisation. */
  lemma BorderCells(x1: seq<Index>, x2: seq<Index>, g: Scoring, i: nat, j: nat)
    requires i <= |x1| && j <= |x2|
    ensures Cell(x1, x2, g, 0, 0) == CellVal(0, NEG_INF, NEG_INF, '0')
    ensures i >= 1 ==> Cell(x1, x2, g, i, 0) == CellVal(NEG_INF, -g.gapOpen - (i - 1) * g.gapExt, NEG_INF, 'U')
    ensures j >= 1 ==> Cell(x1, x2, g, 0, j) == CellVal(NEG_INF, NEG_INF, -g.gapOpen - (j - 1) * g.gapExt, 'L')
  {
  }

  /**
   * A Step obeys the Gotoh recurrence, its mark follows the tie-break
   * (diagonal if the diagonal candidate is at least both gap scores, else up
   * if Ix >= Iy, else left), and M ends as the largest of the three
   * candidates, whichever mark was chosen.
   */
  lemma StepChoosesBest(g: Scoring, up: CellVal, left: CellVal, corner: CellVal, score: int)
    ensures
      var c := Step(g, up, left, corner, score);
      var diag := Max(Max(corner.m, corner.ix), corner.iy) + score;
      && c.ix == Max(up.m - (g.gapOpen + g.gapExt), up.ix - g.gapExt)
      && c.iy == Max(left.m - (g.gapOpen + g.gapExt), left.iy - g.gapExt)
      && (c.tb == 'D' <==> diag >= c.ix && diag >= c.iy)
      && (c.tb == 'U' <==> !(diag >= c.ix && diag >= c.iy) && c.ix >= c.iy)
      && (c.tb == 'L' <==> !(diag >= c.ix && diag >= c.iy) && c.ix < c.iy)
      && c.m == Max(Max(diag, c.ix), c.iy)
      && c.ix <= c.m && c.iy <= c.m
  {
  }

  /** Every inner cell is the Step of its three neighbours and the pair score of its two symbols. */
  lemma InnerCell(x1: seq<Index>, x2: seq<Index>, g: Scoring, i: nat, j: nat)
    requires 1 <= i <= |x1| && 1 <= j <= |x2|
    ensures Cell(x1, x2, g, i, j) ==
      Step(g, Cell(x1, x2, g, i - 1, j), Cell(x1, x2, g, i, j - 1), Cell(x1, x2, g, i - 1, j - 1),
           Score(g.table, x1[i - 1], x2[j - 1]))
  {
  }

  /** The position of the first symbol of s outside the alphabet, or |s| when there is none. */
  function FirstUnknown(s: string): (k: nat)
    ensures k <= |s|
    ensures forall q :: 0 <= q < k ==> Known(s[q])
    ensures k < |s| ==> !Known(s[k])
  {
    if s == [] then 0
    else if !Known(s[0]) then 0
    else 1 + FirstUnknown(s[1..])
  }

  /** A known symbol just past a known prefix extends that prefix. */
  lemma FirstUnknownPast(s: string, k: nat)
    requires k < |s| && FirstUnknown(s) >= k && Known(s[k])
    ensures FirstUnknown(s) > k
  {
  }

  /** An unknown symbol just past a known prefix is the first unknown one. */
  lemma FirstUnknownAt(s: string, k: nat)
    requires k < |s| && FirstUnknown(s) >= k && !Known(s[k])
    ensures FirstUnknown(s) == k
  {
  }

  /**
   * The error the fill loop stops with, in the order it looks at symbols:
   * row 1 looks at s1[0] and then at all of s2, each later row only at its
   * own symbol of s1. An empty s1 is never an error.
   */
  function SymbolError(s1: string, s2: string): (e: Option<Error>)
    ensures e.None? <==> Accepted(s1, s2)
    ensures e.Some? ==> e.value.InvalidAminoAcid? && !Known(e.value.symbol)
    ensures e.Some? && e.value.sequence == Sequence1 ==> e.value.symbol in s1
    ensures e.Some? && e.value.sequence == Sequence2 ==> e.value.symbol in s2
  {
    if |s1| == 0 then None
    else if !Known(s1[0]) then Some(InvalidAminoAcid(Sequence1, s1[0]))
    else if FirstUnknown(s2) < |s2| then Some(InvalidAminoAcid(Sequence2, s2[FirstUnknown(s2)]))
    else if FirstUnknown(s1) < |s1| then Some(InvalidAminoAcid(Sequence1, s1[FirstUnknown(s1)]))
    else None
  }

  /** The outcome of one alignment: the first bad symbol, or the counts of the walk back. */
  function Align(s1: string, s2: string, g: Scoring): (r: Result<Counts>)
    ensures r.Err? <==> !Accepted(s1, s2)
    ensures r.Err? ==> r.error == SymbolError(s1, s2).value
    ensures r.Ok? ==> Max(|s1|, |s2|) <= r.value.length <= |s1| + |s2| && r.value.matches <= Min(|s1|, |s2|)
  {
    match SymbolError(s1, s2)
    case Some(e) => Err(e)
    case None => Ok(Trace(s1, s2, g))
  }

  /**
   * The value calculate_similarity returns for one pair: the error, or
   * matches / length of the walk back.
   */
  function PairSimilarity(s1: string, s2: string, g: Scoring): (r: Result<Option<real>>)
    ensures r.Err? <==> !Accepted(s1, s2)
    ensures r.Err? ==> r.error == SymbolError(s1, s2).value
    ensures r.Ok? ==> r.value == Similarity(Trace(s1, s2, g))
  {
    match Align(s1, s2, g)
    case Err(e) => Err(e)
    case Ok(c) => Ok(Similarity(c))
  }

  /**
   * matches / length, with None standing for the 0/0 of two empty sequences
   * (a NaN in floating point).
   */
  function Similarity(c: Counts): (r: Option<real>)
    requires c.matches <= c.length
    ensures r.None? <==> c.length == 0
    ensures r.Some? ==> 0.0 <= r.value <= 1.0
    ensures r.Some? ==> r.value * (c.length as real) == c.matches as real
  {
    if c.length == 0 then None else Some(c.matches as real / c.length as real)
  }

  /**
   * An alignment fails exactly when a looked-at symbol is outside the
   * alphabet; otherwise its counts are within the bounds of a global
   * alignment, and the similarity lies in [0, 1] unless both sequences are
   * empty.
   */
  lemma {:induction false} AlignOutcome(s1: string, s2: string, g: Scoring)
    ensures Align(s1, s2, g).Err? <==>
      (exists q :: 0 <= q < |s1| && !Known(s1[q])) ||
      (|s1| > 0 && exists q :: 0 <= q < |s2| && !Known(s2[q]))
    ensures Align(s1, s2, g).Ok? ==>
      var c := Align(s1, s2, g).value;
      && Max(|s1|, |s2|) <= c.length <= |s1| + |s2|
      && c.matches <= Min(|s1|, |s2|)
      && (Similarity(c).None? <==> |s1| + |s2| == 0)
      && (Similarity(c).Some? ==> 0.0 <= Similarity(c).value <= 1.0)
  {
  }
}
