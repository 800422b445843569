/** The all-pairs similarity matrix over a list of sequences. */
module SimilarityMatrix {
  import opened Errors
  import opened Blosum
  import opened BlosumSelection
  import opened AlignSpec
  import opened Aligner

  /**
   * Pair (a, b), a <= b, is still to be aligned when the pair loop stands at
   * (i, j): the pairs are visited row by row, each row from its diagonal.
   */
  predicate Pending(n: int, i: int, j: int, a: int, b: int)
  {
    0 <= i <= a <= b < n && (i < a || j <= b)
  }

  /** Pair (c, d) is visited before pair (a, b). */
  predicate Earlier(c: int, d: int, a: int, b: int)
  {
    c < a || (c == a && d < b)
  }

  /**
   * The error that stops the pair loop from (i, j) on: that of the first
   * pending pair with a symbol outside the alphabet, if any.
   */
  function PairsError(seqs: seq<string>, i: nat, j: nat): (e: Option<Error>)
    requires i <= j <= |seqs|
    ensures e.Some? ==> e.value.InvalidAminoAcid? && !Known(e.value.symbol)
    decreases |seqs| - i, |seqs| - j
  {
    if i == |seqs| then None
    else if j == |seqs| then PairsError(seqs, i + 1, i + 1)
    else
      match SymbolError(seqs[i], seqs[j])
      case Some(err) => Some(err)
      case None => PairsError(seqs, i, j + 1)
  }

  /** The pair loop runs to its end from (i, j) exactly when the aligner accepts every pending pair. */
  lemma {:induction false} PairsErrorNone(seqs: seq<string>, i: nat, j: nat)
    requires i <= j <= |seqs|
    ensures PairsError(seqs, i, j).None? <==> forall a, b :: Pending(|seqs|, i, j, a, b) ==> Accepted(seqs[a], seqs[b])
    decreases |seqs| - i, |seqs| - j
  {
    if i == |seqs| {
    } else if j == |seqs| {
      PairsErrorNone(seqs, i + 1, i + 1);
      assert forall a, b :: Pending(|seqs|, i, j, a, b) <==> Pending(|seqs|, i + 1, i + 1, a, b);
    } else if SymbolError(seqs[i], seqs[j]).Some? {
      assert Pending(|seqs|, i, j, i, j) && !Accepted(seqs[i], seqs[j]);
    } else {
      PairsErrorNone(seqs, i, j + 1);
      assert Accepted(seqs[i], seqs[j]);
      assert forall a, b :: Pending(|seqs|, i, j, a, b) <==> (a == i && b == j) || Pending(|seqs|, i, j + 1, a, b);
    }
  }

  /**
   * Pair (a, b) is the first pending pair, in visiting order, that the aligner
   * refuses.
   */
  ghost predicate FirstRefused(seqs: seq<string>, i: int, j: int, a: int, b: int)
  {
    Pending(|seqs|, i, j, a, b) && !Accepted(seqs[a], seqs[b]) &&
    forall c, d :: Pending(|seqs|, i, j, c, d) && Earlier(c, d, a, b) ==> Accepted(seqs[c], seqs[d])
  }

  /** The error the pair loop stops with is that of its first refused pair. */
  lemma {:induction false} PairsErrorIsFirst(seqs: seq<string>, i: nat, j: nat) returns (a: nat, b: nat)
    requires i <= j <= |seqs| && PairsError(seqs, i, j).Some?
    ensures FirstRefused(seqs, i, j, a, b)
    ensures PairsError(seqs, i, j) == SymbolError(seqs[a], seqs[b])
    decreases |seqs| - i, |seqs| - j
  {
    if j == |seqs| {
      a, b := PairsErrorIsFirst(seqs, i + 1, i + 1);
    } else if SymbolError(seqs[i], seqs[j]).Some? {
      a, b := i, j;
    } else {
      a, b := PairsErrorIsFirst(seqs, i, j + 1);
    }
  }

  /**
   * Resolves the table by name once, then aligns every pair i <= j and stores
   * the result in both (i, j) and (j, i). An unknown table name stops the call
   * before any alignment; the first pair with a bad symbol stops it with that
   * pair's error.
   */
  method CalculateSimilarityMatrix(seqs: seq<string>, matrixName: string := "BLOSUM62", gapOpen: int := 10, gapExt: int := 4)
    returns (r: Result<array2<Option<real>>>)
    ensures GetSubstitutionMatrix(matrixName).Err? ==> r == Err(InvalidMatrixName(matrixName))
    ensures GetSubstitutionMatrix(matrixName).Ok? ==>
      (r.Err? <==> PairsError(seqs, 0, 0).Some?) && (r.Err? ==> r.error == PairsError(seqs, 0, 0).value)
    ensures r.Ok? ==> GetSubstitutionMatrix(matrixName).Ok? && fresh(r.value)
    ensures r.Ok? ==> r.value.Length0 == |seqs| && r.value.Length1 == |seqs|
    ensures r.Ok? ==> forall a, b :: 0 <= a <= b < |seqs| ==>
      Ok(r.value[a, b]) == PairSimilarity(seqs[a], seqs[b], Scoring(GetSubstitutionMatrix(matrixName).value, gapOpen, gapExt))
    ensures r.Ok? ==> forall a, b :: 0 <= a < |seqs| && 0 <= b < |seqs| ==> r.value[a, b] == r.value[b, a]
  {
    var n := |seqs|;
    var mat := new Option<real>[n, n]((_, _) => Some(0.0));
    var selected := GetSubstitutionMatrix(matrixName);
    if selected.Err? {
      return Err(selected.error);
    }
    var err := AlignPairs(mat, seqs, selected.value, gapOpen, gapExt);
    if err.Some? {
      return Err(err.value);
    }
    return Ok(mat);
  }

  /**
   * The pair loop over a resolved table: aligns every pair i <= j in order,
   * storing each result in (i, j) and (j, i), and stops at the first pair the
   * aligner refuses.
   */
  method AlignPairs(mat: array2<Option<real>>, seqs: seq<string>, table: Table, gapOpen: int, gapExt: int)
    returns (err: Option<Error>)
    requires mat.Length0 == |seqs| && mat.Length1 == |seqs|
    modifies mat
    ensures err == PairsError(seqs, 0, 0)
    ensures err.None? ==> forall a, b :: 0 <= a <= b < |seqs| ==>
      Ok(mat[a, b]) == PairSimilarity(seqs[a], seqs[b], Scoring(table, gapOpen, gapExt)) && mat[b, a] == mat[a, b]
  {
    var n := |seqs|;
    ghost var g := Scoring(table, gapOpen, gapExt);
    for i := 0 to n
      invariant PairsError(seqs, 0, 0) == PairsError(seqs, i, i)
      invariant forall a, b :: 0 <= a <= b < n && a < i ==>
        Ok(mat[a, b]) == PairSimilarity(seqs[a], seqs[b], g) && mat[b, a] == mat[a, b]
    {
      var rowErr := AlignRow(mat, seqs, table, gapOpen, gapExt, i);
      if rowErr.Some? {
        return rowErr;
      }
    }
    return None;
  }

  /** Row i of the pair loop: pairs (i, i), (i, i + 1), ... in order. */
  method AlignRow(mat: array2<Option<real>>, seqs: seq<string>, table: Table, gapOpen: int, gapExt: int, i: nat)
    returns (err: Option<Error>)
    requires mat.Length0 == |seqs| && mat.Length1 == |seqs| && i < |seqs|
    requires forall a, b :: 0 <= a <= b < |seqs| && a < i ==>
      Ok(mat[a, b]) == PairSimilarity(seqs[a], seqs[b], Scoring(table, gapOpen, gapExt)) && mat[b, a] == mat[a, b]
    modifies mat
    ensures err.Some? ==> err == PairsError(seqs, i, i)
    ensures err.None? ==> PairsError(seqs, i, i) == PairsError(seqs, i + 1, i + 1)
    ensures err.None? ==> forall a, b :: 0 <= a <= b < |seqs| && a <= i ==>
      Ok(mat[a, b]) == PairSimilarity(seqs[a], seqs[b], Scoring(table, gapOpen, gapExt)) && mat[b, a] == mat[a, b]
    ensures forall a, b :: i < a < |seqs| && i < b < |seqs| ==> mat[a, b] == old(mat[a, b])
  {
    var n := |seqs|;
    ghost var g := Scoring(table, gapOpen, gapExt);
    var seq1 := seqs[i];
    for j := i to n
      invariant PairsError(seqs, i, i) == PairsError(seqs, i, j)
      invariant forall a, b :: 0 <= a <= b < n && Earlier(a, b, i, j) ==>
        Ok(mat[a, b]) == PairSimilarity(seqs[a], seqs[b], g) && mat[b, a] == mat[a, b]
      invariant forall a, b :: i < a < n && i < b < n ==> mat[a, b] == old(mat[a, b])
    {
      var seq2 := seqs[j];
      var similarity := CalculateSimilarity(seq1, seq2, table, gapOpen, gapExt);
      if similarity.Err? {
        return Some(similarity.error);
      }
      StorePair(mat, i, j, similarity.value);
    }
    return None;
  }

  /** Writes one result into (i, j) and its mirror (j, i); no other entry changes. */
  method StorePair(mat: array2<Option<real>>, i: nat, j: nat, v: Option<real>)
    requires i < mat.Length0 && j < mat.Length1 && j < mat.Length0 && i < mat.Length1
    modifies mat
    ensures mat[i, j] == v && mat[j, i] == v
    ensures forall a, b :: 0 <= a < mat.Length0 && 0 <= b < mat.Length1 && !(a == i && b == j) && !(a == j && b == i) ==>
      mat[a, b] == old(mat[a, b])
  {
    mat[i, j] := v;
    mat[j, i] := v;
  }
}
