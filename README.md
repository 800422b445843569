# DynaAlign pairwise alignment, modelled in Dafny

DynaAlign is an R package. It builds an N x N similarity matrix over a list of amino-acid sequences, and each entry comes from a global alignment of the two sequences. The alignment uses affine gaps: the Gotoh variant of Needleman-Wunsch, with three score tables (M, Ix, Iy) and a traceback table. Every cell is scored against one of six BLOSUM substitution tables, which is selected by name. This project models the C++ core in `src/pairwiseSeqAlign.cpp` and proves properties of that model. The core has these parts:

- the map `aa_to_index` from the 24 symbols `ARNDCQEGHILKMFPSTWYVBZX*` to table indices (`alphabet.dfy`);
- the six 24 x 24 tables BLOSUM62, 45, 50, 80, 90 and 100 (`blosum_tables.dfy`). Each entry is copied from the source, lines 20-183;
- `getSubstitutionMatrix`, which selects a table by its exact name (`blosum.dfy`);
- `calculate_similarity`, which does the following:
  - it initialises the borders, fills the tables row by row and stops at the first symbol outside the alphabet;
  - its tie-break prefers the diagonal, then up over left, and overwrites M with the chosen score;
  - it walks back from the last cell, counting identical diagonal pairs and steps;
  - it returns matches / length.

  The pure specification is in `align_spec.dfy`. `aligner.dfy` holds the same algorithm over `array2` tables with loops, proved to leave exactly the values of the specification;
- `calculateSimilarityMatrix` (`similarity_matrix.dfy`):
  - it selects the table once, so an invalid name fails before any alignment;
  - it aligns every pair i <= j in order and writes each result to both (i, j) and (j, i);
  - it stops with the error of the first pair, in visiting order, that the aligner refuses.

`worked_alignments.dfy` computes several alignments cell by cell. Two of them exhibit properties the code does not have; see "Properties the code does not have" below.

In the model, `Rcpp::stop` becomes the `Err` case of a `Result` (`errors.dfy`). The 0/0 of two empty sequences, which is a NaN in the program, becomes `None`.

## Model

| member | source | states |
|---|---|---|
| Alphabet.AaToIndexAgreesWithSymbols | src/pairwiseSeqAlign.cpp:12-18 | the map sends each key to its position in the 24-symbol alphabet, so no two symbols share an index |
| Alphabet.AaToIndexOnto | src/pairwiseSeqAlign.cpp:12-18 | every index 0..23 is the image of the alphabet symbol at that position |
| Alphabet.AaToIndexKeys | src/pairwiseSeqAlign.cpp:12-18 | the keys of the map are exactly the 24 alphabet symbols |
| Alphabet.IndexOfSymbol | src/pairwiseSeqAlign.cpp:12-18 | the case analysis gives the symbol at position k the index k |
| Alphabet.IndexOfIsPosition | src/pairwiseSeqAlign.cpp:12-18 | an index found for a character is that character's position in the alphabet |
| Alphabet.IndexOfAgreesWithMap | src/pairwiseSeqAlign.cpp:12-18 | the case analysis used by the proofs finds a character iff the map has it as a key, and with the map's index |
| Alphabet.Lookup | src/pairwiseSeqAlign.cpp:236-238 | `aa_to_index.find`: the index of a key, and None (the `end()` iterator) for any other character |
| Alphabet.LowerCaseAndDigitsAbsent | src/pairwiseSeqAlign.cpp:12-18 | no lower-case letter and no digit is a key, so lookup is case-sensitive |
| BlosumSelection.GetSubstitutionMatrix | src/pairwiseSeqAlign.cpp:187-203 | a name succeeds iff it is one of the six exact names, and then gives that name's table; any other string is an invalid-name error carrying the string |
| BlosumSelection.NameRoundTrip | src/pairwiseSeqAlign.cpp:187-203 | each of the six tables has its own name, and selecting by that name returns that table |
| AlignSpec.Indices | src/pairwiseSeqAlign.cpp:236-248 | the looked-up index sequence has one entry per symbol |
| AlignSpec.IndicesIndex | src/pairwiseSeqAlign.cpp:236-248 | the index used for each symbol in the alphabet is that symbol's map index |
| AlignSpec.IndicesAt | src/pairwiseSeqAlign.cpp:236-248 | the same, at one position, by induction on the sequence |
| AlignSpec.Step | src/pairwiseSeqAlign.cpp:251-276 | an inner cell's mark is always 'D', 'U' or 'L' |
| AlignSpec.Cell | src/pairwiseSeqAlign.cpp:219-276 | cell (0,0) is marked '0', the rest of column 0 'U', the rest of row 0 'L', every inner cell 'D', 'U' or 'L' |
| AlignSpec.Marks | src/pairwiseSeqAlign.cpp:216-276 | the traceback table has (m+1) x (n+1) entries, each the mark of its cell |
| AlignSpec.MarksAreSafe | src/pairwiseSeqAlign.cpp:221-232 | the marks on the borders lead the walk back toward (0,0) without leaving the table |
| AlignSpec.Diagonals | src/pairwiseSeqAlign.cpp:281-305 | the walk back from (i,j) takes at most min(i,j) diagonal steps |
| AlignSpec.Walk | src/pairwiseSeqAlign.cpp:281-305 | the walk back from (i,j) ends, its length lies between max(i,j) and i+j, and its matches are at most min(i,j) |
| AlignSpec.WalkConsumesPrefixes | src/pairwiseSeqAlign.cpp:281-305 | the length is i+j less the diagonal steps, and only diagonal steps count matches: the walk is a global alignment of the two prefixes |
| AlignSpec.Trace | src/pairwiseSeqAlign.cpp:281-305 | the walk from the last cell has length between max(m,n) and m+n and at most min(m,n) matches |
| AlignSpec.BorderCells | src/pairwiseSeqAlign.cpp:219-232 | M[0][0]=0; column 0 has Ix = -gapOpen-(i-1)*gapExt and mark 'U'; row 0 has Iy = -gapOpen-(j-1)*gapExt and mark 'L'; all other border scores are INT_MIN/2 |
| AlignSpec.StepChoosesBest | src/pairwiseSeqAlign.cpp:251-276 | Ix and Iy follow the open-or-extend recurrence; the mark is 'D' iff the diagonal candidate is at least Ix and Iy, 'U' iff not and Ix >= Iy, 'L' iff not and Ix < Iy; M ends as the largest of the three candidates |
| AlignSpec.InnerCell | src/pairwiseSeqAlign.cpp:250-276 | every inner cell is the step of its up, left and up-left neighbours with the substitution score of its two symbols |
| AlignSpec.FirstUnknown | src/pairwiseSeqAlign.cpp:243-247 | the position of the first symbol outside the alphabet: every symbol before it is in the alphabet, and it is not |
| AlignSpec.SymbolError | src/pairwiseSeqAlign.cpp:235-249 | there is no error iff every symbol the fill looks at is in the alphabet; an error names a symbol outside the alphabet and the sequence that holds it |
| AlignSpec.Align | src/pairwiseSeqAlign.cpp:235-305 | counts or error of one alignment: it fails iff a looked-at symbol is outside the alphabet, with the fill's first error; otherwise length is between max(m,n) and m+n and matches at most min(m,n) |
| AlignSpec.PairSimilarity | src/pairwiseSeqAlign.cpp:206-310 | one alignment fails iff a looked-at symbol is outside the alphabet, with the fill's first error; otherwise it is the similarity of the walk back |
| AlignSpec.Similarity | src/pairwiseSeqAlign.cpp:307-309 | matches / length lies in [0,1] and times length gives back matches; it is undefined (None) exactly when length is 0 |
| AlignSpec.AlignOutcome | src/pairwiseSeqAlign.cpp:206-310 | an alignment fails iff some symbol of s1, or of s2 when s1 is not empty, is outside the alphabet; otherwise the counts are within global-alignment bounds and the similarity is in [0,1], or None iff both sequences are empty |
| Aligner.InitBorders | src/pairwiseSeqAlign.cpp:218-232 | after the initialisation, row 0 and column 0 of the four arrays hold the specified border cells, and every inner cell keeps its allocation value |
| Aligner.InitColumn | src/pairwiseSeqAlign.cpp:221-226 | the loop over column 0 stores INT_MIN/2 in M and Iy, the vertical gap run -gapOpen-(i-1)*gapExt in Ix, and mark 'U'; no other cell changes |
| Aligner.InitRow | src/pairwiseSeqAlign.cpp:227-232 | the loop over row 0 stores INT_MIN/2 in M and Ix, the horizontal gap run -gapOpen-(j-1)*gapExt in Iy, and mark 'L'; no other cell changes |
| Aligner.Fill | src/pairwiseSeqAlign.cpp:234-278 | the fill loop stops with exactly the specified first error, and without an error every cell of the four arrays holds its specified values |
| Aligner.FillRow | src/pairwiseSeqAlign.cpp:242-277 | one row fails iff s2 has a symbol outside the alphabet, with the first such symbol; otherwise the row holds its specified cells; earlier rows keep their specified cells and later rows keep their values |
| Aligner.FillCell | src/pairwiseSeqAlign.cpp:251-276 | the cell receives the step of its neighbours, including the tie-break and the overwrite of M; no other cell changes |
| Aligner.Backtrace | src/pairwiseSeqAlign.cpp:280-305 | the while loop ends with the matches and length of the walk over the traceback array |
| Aligner.CalculateSimilarity | src/pairwiseSeqAlign.cpp:206-310 | the array-based aligner returns exactly the specified result of one alignment; gap costs default to 10 and 4 |
| SimilarityMatrix.PairsError | src/pairwiseSeqAlign.cpp:322-334 | the error the pair loop stops with from (i,j) on: always a bad-symbol error naming a symbol outside the alphabet (PairsErrorNone and PairsErrorIsFirst characterise it fully) |
| SimilarityMatrix.PairsErrorNone | src/pairwiseSeqAlign.cpp:322-334 | the pair loop runs to its end iff the aligner accepts every pair i <= j still to come |
| SimilarityMatrix.PairsErrorIsFirst | src/pairwiseSeqAlign.cpp:322-334 | the error that stops the pair loop is the error of the first refused pair in visiting order |
| SimilarityMatrix.CalculateSimilarityMatrix | src/pairwiseSeqAlign.cpp:313-347 | an invalid name fails with its error before any pair; otherwise the call fails iff some pair i <= j is refused, with the first refusal's error; on success a fresh n x n matrix holds each pair's alignment result at (i,j), i <= j, and is symmetric; the name defaults to BLOSUM62 and the gap costs to 10 and 4 |
| SimilarityMatrix.AlignPairs | src/pairwiseSeqAlign.cpp:322-334 | the nested pair loop stops with the first pair's error, or fills every (i,j), i <= j, and its mirror with that pair's result |
| SimilarityMatrix.AlignRow | src/pairwiseSeqAlign.cpp:324-333 | one row of the pair loop either stops with the first error from (i,i) on, or fills pairs (i,j), j >= i, and their mirrors, keeping earlier rows; entries (a,b) with a, b > i are unchanged |
| SimilarityMatrix.StorePair | src/pairwiseSeqAlign.cpp:331-332 | the result is written to (i,j) and (j,i) and nothing else changes |
| AlignExamples.TraceAcdAce | src/pairwiseSeqAlign.cpp:235-305 | ACD against ACE, BLOSUM62, gaps 10/4: 2 matches in 3 steps |
| AlignExamples.TraceAcAcd | src/pairwiseSeqAlign.cpp:235-305 | AC against ACD, BLOSUM62, gaps 10/4: one gap, 2 matches in 3 steps |
| AlignExamples.TraceXxXx | src/pairwiseSeqAlign.cpp:235-305 | XX against XX, BLOSUM62, gaps 0/0: 1 match in 3 steps |
| AlignExamples.TraceAaAcw | src/pairwiseSeqAlign.cpp:235-305 | AA against ACW, BLOSUM62, gaps 0/0: 1 match in 4 steps |
| AlignExamples.TraceAcwAa | src/pairwiseSeqAlign.cpp:235-305 | ACW against AA, BLOSUM62, gaps 0/0: 1 match in 3 steps |
| AlignExamples.SimilarityAcdAce | src/pairwiseSeqAlign.cpp:206-310 | ACD against ACE gives similarity 2/3 |
| AlignExamples.SelfSimilarityBelowOne | src/pairwiseSeqAlign.cpp:206-310 | XX against itself with free gaps gives 1/3, not 1 |
| AlignExamples.RoleSwapChangesSimilarity | src/pairwiseSeqAlign.cpp:206-310 | AA against ACW gives 1/4 but ACW against AA gives 1/3 |

## Properties the code does not have

- Self-similarity is not always 1. Under BLOSUM62, X scores -1 against itself. With gap costs 0/0, XX against XX takes a path with two gaps and has similarity 1/3 (`AlignExamples.SelfSimilarityBelowOne`). The diagonal of the matrix is whatever `calculate_similarity(s, s)` returns.
- Swapping the two sequences can change the result. The tie-break prefers up over left, so AA/ACW gives 1/4 while ACW/AA gives 1/3 (`AlignExamples.RoleSwapChangesSimilarity`). The matrix is still symmetric, because each unordered pair is aligned once, as (i, j) with i <= j, and the value is mirrored (`SimilarityMatrix.CalculateSimilarityMatrix`).
- Not every symbol of both sequences is checked. The fill loop looks at s2 only inside a row, so when s1 is empty, a bad symbol in s2 is never reported (`AlignSpec.SymbolError`, `AlignSpec.Accepted`).

## Left out

- The R glue is not part of this model: `src/RcppExports.cpp`, the conversion `as<string>`, `NumericMatrix`, and the dimnames labels "1".."n" (lines 336-344).
- `minhash_similarity_matrix` and `needleman_wunsch_score` are declared in `src/RcppExports.cpp` (lines 14 and 27). Their definitions are not part of this model.
- Integers are unbounded. The model does not capture 32-bit overflow of the score arithmetic. It also ignores the `size_t` arithmetic in `-gapOpen - (i - 1) * gapExt` (lines 223 and 230), which gives the intended value whenever that value fits in an `int`.
- Symbols are Dafny characters (Unicode scalar values). The source reads each `char` as one byte of the UTF-8 string that `as<string>` returns. For a symbol outside ASCII, the source reports that symbol's first byte, while the model reports the whole character.
- The result is an exact rational (`real`) rather than a `double`, so it does not model rounding. The NaN of 0/0 is `None`.
- `Rcpp::stop` unwinds through R and never returns. It is modelled as an `Err` value that the callers pass on unchanged. The formatted message text is not modelled; the error carries the offending name or symbol and which sequence held it.
- The model does not prove that the six tables are symmetric. Nothing in the code depends on it.
- `SimilarityMatrix.CalculateSimilarityMatrix`: on an error the program discards the partly filled matrix, so the model states nothing about it.
- `Aligner.CalculateSimilarity`: allocation of the four (m+1) x (n+1) tables is taken as always succeeding.
