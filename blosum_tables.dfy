/**
 * The six BLOSUM substitution tables. Rows and columns follow the symbol order
 * of module Alphabet; each row is a named constant (Blosum62A is the row of 'A',
 * Blosum62Stop the row of '*').
 */
module Blosum {
  import opened Alphabet

  /** One row of a substitution table: a score for each of the 24 symbols. */
  type Row = r: seq<int> | |r| == 24 witness seq(24, _ => 0)

  /** A 24 x 24 substitution table, indexed by the symbol indices of module Alphabet. */
  type Table = t: seq<Row> | |t| == 24 witness seq(24, _ => Blosum62Stop)

  /** Score of aligning symbol index a (a row) against symbol index b (a column). */
  function Score(t: Table, a: Index, b: Index): int
  {
    t[a][b]
  }

  const BLOSUM62: Table := [
    Blosum62A, Blosum62R, Blosum62N, Blosum62D, Blosum62C, Blosum62Q,
    Blosum62E, Blosum62G, Blosum62H, Blosum62I, Blosum62L, Blosum62K,
    Blosum62M, Blosum62F, Blosum62P, Blosum62S, Blosum62T, Blosum62W,
    Blosum62Y, Blosum62V, Blosum62B, Blosum62Z, Blosum62X, Blosum62Stop
  ]

  const Blosum62A:    Row := [  4,  -1,  -2,  -2,   0,  -1,  -1,   0,  -2,  -1,  -1,  -1,  -1,  -2,  -1,   1,   0,  -3,  -2,   0,  -2,  -1,   0,  -4]
  const Blosum62R:    Row := [ -1,   5,   0,  -2,  -3,   1,   0,  -2,   0,  -3,  -2,   2,  -1,  -3,  -2,  -1,  -1,  -3,  -2,  -3,  -1,   0,  -1,  -4]
  const Blosum62N:    Row := [ -2,   0,   6,   1,  -3,   0,   0,   0,   1,  -3,  -3,   0,  -2,  -3,  -2,   1,   0,  -4,  -2,  -3,   3,   0,  -1,  -4]
  const Blosum62D:    Row := [ -2,  -2,   1,   6,  -3,   0,   2,  -1,  -1,  -3,  -4,  -1,  -3,  -3,  -1,   0,  -1,  -4,  -3,  -3,   4,   1,  -1,  -4]
  const Blosum62C:    Row := [  0,  -3,  -3,  -3,   9,  -3,  -4,  -3,  -3,  -1,  -1,  -3,  -1,  -2,  -3,  -1,  -1,  -2,  -2,  -1,  -3,  -3,  -2,  -4]
  const Blosum62Q:    Row := [ -1,   1,   0,   0,  -3,   5,   2,  -2,   0,  -3,  -2,   1,   0,  -3,  -1,   0,  -1,  -2,  -1,  -2,   0,   3,  -1,  -4]
  const Blosum62E:    Row := [ -1,   0,   0,   2,  -4,   2,   5,  -2,   0,  -3,  -3,   1,  -2,  -3,  -1,   0,  -1,  -3,  -2,  -2,   1,   4,  -1,  -4]
  const Blosum62G:    Row := [  0,  -2,   0,  -1,  -3,  -2,  -2,   6,  -2,  -4,  -4,  -2,  -3,  -3,  -2,   0,  -2,  -2,  -3,  -3,  -1,  -2,  -1,  -4]
  const Blosum62H:    Row := [ -2,   0,   1,  -1,  -3,   0,   0,  -2,   8,  -3,  -3,  -1,  -2,  -1,  -2,  -1,  -2,  -2,   2,  -3,   0,   0,  -1,  -4]
  const Blosum62I:    Row := [ -1,  -3,  -3,  -3,  -1,  -3,  -3,  -4,  -3,   4,   2,  -3,   1,   0,  -3,  -2,  -1,  -3,  -1,   3,  -3,  -3,  -1,  -4]
  const Blosum62L:    Row := [ -1,  -2,  -3,  -4,  -1,  -2,  -3,  -4,  -3,   2,   4,  -2,   2,   0,  -3,  -2,  -1,  -2,  -1,   1,  -4,  -3,  -1,  -4]
  const Blosum62K:    Row := [ -1,   2,   0,  -1,  -3,   1,   1,  -2,  -1,  -3,  -2,   5,  -1,  -3,  -1,   0,  -1,  -3,  -2,  -2,   0,   1,  -1,  -4]
  const Blosum62M:    Row := [ -1,  -1,  -2,  -3,  -1,   0,  -2,  -3,  -2,   1,   2,  -1,   5,   0,  -2,  -1,  -1,  -1,  -1,   1,  -3,  -1,  -1,  -4]
  const Blosum62F:    Row := [ -2,  -3,  -3,  -3,  -2,  -3,  -3,  -3,  -1,   0,   0,  -3,   0,   6,  -4,  -2,  -2,   1,   3,  -1,  -3,  -3,  -1,  -4]
  const Blosum62P:    Row := [ -1,  -2,  -2,  -1,  -3,  -1,  -1,  -2,  -2,  -3,  -3,  -1,  -2,  -4,   7,  -1,  -1,  -4,  -3,  -2,  -2,  -1,  -2,  -4]
  const Blosum62S:    Row := [  1,  -1,   1,   0,  -1,   0,   0,   0,  -1,  -2,  -2,   0,  -1,  -2,  -1,   4,   1,  -3,  -2,  -2,   0,   0,   0,  -4]
  const Blosum62T:    Row := [  0,  -1,   0,  -1,  -1,  -1,  -1,  -2,  -2,  -1,  -1,  -1,  -1,  -2,  -1,   1,   5,  -2,  -2,   0,  -1,  -1,   0,  -4]
  const Blosum62W:    Row := [ -3,  -3,  -4,  -4,  -2,  -2,  -3,  -2,  -2,  -3,  -2,  -3,  -1,   1,  -4,  -3,  -2,  11,   2,  -3,  -4,  -3,  -2,  -4]
  const Blosum62Y:    Row := [ -2,  -2,  -2,  -3,  -2,  -1,  -2,  -3,   2,  -1,  -1,  -2,  -1,   3,  -3,  -2,  -2,   2,   7,  -1,  -3,  -2,  -1,  -4]
  const Blosum62V:    Row := [  0,  -3,  -3,  -3,  -1,  -2,  -2,  -3,  -3,   3,   1,  -2,   1,  -1,  -2,  -2,   0,  -3,  -1,   4,  -3,  -2,  -1,  -4]
  const Blosum62B:    Row := [ -2,  -1,   3,   4,  -3,   0,   1,  -1,   0,  -3,  -4,   0,  -3,  -3,  -2,   0,  -1,  -4,  -3,  -3,   4,   1,  -1,  -4]
  const Blosum62Z:    Row := [ -1,   0,   0,   1,  -3,   3,   4,  -2,   0,  -3,  -3,   1,  -1,  -3,  -1,   0,  -1,  -3,  -2,  -2,   1,   4,  -1,  -4]
  const Blosum62X:    Row := [  0,  -1,  -1,  -1,  -2,  -1,  -1,  -1,  -1,  -1,  -1,  -1,  -1,  -1,  -2,   0,   0,  -2,  -1,  -1,  -1,  -1,  -1,  -4]
  const Blosum62Stop: Row := [ -4,  -4,  -4,  -4,  -4,  -4,  -4,  -4,  -4,  -4,  -4,  -4,  -4,  -4,  -4,  -4,  -4,  -4,  -4,  -4,  -4,  -4,  -4,   1]

  const BLOSUM45: Table := [
    Blosum45A, Blosum45R, Blosum45N, Blosum45D, Blosum45C, Blosum45Q,
    Blosum45E, Blosum45G, Blosum45H, Blosum45I, Blosum45L, Blosum45K,
    Blosum45M, Blosum45F, Blosum45P, Blosum45S, Blosum45T, Blosum45W,
    Blosum45Y, Blosum45V, Blosum45B, Blosum45Z, Blosum45X, Blosum45Stop
  ]

  const Blosum45A:    Row := [  5,  -2,  -1,  -2,  -1,  -1,  -1,   0,  -2,  -1,  -1,  -1,  -1,  -2,  -1,   1,   0,  -2,  -2,   0,  -1,  -1,   0,  -5]
  const Blosum45R:    Row := [ -2,   7,   0,  -1,  -3,   1,   0,  -2,   0,  -3,  -2,   3,  -1,  -2,  -2,  -1,  -1,  -2,  -1,  -2,  -1,   0,  -1,  -5]
  const Blosum45N:    Row := [ -1,   0,   6,   2,  -2,   0,   0,   0,   1,  -2,  -3,   0,  -2,  -2,  -2,   1,   0,  -4,  -2,  -3,   4,   0,  -1,  -5]
  const Blosum45D:    Row := [ -2,  -1,   2,   7,  -3,   0,   2,  -1,   0,  -4,  -3,   0,  -3,  -4,  -1,   0,  -1,  -4,  -2,  -3,   5,   1,  -1,  -5]
  const Blosum45C:    Row := [ -1,  -3,  -2,  -3,  12,  -3,  -3,  -3,  -3,  -3,  -2,  -3,  -2,  -2,  -4,  -1,  -1,  -5,  -3,  -1,  -2,  -3,  -2,  -5]
  const Blosum45Q:    Row := [ -1,   1,   0,   0,  -3,   6,   2,  -2,   1,  -2,  -2,   1,   0,  -4,  -1,   0,  -1,  -2,  -1,  -3,   0,   4,  -1,  -5]
  const Blosum45E:    Row := [ -1,   0,   0,   2,  -3,   2,   6,  -2,   0,  -3,  -2,   1,  -2,  -3,   0,   0,  -1,  -3,  -2,  -3,   1,   4,  -1,  -5]
  const Blosum45G:    Row := [  0,  -2,   0,  -1,  -3,  -2,  -2,   7,  -2,  -4,  -3,  -2,  -2,  -3,  -2,   0,  -2,  -2,  -3,  -3,  -1,  -2,  -1,  -5]
  const Blosum45H:    Row := [ -2,   0,   1,   0,  -3,   1,   0,  -2,  10,  -3,  -2,  -1,   0,  -2,  -2,  -1,  -2,  -3,   2,  -3,   0,   0,  -1,  -5]
  const Blosum45I:    Row := [ -1,  -3,  -2,  -4,  -3,  -2,  -3,  -4,  -3,   5,   2,  -3,   2,   0,  -2,  -2,  -1,  -2,   0,   3,  -3,  -3,  -1,  -5]
  const Blosum45L:    Row := [ -1,  -2,  -3,  -3,  -2,  -2,  -2,  -3,  -2,   2,   5,  -3,   2,   1,  -3,  -3,  -1,  -2,   0,   1,  -3,  -2,  -1,  -5]
  const Blosum45K:    Row := [ -1,   3,   0,   0,  -3,   1,   1,  -2,  -1,  -3,  -3,   5,  -1,  -3,  -1,  -1,  -1,  -2,  -1,  -2,   0,   1,  -1,  -5]
  const Blosum45M:    Row := [ -1,  -1,  -2,  -3,  -2,   0,  -2,  -2,   0,   2,   2,  -1,   6,   0,  -2,  -2,  -1,  -2,   0,   1,  -2,  -1,  -1,  -5]
  const Blosum45F:    Row := [ -2,  -2,  -2,  -4,  -2,  -4,  -3,  -3,  -2,   0,   1,  -3,   0,   8,  -3,  -2,  -1,   1,   3,   0,  -3,  -3,  -1,  -5]
  const Blosum45P:    Row := [ -1,  -2,  -2,  -1,  -4,  -1,   0,  -2,  -2,  -2,  -3,  -1,  -2,  -3,   9,  -1,  -1,  -3,  -3,  -3,  -2,  -1,  -1,  -5]
  const Blosum45S:    Row := [  1,  -1,   1,   0,  -1,   0,   0,   0,  -1,  -2,  -3,  -1,  -2,  -2,  -1,   4,   2,  -4,  -2,  -1,   0,   0,   0,  -5]
  const Blosum45T:    Row := [  0,  -1,   0,  -1,  -1,  -1,  -1,  -2,  -2,  -1,  -1,  -1,  -1,  -1,  -1,   2,   5,  -3,  -1,   0,   0,  -1,   0,  -5]
  const Blosum45W:    Row := [ -2,  -2,  -4,  -4,  -5,  -2,  -3,  -2,  -3,  -2,  -2,  -2,  -2,   1,  -3,  -4,  -3,  15,   3,  -3,  -4,  -2,  -2,  -5]
  const Blosum45Y:    Row := [ -2,  -1,  -2,  -2,  -3,  -1,  -2,  -3,   2,   0,   0,  -1,   0,   3,  -3,  -2,  -1,   3,   8,  -1,  -2,  -2,  -1,  -5]
  const Blosum45V:    Row := [  0,  -2,  -3,  -3,  -1,  -3,  -3,  -3,  -3,   3,   1,  -2,   1,   0,  -3,  -1,   0,  -3,  -1,   5,  -3,  -3,  -1,  -5]
  const Blosum45B:    Row := [ -1,  -1,   4,   5,  -2,   0,   1,  -1,   0,  -3,  -3,   0,  -2,  -3,  -2,   0,   0,  -4,  -2,  -3,   5,   2,  -1,  -5]
  const Blosum45Z:    Row := [ -1,   0,   0,   1,  -3,   4,   4,  -2,   0,  -3,  -2,   1,  -1,  -3,  -1,   0,  -1,  -2,  -2,  -3,   2,   4,  -1,  -5]
  const Blosum45X:    Row := [  0,  -1,  -1,  -1,  -2,  -1,  -1,  -1,  -1,  -1,  -1,  -1,  -1,  -1,  -1,   0,   0,  -2,  -1,  -1,  -1,  -1,  -1,  -5]
  const Blosum45Stop: Row := [ -5,  -5,  -5,  -5,  -5,  -5,  -5,  -5,  -5,  -5,  -5,  -5,  -5,  -5,  -5,  -5,  -5,  -5,  -5,  -5,  -5,  -5,  -5,   1]

  const BLOSUM50: Table := [
    Blosum50A, Blosum50R, Blosum50N, Blosum50D, Blosum50C, Blosum50Q,
    Blosum50E, Blosum50G, Blosum50H, Blosum50I, Blosum50L, Blosum50K,
    Blosum50M, Blosum50F, Blosum50P, Blosum50S, Blosum50T, Blosum50W,
    Blosum50Y, Blosum50V, Blosum50B, Blosum50Z, Blosum50X, Blosum50Stop
  ]

  const Blosum50A:    Row := [  5,  -2,  -1,  -2,  -1,  -1,  -1,   0,  -2,  -1,  -2,  -1,  -1,  -3,  -1,   1,   0,  -3,  -2,   0,  -2,  -1,  -1,  -5]
  const Blosum50R:    Row := [ -2,   7,  -1,  -2,  -4,   1,   0,  -3,   0,  -4,  -3,   3,  -2,  -3,  -3,  -1,  -1,  -3,  -1,  -3,  -1,   0,  -1,  -5]
  const Blosum50N:    Row := [ -1,  -1,   7,   2,  -2,   0,   0,   0,   1,  -3,  -4,   0,  -2,  -4,  -2,   1,   0,  -4,  -2,  -3,   4,   0,  -1,  -5]
  const Blosum50D:    Row := [ -2,  -2,   2,   8,  -4,   0,   2,  -1,  -1,  -4,  -4,  -1,  -4,  -5,  -1,   0,  -1,  -5,  -3,  -4,   5,   1,  -1,  -5]
  const Blosum50C:    Row := [ -1,  -4,  -2,  -4,  13,  -3,  -3,  -3,  -3,  -2,  -2,  -3,  -2,  -2,  -4,  -1,  -1,  -5,  -3,  -1,  -3,  -3,  -2,  -5]
  const Blosum50Q:    Row := [ -1,   1,   0,   0,  -3,   7,   2,  -2,   1,  -3,  -2,   2,   0,  -4,  -1,   0,  -1,  -1,  -1,  -3,   0,   4,  -1,  -5]
  const Blosum50E:    Row := [ -1,   0,   0,   2,  -3,   2,   6,  -3,   0,  -4,  -3,   1,  -2,  -3,  -1,  -1,  -1,  -3,  -2,  -3,   1,   5,  -1,  -5]
  const Blosum50G:    Row := [  0,  -3,   0,  -1,  -3,  -2,  -3,   8,  -2,  -4,  -4,  -2,  -3,  -4,  -2,   0,  -2,  -3,  -3,  -4,  -1,  -2,  -2,  -5]
  const Blosum50H:    Row := [ -2,   0,   1,  -1,  -3,   1,   0,  -2,  10,  -4,  -3,   0,  -1,  -1,  -2,  -1,  -2,  -3,   2,  -4,   0,   0,  -1,  -5]
  const Blosum50I:    Row := [ -1,  -4,  -3,  -4,  -2,  -3,  -4,  -4,  -4,   5,   2,  -3,   2,   0,  -3,  -3,  -1,  -3,  -1,   4,  -4,  -3,  -1,  -5]
  const Blosum50L:    Row := [ -2,  -3,  -4,  -4,  -2,  -2,  -3,  -4,  -3,   2,   5,  -3,   3,   1,  -4,  -3,  -1,  -2,  -1,   1,  -4,  -3,  -1,  -5]
  const Blosum50K:    Row := [ -1,   3,   0,  -1,  -3,   2,   1,  -2,   0,  -3,  -3,   6,  -2,  -4,  -1,   0,  -1,  -3,  -2,  -3,   0,   1,  -1,  -5]
  const Blosum50M:    Row := [ -1,  -2,  -2,  -4,  -2,   0,  -2,  -3,  -1,   2,   3,  -2,   7,   0,  -3,  -2,  -1,  -1,   0,   1,  -3,  -1,  -1,  -5]
  const Blosum50F:    Row := [ -3,  -3,  -4,  -5,  -2,  -4,  -3,  -4,  -1,   0,   1,  -4,   0,   8,  -4,  -3,  -2,   1,   4,  -1,  -4,  -4,  -2,  -5]
  const Blosum50P:    Row := [ -1,  -3,  -2,  -1,  -4,  -1,  -1,  -2,  -2,  -3,  -4,  -1,  -3,  -4,  10,  -1,  -1,  -4,  -3,  -3,  -2,  -1,  -2,  -5]
  const Blosum50S:    Row := [  1,  -1,   1,   0,  -1,   0,  -1,   0,  -1,  -3,  -3,   0,  -2,  -3,  -1,   5,   2,  -4,  -2,  -2,   0,   0,  -1,  -5]
  const Blosum50T:    Row := [  0,  -1,   0,  -1,  -1,  -1,  -1,  -2,  -2,  -1,  -1,  -1,  -1,  -2,  -1,   2,   5,  -3,  -2,   0,   0,  -1,   0,  -5]
  const Blosum50W:    Row := [ -3,  -3,  -4,  -5,  -5,  -1,  -3,  -3,  -3,  -3,  -2,  -3,  -1,   1,  -4,  -4,  -3,  15,   2,  -3,  -5,  -2,  -3,  -5]
  const Blosum50Y:    Row := [ -2,  -1,  -2,  -3,  -3,  -1,  -2,  -3,   2,  -1,  -1,  -2,   0,   4,  -3,  -2,  -2,   2,   8,  -1,  -3,  -2,  -1,  -5]
  const Blosum50V:    Row := [  0,  -3,  -3,  -4,  -1,  -3,  -3,  -4,  -4,   4,   1,  -3,   1,  -1,  -3,  -2,   0,  -3,  -1,   5,  -4,  -3,  -1,  -5]
  const Blosum50B:    Row := [ -2,  -1,   4,   5,  -3,   0,   1,  -1,   0,  -4,  -4,   0,  -3,  -4,  -2,   0,   0,  -5,  -3,  -4,   5,   2,  -1,  -5]
  const Blosum50Z:    Row := [ -1,   0,   0,   1,  -3,   4,   5,  -2,   0,  -3,  -3,   1,  -1,  -4,  -1,   0,  -1,  -2,  -2,  -3,   2,   5,  -1,  -5]
  const Blosum50X:    Row := [ -1,  -1,  -1,  -1,  -2,  -1,  -1,  -2,  -1,  -1,  -1,  -1,  -1,  -2,  -2,  -1,   0,  -3,  -1,  -1,  -1,  -1,  -1,  -5]
  const Blosum50Stop: Row := [ -5,  -5,  -5,  -5,  -5,  -5,  -5,  -5,  -5,  -5,  -5,  -5,  -5,  -5,  -5,  -5,  -5,  -5,  -5,  -5,  -5,  -5,  -5,   1]

  const BLOSUM80: Table := [
    Blosum80A, Blosum80R, Blosum80N, Blosum80D, Blosum80C, Blosum80Q,
    Blosum80E, Blosum80G, Blosum80H, Blosum80I, Blosum80L, Blosum80K,
    Blosum80M, Blosum80F, Blosum80P, Blosum80S, Blosum80T, Blosum80W,
    Blosum80Y, Blosum80V, Blosum80B, Blosum80Z, Blosum80X, Blosum80Stop
  ]

  const Blosum80A:    Row := [  7,  -3,  -3,  -3,  -1,  -2,  -2,   0,  -3,  -3,  -3,  -1,  -2,  -4,  -1,   2,   0,  -5,  -4,  -1,  -3,  -2,  -1,  -8]
  const Blosum80R:    Row := [ -3,   9,  -1,  -3,  -6,   1,  -1,  -4,   0,  -5,  -4,   3,  -3,  -5,  -3,  -2,  -2,  -5,  -4,  -4,  -2,   0,  -2,  -8]
  const Blosum80N:    Row := [ -3,  -1,   9,   2,  -5,   0,  -1,  -1,   1,  -6,  -6,   0,  -4,  -6,  -4,   1,   0,  -7,  -4,  -5,   5,  -1,  -2,  -8]
  const Blosum80D:    Row := [ -3,  -3,   2,  10,  -7,  -1,   2,  -3,  -2,  -7,  -7,  -2,  -6,  -6,  -3,  -1,  -2,  -8,  -6,  -6,   6,   1,  -3,  -8]
  const Blosum80C:    Row := [ -1,  -6,  -5,  -7,  13,  -5,  -7,  -6,  -7,  -2,  -3,  -6,  -3,  -4,  -6,  -2,  -2,  -5,  -5,  -2,  -6,  -7,  -4,  -8]
  const Blosum80Q:    Row := [ -2,   1,   0,  -1,  -5,   9,   3,  -4,   1,  -5,  -4,   2,  -1,  -5,  -3,  -1,  -1,  -4,  -3,  -4,  -1,   5,  -2,  -8]
  const Blosum80E:    Row := [ -2,  -1,  -1,   2,  -7,   3,   8,  -4,   0,  -6,  -6,   1,  -4,  -6,  -2,  -1,  -2,  -6,  -5,  -4,   1,   6,  -2,  -8]
  const Blosum80G:    Row := [  0,  -4,  -1,  -3,  -6,  -4,  -4,   9,  -4,  -7,  -7,  -3,  -5,  -6,  -5,  -1,  -3,  -6,  -6,  -6,  -2,  -4,  -3,  -8]
  const Blosum80H:    Row := [ -3,   0,   1,  -2,  -7,   1,   0,  -4,  12,  -6,  -5,  -1,  -4,  -2,  -4,  -2,  -3,  -4,   3,  -5,  -1,   0,  -2,  -8]
  const Blosum80I:    Row := [ -3,  -5,  -6,  -7,  -2,  -5,  -6,  -7,  -6,   7,   2,  -5,   2,  -1,  -5,  -4,  -2,  -5,  -3,   4,  -6,  -6,  -2,  -8]
  const Blosum80L:    Row := [ -3,  -4,  -6,  -7,  -3,  -4,  -6,  -7,  -5,   2,   6,  -4,   3,   0,  -5,  -4,  -3,  -4,  -2,   1,  -7,  -5,  -2,  -8]
  const Blosum80K:    Row := [ -1,   3,   0,  -2,  -6,   2,   1,  -3,  -1,  -5,  -4,   8,  -3,  -5,  -2,  -1,  -1,  -6,  -4,  -4,  -1,   1,  -2,  -8]
  const Blosum80M:    Row := [ -2,  -3,  -4,  -6,  -3,  -1,  -4,  -5,  -4,   2,   3,  -3,   9,   0,  -4,  -3,  -1,  -3,  -3,   1,  -5,  -3,  -2,  -8]
  const Blosum80F:    Row := [ -4,  -5,  -6,  -6,  -4,  -5,  -6,  -6,  -2,  -1,   0,  -5,   0,  10,  -6,  -4,  -4,   0,   4,  -2,  -6,  -6,  -3,  -8]
  const Blosum80P:    Row := [ -1,  -3,  -4,  -3,  -6,  -3,  -2,  -5,  -4,  -5,  -5,  -2,  -4,  -6,  12,  -2,  -3,  -7,  -6,  -4,  -4,  -2,  -3,  -8]
  const Blosum80S:    Row := [  2,  -2,   1,  -1,  -2,  -1,  -1,  -1,  -2,  -4,  -4,  -1,  -3,  -4,  -2,   7,   2,  -6,  -3,  -3,   0,  -1,  -1,  -8]
  const Blosum80T:    Row := [  0,  -2,   0,  -2,  -2,  -1,  -2,  -3,  -3,  -2,  -3,  -1,  -1,  -4,  -3,   2,   8,  -5,  -3,   0,  -1,  -2,  -1,  -8]
  const Blosum80W:    Row := [ -5,  -5,  -7,  -8,  -5,  -4,  -6,  -6,  -4,  -5,  -4,  -6,  -3,   0,  -7,  -6,  -5,  16,   3,  -5,  -8,  -5,  -5,  -8]
  const Blosum80Y:    Row := [ -4,  -4,  -4,  -6,  -5,  -3,  -5,  -6,   3,  -3,  -2,  -4,  -3,   4,  -6,  -3,  -3,   3,  11,  -3,  -5,  -4,  -3,  -8]
  const Blosum80V:    Row := [ -1,  -4,  -5,  -6,  -2,  -4,  -4,  -6,  -5,   4,   1,  -4,   1,  -2,  -4,  -3,   0,  -5,  -3,   7,  -6,  -4,  -2,  -8]
  const Blosum80B:    Row := [ -3,  -2,   5,   6,  -6,  -1,   1,  -2,  -1,  -6,  -7,  -1,  -5,  -6,  -4,   0,  -1,  -8,  -5,  -6,   6,   0,  -3,  -8]
  const Blosum80Z:    Row := [ -2,   0,  -1,   1,  -7,   5,   6,  -4,   0,  -6,  -5,   1,  -3,  -6,  -2,  -1,  -2,  -5,  -4,  -4,   0,   6,  -2,  -8]
  const Blosum80X:    Row := [ -1,  -2,  -2,  -3,  -4,  -2,  -2,  -3,  -2,  -2,  -2,  -2,  -2,  -3,  -3,  -1,  -1,  -5,  -3,  -2,  -3,  -2,  -2,  -8]
  const Blosum80Stop: Row := [ -8,  -8,  -8,  -8,  -8,  -8,  -8,  -8,  -8,  -8,  -8,  -8,  -8,  -8,  -8,  -8,  -8,  -8,  -8,  -8,  -8,  -8,  -8,   1]

  const BLOSUM90: Table := [
    Blosum90A, Blosum90R, Blosum90N, Blosum90D, Blosum90C, Blosum90Q,
    Blosum90E, Blosum90G, Blosum90H, Blosum90I, Blosum90L, Blosum90K,
    Blosum90M, Blosum90F, Blosum90P, Blosum90S, Blosum90T, Blosum90W,
    Blosum90Y, Blosum90V, Blosum90B, Blosum90Z, Blosum90X, Blosum90Stop
  ]

  const Blosum90A:    Row := [  5,  -2,  -2,  -3,  -1,  -1,  -1,   0,  -2,  -2,  -2,  -1,  -2,  -3,  -1,   1,   0,  -4,  -3,  -1,  -2,  -1,  -1,  -6]
  const Blosum90R:    Row := [ -2,   6,  -1,  -3,  -5,   1,  -1,  -3,   0,  -4,  -3,   2,  -2,  -4,  -3,  -1,  -2,  -4,  -3,  -3,  -2,   0,  -2,  -6]
  const Blosum90N:    Row := [ -2,  -1,   7,   1,  -4,   0,  -1,  -1,   0,  -4,  -4,   0,  -3,  -4,  -3,   0,   0,  -5,  -3,  -4,   4,  -1,  -2,  -6]
  const Blosum90D:    Row := [ -3,  -3,   1,   7,  -5,  -1,   1,  -2,  -2,  -5,  -5,  -1,  -4,  -5,  -3,  -1,  -2,  -6,  -4,  -5,   4,   0,  -2,  -6]
  const Blosum90C:    Row := [ -1,  -5,  -4,  -5,   9,  -4,  -6,  -4,  -5,  -2,  -2,  -4,  -2,  -3,  -4,  -2,  -2,  -4,  -4,  -2,  -4,  -5,  -3,  -6]
  const Blosum90Q:    Row := [ -1,   1,   0,  -1,  -4,   7,   2,  -3,   1,  -4,  -3,   1,   0,  -4,  -2,  -1,  -1,  -3,  -3,  -3,  -1,   4,  -1,  -6]
  const Blosum90E:    Row := [ -1,  -1,  -1,   1,  -6,   2,   6,  -3,  -1,  -4,  -4,   0,  -3,  -5,  -2,  -1,  -1,  -5,  -4,  -3,   0,   4,  -2,  -6]
  const Blosum90G:    Row := [  0,  -3,  -1,  -2,  -4,  -3,  -3,   6,  -3,  -5,  -5,  -2,  -4,  -5,  -3,  -1,  -3,  -4,  -5,  -5,  -2,  -3,  -2,  -6]
  const Blosum90H:    Row := [ -2,   0,   0,  -2,  -5,   1,  -1,  -3,   8,  -4,  -4,  -1,  -3,  -2,  -3,  -2,  -2,  -3,   1,  -4,  -1,   0,  -2,  -6]
  const Blosum90I:    Row := [ -2,  -4,  -4,  -5,  -2,  -4,  -4,  -5,  -4,   5,   1,  -4,   1,  -1,  -4,  -3,  -1,  -4,  -2,   3,  -5,  -4,  -2,  -6]
  const Blosum90L:    Row := [ -2,  -3,  -4,  -5,  -2,  -3,  -4,  -5,  -4,   1,   5,  -3,   2,   0,  -4,  -3,  -2,  -3,  -2,   0,  -5,  -4,  -2,  -6]
  const Blosum90K:    Row := [ -1,   2,   0,  -1,  -4,   1,   0,  -2,  -1,  -4,  -3,   6,  -2,  -4,  -2,  -1,  -1,  -5,  -3,  -3,  -1,   1,  -1,  -6]
  const Blosum90M:    Row := [ -2,  -2,  -3,  -4,  -2,   0,  -3,  -4,  -3,   1,   2,  -2,   7,  -1,  -3,  -2,  -1,  -2,  -2,   0,  -4,  -2,  -1,  -6]
  const Blosum90F:    Row := [ -3,  -4,  -4,  -5,  -3,  -4,  -5,  -5,  -2,  -1,   0,  -4,  -1,   7,  -4,  -3,  -3,   0,   3,  -2,  -4,  -4,  -2,  -6]
  const Blosum90P:    Row := [ -1,  -3,  -3,  -3,  -4,  -2,  -2,  -3,  -3,  -4,  -4,  -2,  -3,  -4,   8,  -2,  -2,  -5,  -4,  -3,  -3,  -2,  -2,  -6]
  const Blosum90S:    Row := [  1,  -1,   0,  -1,  -2,  -1,  -1,  -1,  -2,  -3,  -3,  -1,  -2,  -3,  -2,   5,   1,  -4,  -3,  -2,   0,  -1,  -1,  -6]
  const Blosum90T:    Row := [  0,  -2,   0,  -2,  -2,  -1,  -1,  -3,  -2,  -1,  -2,  -1,  -1,  -3,  -2,   1,   6,  -4,  -2,  -1,  -1,  -1,  -1,  -6]
  const Blosum90W:    Row := [ -4,  -4,  -5,  -6,  -4,  -3,  -5,  -4,  -3,  -4,  -3,  -5,  -2,   0,  -5,  -4,  -4,  11,   2,  -3,  -6,  -4,  -3,  -6]
  const Blosum90Y:    Row := [ -3,  -3,  -3,  -4,  -4,  -3,  -4,  -5,   1,  -2,  -2,  -3,  -2,   3,  -4,  -3,  -2,   2,   8,  -3,  -4,  -3,  -2,  -6]
  const Blosum90V:    Row := [ -1,  -3,  -4,  -5,  -2,  -3,  -3,  -5,  -4,   3,   0,  -3,   0,  -2,  -3,  -2,  -1,  -3,  -3,   5,  -4,  -3,  -2,  -6]
  const Blosum90B:    Row := [ -2,  -2,   4,   4,  -4,  -1,   0,  -2,  -1,  -5,  -5,  -1,  -4,  -4,  -3,   0,  -1,  -6,  -4,  -4,   4,   0,  -2,  -6]
  const Blosum90Z:    Row := [ -1,   0,  -1,   0,  -5,   4,   4,  -3,   0,  -4,  -4,   1,  -2,  -4,  -2,  -1,  -1,  -4,  -3,  -3,   0,   4,  -1,  -6]
  const Blosum90X:    Row := [ -1,  -2,  -2,  -2,  -3,  -1,  -2,  -2,  -2,  -2,  -2,  -1,  -1,  -2,  -2,  -1,  -1,  -3,  -2,  -2,  -2,  -1,  -2,  -6]
  const Blosum90Stop: Row := [ -6,  -6,  -6,  -6,  -6,  -6,  -6,  -6,  -6,  -6,  -6,  -6,  -6,  -6,  -6,  -6,  -6,  -6,  -6,  -6,  -6,  -6,  -6,   1]

  const BLOSUM100: Table := [
    Blosum100A, Blosum100R, Blosum100N, Blosum100D, Blosum100C, Blosum100Q,
    Blosum100E, Blosum100G, Blosum100H, Blosum100I, Blosum100L, Blosum100K,
    Blosum100M, Blosum100F, Blosum100P, Blosum100S, Blosum100T, Blosum100W,
    Blosum100Y, Blosum100V, Blosum100B, Blosum100Z, Blosum100X, Blosum100Stop
  ]

  const Blosum100A:    Row := [  8,  -3,  -4,  -5,  -2,  -2,  -3,  -1,  -4,  -4,  -4,  -2,  -3,  -5,  -2,   1,  -1,  -6,  -5,  -2,  -4,  -2,  -2, -10]
  const Blosum100R:    Row := [ -3,  10,  -2,  -5,  -8,   0,  -2,  -6,  -1,  -7,  -6,   3,  -4,  -6,  -5,  -3,  -3,  -7,  -5,  -6,  -4,  -1,  -3, -10]
  const Blosum100N:    Row := [ -4,  -2,  11,   1,  -5,  -1,  -2,  -2,   0,  -7,  -7,  -1,  -5,  -7,  -5,   0,  -1,  -8,  -5,  -7,   5,  -2,  -3, -10]
  const Blosum100D:    Row := [ -5,  -5,   1,  10,  -8,  -2,   2,  -4,  -3,  -8,  -8,  -3,  -8,  -8,  -5,  -2,  -4, -10,  -7,  -8,   6,   0,  -4, -10]
  const Blosum100C:    Row := [ -2,  -8,  -5,  -8,  14,  -7,  -9,  -7,  -8,  -3,  -5,  -8,  -4,  -4,  -8,  -3,  -3,  -7,  -6,  -3,  -7,  -8,  -5, -10]
  const Blosum100Q:    Row := [ -2,   0,  -1,  -2,  -7,  11,   2,  -5,   1,  -6,  -5,   2,  -2,  -6,  -4,  -2,  -3,  -5,  -4,  -5,  -2,   5,  -2, -10]
  const Blosum100E:    Row := [ -3,  -2,  -2,   2,  -9,   2,  10,  -6,  -2,  -7,  -7,   0,  -5,  -8,  -4,  -2,  -3,  -8,  -7,  -5,   0,   7,  -3, -10]
  const Blosum100G:    Row := [ -1,  -6,  -2,  -4,  -7,  -5,  -6,   9,  -6,  -9,  -8,  -5,  -7,  -8,  -6,  -2,  -5,  -7,  -8,  -8,  -3,  -5,  -4, -10]
  const Blosum100H:    Row := [ -4,  -1,   0,  -3,  -8,   1,  -2,  -6,  13,  -7,  -6,  -3,  -5,  -4,  -5,  -3,  -4,  -5,   1,  -7,  -2,  -1,  -4, -10]
  const Blosum100I:    Row := [ -4,  -7,  -7,  -8,  -3,  -6,  -7,  -9,  -7,   8,   2,  -6,   1,  -2,  -7,  -5,  -3,  -6,  -4,   4,  -8,  -7,  -3, -10]
  const Blosum100L:    Row := [ -4,  -6,  -7,  -8,  -5,  -5,  -7,  -8,  -6,   2,   8,  -6,   3,   0,  -7,  -6,  -4,  -5,  -4,   0,  -8,  -6,  -3, -10]
  const Blosum100K:    Row := [ -2,   3,  -1,  -3,  -8,   2,   0,  -5,  -3,  -6,  -6,  10,  -4,  -6,  -3,  -2,  -3,  -8,  -5,  -5,  -2,   0,  -3, -10]
  const Blosum100M:    Row := [ -3,  -4,  -5,  -8,  -4,  -2,  -5,  -7,  -5,   1,   3,  -4,  12,  -1,  -5,  -4,  -2,  -4,  -5,   0,  -7,  -4,  -3, -10]
  const Blosum100F:    Row := [ -5,  -6,  -7,  -8,  -4,  -6,  -8,  -8,  -4,  -2,   0,  -6,  -1,  11,  -7,  -5,  -5,   0,   4,  -3,  -7,  -7,  -4, -10]
  const Blosum100P:    Row := [ -2,  -5,  -5,  -5,  -8,  -4,  -4,  -6,  -5,  -7,  -7,  -3,  -5,  -7,  12,  -3,  -4,  -8,  -7,  -6,  -5,  -4,  -4, -10]
  const Blosum100S:    Row := [  1,  -3,   0,  -2,  -3,  -2,  -2,  -2,  -3,  -5,  -6,  -2,  -4,  -5,  -3,   9,   2,  -7,  -5,  -4,  -1,  -2,  -2, -10]
  const Blosum100T:    Row := [ -1,  -3,  -1,  -4,  -3,  -3,  -3,  -5,  -4,  -3,  -4,  -3,  -2,  -5,  -4,   2,   9,  -7,  -5,  -1,  -2,  -3,  -2, -10]
  const Blosum100W:    Row := [ -6,  -7,  -8, -10,  -7,  -5,  -8,  -7,  -5,  -6,  -5,  -8,  -4,   0,  -8,  -7,  -7,  17,   2,  -5,  -9,  -7,  -6, -10]
  const Blosum100Y:    Row := [ -5,  -5,  -5,  -7,  -6,  -4,  -7,  -8,   1,  -4,  -4,  -5,  -5,   4,  -7,  -5,  -5,   2,  12,  -5,  -6,  -6,  -4, -10]
  const Blosum100V:    Row := [ -2,  -6,  -7,  -8,  -3,  -5,  -5,  -8,  -7,   4,   0,  -5,   0,  -3,  -6,  -4,  -1,  -5,  -5,   8,  -7,  -5,  -3, -10]
  const Blosum100B:    Row := [ -4,  -4,   5,   6,  -7,  -2,   0,  -3,  -2,  -8,  -8,  -2,  -7,  -7,  -5,  -1,  -2,  -9,  -6,  -7,   6,   0,  -4, -10]
  const Blosum100Z:    Row := [ -2,  -1,  -2,   0,  -8,   5,   7,  -5,  -1,  -7,  -6,   0,  -4,  -7,  -4,  -2,  -3,  -7,  -6,  -5,   0,   6,  -2, -10]
  const Blosum100X:    Row := [ -2,  -3,  -3,  -4,  -5,  -2,  -3,  -4,  -4,  -3,  -3,  -3,  -3,  -4,  -4,  -2,  -2,  -6,  -4,  -3,  -4,  -2,  -3, -10]
  const Blosum100Stop: Row := [-10, -10, -10, -10, -10, -10, -10, -10, -10, -10, -10, -10, -10, -10, -10, -10, -10, -10, -10, -10, -10, -10, -10,   1]

}
