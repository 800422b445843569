/** The 24-symbol amino-acid alphabet and its map to table indices. */
module Alphabet {
  import opened Errors

  /** A row or column number of a 24 x 24 substitution table. */
  type Index = k: int | 0 <= k < 24

  /** The alphabet in table order: 20 amino acids, then the codes B, Z, X and the stop '*'. */
  const Symbols: seq<char> := "ARNDCQEGHILKMFPSTWYVBZX*"

  /** Symbol to table index; a character outside the alphabet is not a key. */
  const AaToIndex: map<char, Index> := map[
    'A' := 0, 'R' := 1, 'N' := 2, 'D' := 3, 'C' := 4,
    'Q' := 5, 'E' := 6, 'G' := 7, 'H' := 8, 'I' := 9,
    'L' := 10, 'K' := 11, 'M' := 12, 'F' := 13, 'P' := 14,
    'S' := 15, 'T' := 16, 'W' := 17, 'Y' := 18, 'V' := 19,
    'B' := 20, 'Z' := 21, 'X' := 22, '*' := 23
  ]

  /** Every key of the map is sent to the position of that symbol in the alphabet. */
  lemma AaToIndexAgreesWithSymbols()
    ensures |Symbols| == 24
    ensures forall c :: c in AaToIndex ==> Symbols[AaToIndex[c]] == c
    ensures forall c, d :: c in AaToIndex && d in AaToIndex && AaToIndex[c] == AaToIndex[d] ==> c == d
  {
  }

  /** Every index 0..23 is reached, by the symbol at that position of the alphabet. */
  lemma AaToIndexOnto(k: Index)
    ensures Symbols[k] in AaToIndex && AaToIndex[Symbols[k]] == k
  {
    assert k == 0 || k == 1 || k == 2 || k == 3 || k == 4 || k == 5 || k == 6 || k == 7 ||
           k == 8 || k == 9 || k == 10 || k == 11 || k == 12 || k == 13 || k == 14 || k == 15 ||
           k == 16 || k == 17 || k == 18 || k == 19 || k == 20 || k == 21 || k == 22 || k == 23;
  }

  /** The keys of the map are exactly the symbols of the alphabet. */
  lemma AaToIndexKeys(c: char)
    ensures c in AaToIndex <==> c in Symbols
  {
    if c in Symbols {
      var k :| 0 <= k < |Symbols| && Symbols[k] == c;
      AaToIndexOnto(k);
    }
  }

  /** The map AaToIndex written as a case analysis: the table index of c, or None. */
  function IndexOf(c: char): Option<Index>
  {
    match c
    case 'A' => Some(0)
    case 'R' => Some(1)
    case 'N' => Some(2)
    case 'D' => Some(3)
    case 'C' => Some(4)
    case 'Q' => Some(5)
    case 'E' => Some(6)
    case 'G' => Some(7)
    case 'H' => Some(8)
    case 'I' => Some(9)
    case 'L' => Some(10)
    case 'K' => Some(11)
    case 'M' => Some(12)
    case 'F' => Some(13)
    case 'P' => Some(14)
    case 'S' => Some(15)
    case 'T' => Some(16)
    case 'W' => Some(17)
    case 'Y' => Some(18)
    case 'V' => Some(19)
    case 'B' => Some(20)
    case 'Z' => Some(21)
    case 'X' => Some(22)
    case '*' => Some(23)
    case _ => None
  }

  /** The symbol at position k of the alphabet has index k. */
  lemma IndexOfSymbol(k: Index)
    ensures IndexOf(Symbols[k]) == Some(k)
  {
    assert k == 0 || k == 1 || k == 2 || k == 3 || k == 4 || k == 5 || k == 6 || k == 7 ||
           k == 8 || k == 9 || k == 10 || k == 11 || k == 12 || k == 13 || k == 14 || k == 15 ||
           k == 16 || k == 17 || k == 18 || k == 19 || k == 20 || k == 21 || k == 22 || k == 23;
  }

  /** An index found for c is the position of c in the alphabet. */
  lemma IndexOfIsPosition(c: char)
    ensures IndexOf(c).Some? ==> Symbols[IndexOf(c).value] == c
  {
  }

  /** Looking c up in the map and matching it against the alphabet agree. */
  lemma IndexOfAgreesWithMap(c: char)
    ensures IndexOf(c).Some? <==> c in AaToIndex
    ensures c in AaToIndex ==> IndexOf(c).value == AaToIndex[c]
  {
    IndexOfIsPosition(c);
    if c in AaToIndex {
      AaToIndexAgreesWithSymbols();
      IndexOfSymbol(AaToIndex[c]);
    } else if IndexOf(c).Some? {
      AaToIndexOnto(IndexOf(c).value);
    }
  }

  /** The map lookup: the index of c, or None when c is not a key of the map. */
  function Lookup(c: char): (r: Option<Index>)
    ensures r == IndexOf(c)
  {
    IndexOfAgreesWithMap(c);
    if c in AaToIndex then Some(AaToIndex[c]) else None
  }

  /** No lower-case letter and no digit is a symbol: the lookup is case-sensitive. */
  lemma LowerCaseAndDigitsAbsent(c: char)
    requires 'a' <= c <= 'z' || '0' <= c <= '9'
    ensures c !in AaToIndex && IndexOf(c).None?
  {
  }
}
