/** Worked alignments, cell by cell. */
module AlignExamples {
  import opened Errors
  import opened Alphabet
  import opened Blosum
  import opened AlignSpec

  /** Rows 1 to 1 of the ACD/ACE tables. */
  lemma AcdAceRows1(x1: seq<Index>, x2: seq<Index>, g: Scoring)
    requires x1 == [0, 4, 3] && x2 == [0, 4, 6] && g == Scoring(BLOSUM62, 10, 4)
    ensures Cell(x1, x2, g, 1, 1) == CellVal(4, -1073741828, -1073741828, 'D')
    ensures Cell(x1, x2, g, 1, 2) == CellVal(-10, -1073741828, -10, 'D')
    ensures Cell(x1, x2, g, 1, 3) == CellVal(-14, -1073741828, -14, 'L')
  {
    assert Cell(x1, x2, g, 1, 1) == CellVal(4, -1073741828, -1073741828, 'D');
    assert Cell(x1, x2, g, 1, 2) == CellVal(-10, -1073741828, -10, 'D');
    assert Cell(x1, x2, g, 1, 3) == CellVal(-14, -1073741828, -14, 'L');
  }

  /** Rows 1 to 2 of the ACD/ACE tables. */
  lemma AcdAceRows2(x1: seq<Index>, x2: seq<Index>, g: Scoring)
    requires x1 == [0, 4, 3] && x2 == [0, 4, 6] && g == Scoring(BLOSUM62, 10, 4)
    ensures Cell(x1, x2, g, 1, 1) == CellVal(4, -1073741828, -1073741828, 'D')
    ensures Cell(x1, x2, g, 1, 2) == CellVal(-10, -1073741828, -10, 'D')
    ensures Cell(x1, x2, g, 1, 3) == CellVal(-14, -1073741828, -14, 'L')
    ensures Cell(x1, x2, g, 2, 1) == CellVal(-10, -10, -1073741828, 'D')
    ensures Cell(x1, x2, g, 2, 2) == CellVal(13, -24, -24, 'D')
    ensures Cell(x1, x2, g, 2, 3) == CellVal(-1, -28, -1, 'L')
  {
    AcdAceRows1(x1, x2, g);
    assert Cell(x1, x2, g, 2, 1) == CellVal(-10, -10, -1073741828, 'D');
    assert Cell(x1, x2, g, 2, 2) == CellVal(13, -24, -24, 'D');
    assert Cell(x1, x2, g, 2, 3) == CellVal(-1, -28, -1, 'L');
  }

  /** Rows 1 to 3 of the ACD/ACE tables. */
  lemma AcdAceRows3(x1: seq<Index>, x2: seq<Index>, g: Scoring)
    requires x1 == [0, 4, 3] && x2 == [0, 4, 6] && g == Scoring(BLOSUM62, 10, 4)
    ensures Cell(x1, x2, g, 1, 1) == CellVal(4, -1073741828, -1073741828, 'D')
    ensures Cell(x1, x2, g, 1, 2) == CellVal(-10, -1073741828, -10, 'D')
    ensures Cell(x1, x2, g, 1, 3) == CellVal(-14, -1073741828, -14, 'L')
    ensures Cell(x1, x2, g, 2, 1) == CellVal(-10, -10, -1073741828, 'D')
    ensures Cell(x1, x2, g, 2, 2) == CellVal(13, -24, -24, 'D')
    ensures Cell(x1, x2, g, 2, 3) == CellVal(-1, -28, -1, 'L')
    ensures Cell(x1, x2, g, 3, 1) == CellVal(-14, -14, -1073741828, 'U')
    ensures Cell(x1, x2, g, 3, 2) == CellVal(-1, -1, -28, 'U')
    ensures Cell(x1, x2, g, 3, 3) == CellVal(15, -15, -15, 'D')
  {
    AcdAceRows2(x1, x2, g);
    assert Cell(x1, x2, g, 3, 1) == CellVal(-14, -14, -1073741828, 'U');
    assert Cell(x1, x2, g, 3, 2) == CellVal(-1, -1, -28, 'U');
    assert Cell(x1, x2, g, 3, 3) == CellVal(15, -15, -15, 'D');
  }

  /** ACD against ACE, BLOSUM62, gaps 10/4: three diagonal steps, A and C identical. */
  lemma TraceAcdAce()
    ensures Trace("ACD", "ACE", Scoring(BLOSUM62, 10, 4)) == Counts(2, 3)
  {
    var x1, x2 := Indices("ACD"), Indices("ACE");
    assert x1 == [0, 4, 3];
    assert x2 == [0, 4, 6];
    AcdAceRows3(x1, x2, Scoring(BLOSUM62, 10, 4));
  }

  /** Rows 1 to 1 of the AC/ACD tables. */
  lemma AcAcdRows1(x1: seq<Index>, x2: seq<Index>, g: Scoring)
    requires x1 == [0, 4] && x2 == [0, 4, 3] && g == Scoring(BLOSUM62, 10, 4)
    ensures Cell(x1, x2, g, 1, 1) == CellVal(4, -1073741828, -1073741828, 'D')
    ensures Cell(x1, x2, g, 1, 2) == CellVal(-10, -1073741828, -10, 'D')
    ensures Cell(x1, x2, g, 1, 3) == CellVal(-14, -1073741828, -14, 'L')
  {
    assert Cell(x1, x2, g, 1, 1) == CellVal(4, -1073741828, -1073741828, 'D');
    assert Cell(x1, x2, g, 1, 2) == CellVal(-10, -1073741828, -10, 'D');
    assert Cell(x1, x2, g, 1, 3) == CellVal(-14, -1073741828, -14, 'L');
  }

  /** Rows 1 to 2 of the AC/ACD tables. */
  lemma AcAcdRows2(x1: seq<Index>, x2: seq<Index>, g: Scoring)
    requires x1 == [0, 4] && x2 == [0, 4, 3] && g == Scoring(BLOSUM62, 10, 4)
    ensures Cell(x1, x2, g, 1, 1) == CellVal(4, -1073741828, -1073741828, 'D')
    ensures Cell(x1, x2, g, 1, 2) == CellVal(-10, -1073741828, -10, 'D')
    ensures Cell(x1, x2, g, 1, 3) == CellVal(-14, -1073741828, -14, 'L')
    ensures Cell(x1, x2, g, 2, 1) == CellVal(-10, -10, -1073741828, 'D')
    ensures Cell(x1, x2, g, 2, 2) == CellVal(13, -24, -24, 'D')
    ensures Cell(x1, x2, g, 2, 3) == CellVal(-1, -28, -1, 'L')
  {
    AcAcdRows1(x1, x2, g);
    assert Cell(x1, x2, g, 2, 1) == CellVal(-10, -10, -1073741828, 'D');
    assert Cell(x1, x2, g, 2, 2) == CellVal(13, -24, -24, 'D');
    assert Cell(x1, x2, g, 2, 3) == CellVal(-1, -28, -1, 'L');
  }

  /** AC against ACD, BLOSUM62, gaps 10/4: two identical diagonal steps and one gap. */
  lemma TraceAcAcd()
    ensures Trace("AC", "ACD", Scoring(BLOSUM62, 10, 4)) == Counts(2, 3)
  {
    var x1, x2 := Indices("AC"), Indices("ACD");
    assert x1 == [0, 4];
    assert x2 == [0, 4, 3];
    AcAcdRows2(x1, x2, Scoring(BLOSUM62, 10, 4));
  }

  /** Rows 1 to 1 of the XX/XX tables. */
  lemma XxXxRows1(x1: seq<Index>, x2: seq<Index>, g: Scoring)
    requires x1 == [22, 22] && x2 == [22, 22] && g == Scoring(BLOSUM62, 0, 0)
    ensures Cell(x1, x2, g, 1, 1) == CellVal(-1, NEG_INF, NEG_INF, 'D')
    ensures Cell(x1, x2, g, 1, 2) == CellVal(-1, NEG_INF, -1, 'D')
  {
    assert Cell(x1, x2, g, 1, 1) == CellVal(-1, NEG_INF, NEG_INF, 'D');
    assert Cell(x1, x2, g, 1, 2) == CellVal(-1, NEG_INF, -1, 'D');
  }

  /** Rows 1 to 2 of the XX/XX tables. */
  lemma XxXxRows2(x1: seq<Index>, x2: seq<Index>, g: Scoring)
    requires x1 == [22, 22] && x2 == [22, 22] && g == Scoring(BLOSUM62, 0, 0)
    ensures Cell(x1, x2, g, 1, 1) == CellVal(-1, NEG_INF, NEG_INF, 'D')
    ensures Cell(x1, x2, g, 1, 2) == CellVal(-1, NEG_INF, -1, 'D')
    ensures Cell(x1, x2, g, 2, 1) == CellVal(-1, -1, NEG_INF, 'D')
    ensures Cell(x1, x2, g, 2, 2) == CellVal(-1, -1, -1, 'U')
  {
    XxXxRows1(x1, x2, g);
    assert Cell(x1, x2, g, 2, 1) == CellVal(-1, -1, NEG_INF, 'D');
    assert Cell(x1, x2, g, 2, 2) == CellVal(-1, -1, -1, 'U');
  }

  /**
   * XX against itself with free gaps: the up move wins the tie at (2, 2),
   * so the walk takes one diagonal step and two gap steps.
   */
  lemma TraceXxXx()
    ensures Trace("XX", "XX", Scoring(BLOSUM62, 0, 0)) == Counts(1, 3)
  {
    var x1, x2 := Indices("XX"), Indices("XX");
    assert x1 == [22, 22];
    assert x2 == [22, 22];
    XxXxRows2(x1, x2, Scoring(BLOSUM62, 0, 0));
  }

  /** Rows 1 to 1 of the AA/ACW tables. */
  lemma AaAcwRows1(x1: seq<Index>, x2: seq<Index>, g: Scoring)
    requires x1 == [0, 0] && x2 == [0, 4, 17] && g == Scoring(BLOSUM62, 0, 0)
    ensures Cell(x1, x2, g, 1, 1) == CellVal(4, NEG_INF, NEG_INF, 'D')
    ensures Cell(x1, x2, g, 1, 2) == CellVal(4, NEG_INF, 4, 'L')
    ensures Cell(x1, x2, g, 1, 3) == CellVal(4, NEG_INF, 4, 'L')
  {
    assert Cell(x1, x2, g, 1, 1) == CellVal(4, NEG_INF, NEG_INF, 'D');
    assert Cell(x1, x2, g, 1, 2) == CellVal(4, NEG_INF, 4, 'L');
    assert Cell(x1, x2, g, 1, 3) == CellVal(4, NEG_INF, 4, 'L');
  }

  /** Rows 1 to 2 of the AA/ACW tables. */
  lemma AaAcwRows2(x1: seq<Index>, x2: seq<Index>, g: Scoring)
    requires x1 == [0, 0] && x2 == [0, 4, 17] && g == Scoring(BLOSUM62, 0, 0)
    ensures Cell(x1, x2, g, 1, 1) == CellVal(4, NEG_INF, NEG_INF, 'D')
    ensures Cell(x1, x2, g, 1, 2) == CellVal(4, NEG_INF, 4, 'L')
    ensures Cell(x1, x2, g, 1, 3) == CellVal(4, NEG_INF, 4, 'L')
    ensures Cell(x1, x2, g, 2, 1) == CellVal(4, 4, NEG_INF, 'D')
    ensures Cell(x1, x2, g, 2, 2) == CellVal(4, 4, 4, 'D')
    ensures Cell(x1, x2, g, 2, 3) == CellVal(4, 4, 4, 'U')
  {
    AaAcwRows1(x1, x2, g);
    assert Cell(x1, x2, g, 2, 1) == CellVal(4, 4, NEG_INF, 'D');
    assert Cell(x1, x2, g, 2, 2) == CellVal(4, 4, 4, 'D');
    assert Cell(x1, x2, g, 2, 3) == CellVal(4, 4, 4, 'U');
  }

  /** AA against ACW with free gaps: four steps, one identical pair. */
  lemma TraceAaAcw()
    ensures Trace("AA", "ACW", Scoring(BLOSUM62, 0, 0)) == Counts(1, 4)
  {
    var x1, x2 := Indices("AA"), Indices("ACW");
    assert x1 == [0, 0];
    assert x2 == [0, 4, 17];
    AaAcwRows2(x1, x2, Scoring(BLOSUM62, 0, 0));
  }

  /** Rows 1 to 1 of the ACW/AA tables. */
  lemma AcwAaRows1(x1: seq<Index>, x2: seq<Index>, g: Scoring)
    requires x1 == [0, 4, 17] && x2 == [0, 0] && g == Scoring(BLOSUM62, 0, 0)
    ensures Cell(x1, x2, g, 1, 1) == CellVal(4, NEG_INF, NEG_INF, 'D')
    ensures Cell(x1, x2, g, 1, 2) == CellVal(4, NEG_INF, 4, 'D')
  {
    assert Cell(x1, x2, g, 1, 1) == CellVal(4, NEG_INF, NEG_INF, 'D');
    assert Cell(x1, x2, g, 1, 2) == CellVal(4, NEG_INF, 4, 'D');
  }

  /** Rows 1 to 2 of the ACW/AA tables. */
  lemma AcwAaRows2(x1: seq<Index>, x2: seq<Index>, g: Scoring)
    requires x1 == [0, 4, 17] && x2 == [0, 0] && g == Scoring(BLOSUM62, 0, 0)
    ensures Cell(x1, x2, g, 1, 1) == CellVal(4, NEG_INF, NEG_INF, 'D')
    ensures Cell(x1, x2, g, 1, 2) == CellVal(4, NEG_INF, 4, 'D')
    ensures Cell(x1, x2, g, 2, 1) == CellVal(4, 4, NEG_INF, 'U')
    ensures Cell(x1, x2, g, 2, 2) == CellVal(4, 4, 4, 'D')
  {
    AcwAaRows1(x1, x2, g);
    assert Cell(x1, x2, g, 2, 1) == CellVal(4, 4, NEG_INF, 'U');
    assert Cell(x1, x2, g, 2, 2) == CellVal(4, 4, 4, 'D');
  }

  /** Rows 1 to 3 of the ACW/AA tables. */
  lemma AcwAaRows3(x1: seq<Index>, x2: seq<Index>, g: Scoring)
    requires x1 == [0, 4, 17] && x2 == [0, 0] && g == Scoring(BLOSUM62, 0, 0)
    ensures Cell(x1, x2, g, 1, 1) == CellVal(4, NEG_INF, NEG_INF, 'D')
    ensures Cell(x1, x2, g, 1, 2) == CellVal(4, NEG_INF, 4, 'D')
    ensures Cell(x1, x2, g, 2, 1) == CellVal(4, 4, NEG_INF, 'U')
    ensures Cell(x1, x2, g, 2, 2) == CellVal(4, 4, 4, 'D')
    ensures Cell(x1, x2, g, 3, 1) == CellVal(4, 4, NEG_INF, 'U')
    ensures Cell(x1, x2, g, 3, 2) == CellVal(4, 4, 4, 'U')
  {
    AcwAaRows2(x1, x2, g);
    assert Cell(x1, x2, g, 3, 1) == CellVal(4, 4, NEG_INF, 'U');
    assert Cell(x1, x2, g, 3, 2) == CellVal(4, 4, 4, 'U');
  }

  /** ACW against AA with free gaps: three steps, one identical pair. */
  lemma TraceAcwAa()
    ensures Trace("ACW", "AA", Scoring(BLOSUM62, 0, 0)) == Counts(1, 3)
  {
    var x1, x2 := Indices("ACW"), Indices("AA");
    assert x1 == [0, 4, 17];
    assert x2 == [0, 0];
    AcwAaRows3(x1, x2, Scoring(BLOSUM62, 0, 0));
  }

  /** Every symbol of AA, ACW, ACD, ACE and XX is in the alphabet. */
  lemma ExampleWordsAccepted()
    ensures Accepted("AA", "ACW") && Accepted("ACW", "AA")
    ensures Accepted("ACD", "ACE") && Accepted("XX", "XX")
  {
  }

  /** A sequence aligned with itself need not score 1: XX against XX with free gaps gives 1/3. */
  lemma SelfSimilarityBelowOne()
    ensures PairSimilarity("XX", "XX", Scoring(BLOSUM62, 0, 0)) == Ok(Some(1.0 / 3.0))
  {
    ExampleWordsAccepted();
    TraceXxXx();
  }

  /** Swapping the two roles can change the result: AA/ACW gives 1/4, ACW/AA gives 1/3. */
  lemma RoleSwapChangesSimilarity()
    ensures PairSimilarity("AA", "ACW", Scoring(BLOSUM62, 0, 0)) == Ok(Some(1.0 / 4.0))
    ensures PairSimilarity("ACW", "AA", Scoring(BLOSUM62, 0, 0)) == Ok(Some(1.0 / 3.0))
  {
    ExampleWordsAccepted();
    TraceAaAcw();
    TraceAcwAa();
  }

  /** ACD against ACE: similarity 2/3. */
  lemma SimilarityAcdAce()
    ensures PairSimilarity("ACD", "ACE", Scoring(BLOSUM62, 10, 4)) == Ok(Some(2.0 / 3.0))
  {
    ExampleWordsAccepted();
    TraceAcdAce();
  }
}
