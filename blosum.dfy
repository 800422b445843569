/** Selection of a substitution table by its name. */
module BlosumSelection {
  import opened Errors
  import opened Blosum

  /** The six tables the aligner can be asked for, by their published names. */
  datatype MatrixName = Blosum62 | Blosum50 | Blosum45 | Blosum80 | Blosum90 | Blosum100

  const MatrixNames: set<string> := {"BLOSUM62", "BLOSUM50", "BLOSUM45", "BLOSUM80", "BLOSUM90", "BLOSUM100"}

  /** The exact, upper-case name under which a table is selected. */
  function NameOf(k: MatrixName): string
  {
    match k
    case Blosum62 => "BLOSUM62"
    case Blosum50 => "BLOSUM50"
    case Blosum45 => "BLOSUM45"
    case Blosum80 => "BLOSUM80"
    case Blosum90 => "BLOSUM90"
    case Blosum100 => "BLOSUM100"
  }

  function TableOf(k: MatrixName): Table
  {
    match k
    case Blosum62 => BLOSUM62
    case Blosum50 => BLOSUM50
    case Blosum45 => BLOSUM45
    case Blosum80 => BLOSUM80
    case Blosum90 => BLOSUM90
    case Blosum100 => BLOSUM100
  }

  /**
   * Selects a table by exact, case-sensitive name; any other string stops the
   * caller with an invalid-name error that carries the string.
   */
  function GetSubstitutionMatrix(name: string): (r: Result<Table>)
    ensures r.Ok? <==> name in MatrixNames
    ensures forall k :: NameOf(k) == name ==> r == Ok(TableOf(k))
    ensures r.Err? ==> r.error == InvalidMatrixName(name)
  {
    if name == "BLOSUM62" then Ok(BLOSUM62)
    else if name == "BLOSUM50" then Ok(BLOSUM50)
    else if name == "BLOSUM45" then Ok(BLOSUM45)
    else if name == "BLOSUM80" then Ok(BLOSUM80)
    else if name == "BLOSUM90" then Ok(BLOSUM90)
    else if name == "BLOSUM100" then Ok(BLOSUM100)
    else Err(InvalidMatrixName(name))
  }

  /** Every table has its own name, and selecting by that name gives back that table. */
  lemma NameRoundTrip(k: MatrixName)
    ensures NameOf(k) in MatrixNames
    ensures GetSubstitutionMatrix(NameOf(k)) == Ok(TableOf(k))
    ensures forall k' :: NameOf(k') == NameOf(k) ==> k' == k
  {
  }
}
