/**
 * The project table loaded from the semicolon-separated file: one record per
 * row, with the columns the dashboards read.
 */
module Projects {

  /** One row: Province, Secteur, Intitulé_Projet, Budget_DH, Statut, Taux_Avancement. */
  datatype Project = Project(
    province: string,
    sector: string,
    title: string,
    budget: nat,
    status: string,
    progress: real)

  /** The text columns a dashboard selects or groups on. */
  datatype Column = Province | Sector | Status

  /** Statut labels the dashboards test for (French, as in the data). */
  const Suspended: string := "Suspendu"
  const Late: string := "En Retard"

  /** The cell `df[c]` of row `r`. */
  function Cell(r: Project, c: Column): string
  {
    match c
    case Province => r.province
    case Sector => r.sector
    case Status => r.status
  }

  /** The column `df[c]` as a sequence, in row order. */
  function ColumnValues(t: seq<Project>, c: Column): (vs: seq<string>)
    ensures |vs| == |t|
    ensures forall i :: 0 <= i < |t| ==> vs[i] == Cell(t[i], c)
  {
    seq(|t|, i requires 0 <= i < |t| => Cell(t[i], c))
  }

  predicate Distinct(xs: seq<string>)
  {
    forall i, j :: 0 <= i < j < |xs| ==> xs[i] != xs[j]
  }

  /**
   * `Series.unique()`: every value once, in the order of its first occurrence.
   */
  function Unique(xs: seq<string>): (u: seq<string>)
    ensures Distinct(u)
    ensures forall x :: x in u <==> x in xs
    ensures |u| <= |xs|
    ensures |xs| > 0 ==> |u| > 0 && u[0] == xs[0]
    decreases |xs|
  {
    if |xs| == 0 then []
    else
      var u := Unique(xs[..|xs| - 1]);
      var x := xs[|xs| - 1];
      if x in u then u else u + [x]
  }

  /** The options, and the default choice, of a sidebar multiselect over column `c`. */
  function UniqueValues(t: seq<Project>, c: Column): (u: seq<string>)
    ensures Distinct(u)
  {
    Unique(ColumnValues(t, c))
  }

  /** The options are exactly the values that occur in the column. */
  lemma UniqueValuesCover(t: seq<Project>, c: Column)
    ensures forall i :: 0 <= i < |t| ==> Cell(t[i], c) in UniqueValues(t, c)
    ensures forall x :: x in UniqueValues(t, c) <==> x in ColumnValues(t, c)
    ensures forall x :: x in UniqueValues(t, c) ==> exists i :: 0 <= i < |t| && Cell(t[i], c) == x
  {
    var vs := ColumnValues(t, c);
    forall x | x in UniqueValues(t, c) ensures exists i :: 0 <= i < |t| && Cell(t[i], c) == x {
      assert x in vs;
      var i :| 0 <= i < |vs| && vs[i] == x;
    }
  }

}
