/**
 * The first dashboard page: sidebar filters, four KPI cards, the critical
 * alerts, and the data fed to the bar chart (budget per province) and the pie
 * chart (projects per status).
 */
module Dashboard {

  import opened Wrappers
  import opened Projects
  import opened Filter
  import opened Aggregates
  import opened Critical

  /** The four metric cards. */
  datatype Metrics = Metrics(
    budgetEngaged: nat,          // "Budget Engagé"
    activeProjects: nat,         // "Projets Actifs"
    lateProjects: nat,           // "Projets en Retard"
    meanProgress: Option<real>)  // "Taux d'Achèvement Moyen"

  /** What the page shows for one filter choice. */
  datatype Overview = Overview(
    rows: seq<Project>,                  // df_filtered, also the detailed table
    metrics: Metrics,
    alerts: seq<Project>,                // "Alertes Critiques"
    budgetByProvince: map<string, nat>,  // bar chart
    statusCounts: map<string, nat>)      // pie chart

  /** The page either stops on a missing data file or shows an overview. */
  datatype Page = MissingFile | Shown(overview: Overview)

  /**
   * The metric cards over the filtered rows: the budget is their budget sum,
   * the late projects are those of them whose status is "En Retard" and are
   * never more than the active ones, and the mean progress is missing exactly
   * when there are no rows.
   */
  function CardMetrics(rows: seq<Project>): (m: Metrics)
    ensures m.budgetEngaged == TotalBudget(rows)
    ensures m.activeProjects == |rows|
    ensures m.lateProjects == |Where(rows, Status, Late)| <= m.activeProjects
    ensures m.lateProjects == 0 <==> Late !in ColumnValues(rows, Status)
    ensures m.meanProgress == MeanProgress(rows)
    ensures m.meanProgress.None? <==> m.activeProjects == 0
  {
    WhereNonEmpty(rows, Status, Late);
    Metrics(TotalBudget(rows), |rows|, |Where(rows, Status, Late)|, MeanProgress(rows))
  }

  /**
   * Every figure on the page is computed from the filtered rows, and the
   * figures agree with each other: the bar chart adds up to the budget card,
   * the pie chart adds up to the project count, and the budget never exceeds
   * that of the whole table.
   */
  function View(df: seq<Project>, selectedProvince: seq<string>, selectedSector: seq<string>): (v: Overview)
    ensures v.rows == FilterRows(df, selectedProvince, selectedSector)
    ensures v.metrics == CardMetrics(v.rows)
    ensures v.alerts == CriticalProjects(v.rows)
    ensures v.budgetByProvince == BudgetByProvince(v.rows)
    ensures v.statusCounts == StatusDistribution(v.rows)
    ensures v.metrics.budgetEngaged <= TotalBudget(df)
    ensures forall p :: p in v.budgetByProvince <==> p in UniqueValues(v.rows, Province)
    ensures SumOver(v.budgetByProvince, UniqueValues(v.rows, Province)) == v.metrics.budgetEngaged
    ensures forall s :: s in v.statusCounts <==> s in UniqueValues(v.rows, Status)
    ensures SumOver(v.statusCounts, UniqueValues(v.rows, Status)) == v.metrics.activeProjects
  {
    var rows := FilterRows(df, selectedProvince, selectedSector);
    FilteredBudgetBound(df, selectedProvince, selectedSector);
    Overview(rows, CardMetrics(rows), CriticalProjects(rows), BudgetByProvince(rows), StatusDistribution(rows))
  }

  /** The alerts are critical rows of the table that pass the filter. */
  lemma AlertsAreFilteredCriticalRows(df: seq<Project>, selectedProvince: seq<string>, selectedSector: seq<string>)
    ensures forall a :: a in View(df, selectedProvince, selectedSector).alerts ==>
      IsCritical(a) && a in df && Selected(a, selectedProvince, selectedSector)
  {
    var rows := FilterRows(df, selectedProvince, selectedSector);
    CriticalRowsOfTable(rows);
    FilterRowsSound(df, selectedProvince, selectedSector);
  }

  /**
   * The whole page: a missing file stops it; with the multiselects at their
   * defaults the page covers the whole table.
   */
  function Render(loaded: Option<seq<Project>>, selection: Selection): (p: Page)
    ensures p.MissingFile? <==> loaded.None?
    ensures loaded.Some? && selection.AllValues? ==>
      && p.overview.rows == loaded.value
      && p.overview.metrics.activeProjects == |loaded.value|
      && p.overview.metrics.budgetEngaged == TotalBudget(loaded.value)
      && p.overview == View(loaded.value, UniqueValues(loaded.value, Province), UniqueValues(loaded.value, Sector))
    ensures loaded.Some? && selection.Chosen? ==>
      p.overview == View(loaded.value, selection.provinces, selection.sectors)
  {
    match loaded
    case None => MissingFile
    case Some(df) =>
      match selection
      case AllValues =>
        DefaultFilterIsIdentity(df);
        Shown(View(df, UniqueValues(df, Province), UniqueValues(df, Sector)))
      case Chosen(provinces, sectors) =>
        Shown(View(df, provinces, sectors))
  }

  /*
   * A three-row example table: a late 6 MDH project and a completed 1 MDH
   * project in province A, a suspended 7 MDH project in province B.
   */
  const ExampleLateA: Project := Project("A", "X", "a1", 6000000, "En Retard", 40.0)
  const ExampleDoneA: Project := Project("A", "Y", "a2", 1000000, "Achevé", 100.0)
  const ExampleSuspendedB: Project := Project("B", "X", "b", 7000000, "Suspendu", 10.0)
  const ExampleTable: seq<Project> := [ExampleLateA, ExampleDoneA, ExampleSuspendedB]

  /** At the default selections the table is unchanged ... */
  lemma ExampleAllSelected()
    ensures FilterRows(ExampleTable, UniqueValues(ExampleTable, Province), UniqueValues(ExampleTable, Sector)) == ExampleTable
  {
    DefaultFilterIsIdentity(ExampleTable);
  }

  /** ... and its cards read 14 MDH over 3 projects, one of them late. */
  lemma ExampleAllCards()
    ensures TotalBudget(ExampleTable) == 14000000
    ensures |Where(ExampleTable, Status, Late)| == 1
  {
    var t := ExampleTable;
    assert t[..2] == [t[0], t[1]] && t[..2][..1] == [t[0]] && [t[0]][..0] == [];
    assert SumBy([t[0]], BudgetSum) == 6000000;
    assert SumBy(t[..2], BudgetSum) == 7000000;
    assert Where([t[0]], Status, Late) == [t[0]];
    assert Where(t[..2], Status, Late) == [t[0]];
  }

  /** The suspended B project comes first among the alerts, then the late A one. */
  lemma ExampleAlerts()
    ensures CriticalProjects(ExampleTable) == [ExampleSuspendedB, ExampleLateA]
  {
    ExampleQualifying();
    ExampleSorted();
  }

  lemma ExampleQualifying()
    ensures Qualifying(ExampleTable) == [ExampleLateA, ExampleSuspendedB]
  {
    QualifyingOfThree(ExampleLateA, ExampleDoneA, ExampleSuspendedB);
  }

  /** Critical, not critical, critical: the middle row is dropped. */
  lemma QualifyingOfThree(a: Project, b: Project, c: Project)
    requires IsCritical(a) && !IsCritical(b) && IsCritical(c)
    ensures Qualifying([a, b, c]) == [a, c]
  {
    calc {
      Qualifying([a, b, c]);
    == { assert [a, b, c] == [a, b] + [c]; QualifyingSnoc([a, b], c); }
      Qualifying([a, b]) + [c];
    == { QualifyingOfTwo(a, b); }
      [a, c];
    }
  }

  /** Critical, then not critical: only the first row qualifies. */
  lemma QualifyingOfTwo(a: Project, b: Project)
    requires IsCritical(a) && !IsCritical(b)
    ensures Qualifying([a, b]) == [a]
  {
    calc {
      Qualifying([a, b]);
    == { assert [a, b] == [a] + [b]; QualifyingSnoc([a], b); }
      Qualifying([a]);
    == { assert [a] == [] + [a]; QualifyingSnoc([], a); }
      Qualifying([]) + [a];
    }
  }

  lemma ExampleSorted()
    ensures SortByBudgetDescending([ExampleLateA, ExampleSuspendedB]) == [ExampleSuspendedB, ExampleLateA]
  {
    assert [ExampleLateA, ExampleSuspendedB][1..] == [ExampleSuspendedB];
    assert SortByBudgetDescending([ExampleSuspendedB]) == [ExampleSuspendedB];
  }

  /** With only province A selected the first two rows remain. */
  lemma ExampleOnlyA()
    ensures FilterRows(ExampleTable, ["A"], ["X", "Y"]) == [ExampleLateA, ExampleDoneA]
  {
    var t := ExampleTable;
    assert t[..2] == [ExampleLateA, ExampleDoneA] && t[..2][..1] == [t[0]] && [t[0]][..0] == [];
    assert Selected(t[0], ["A"], ["X", "Y"]) && Selected(t[1], ["A"], ["X", "Y"]) && !Selected(t[2], ["A"], ["X", "Y"]);
    assert FilterRows([t[0]], ["A"], ["X", "Y"]) == [t[0]];
    assert FilterRows(t[..2], ["A"], ["X", "Y"]) == [t[0], t[1]];
  }

  /** Those two rows give the bar chart the single entry A: 7 MDH ... */
  lemma ExampleOnlyABudget()
    ensures BudgetByProvince([ExampleLateA, ExampleDoneA]).Keys == {"A"}
    ensures BudgetByProvince([ExampleLateA, ExampleDoneA])["A"] == 7000000
  {
    ExampleOnlyAProvinceBudget();
    SingleProvinceChart([ExampleLateA, ExampleDoneA], "A");
  }

  /** A table whose every row lies in province `p` has a one-bar chart. */
  lemma SingleProvinceChart(rows: seq<Project>, p: string)
    requires |rows| > 0
    requires forall i :: 0 <= i < |rows| ==> rows[i].province == p
    ensures BudgetByProvince(rows).Keys == {p}
    ensures BudgetByProvince(rows)[p] == TotalBudget(Where(rows, Province, p))
  {
    var g := BudgetByProvince(rows);
    UniqueValuesCover(rows, Province);
    forall q ensures q in g <==> q == p {
      if q in ColumnValues(rows, Province) {
        var i :| 0 <= i < |rows| && ColumnValues(rows, Province)[i] == q;
      }
      assert ColumnValues(rows, Province)[0] == p;
    }
  }

  lemma ExampleOnlyAProvinceBudget()
    ensures TotalBudget(Where([ExampleLateA, ExampleDoneA], Province, "A")) == 7000000
  {
    var rows := [ExampleLateA, ExampleDoneA];
    assert rows[..1] == [ExampleLateA] && [ExampleLateA][..0] == [];
    assert Where(rows, Province, "A") == rows;
    assert SumBy([ExampleLateA], BudgetSum) == 6000000;
  }

  /** ... and only the late A project raises an alert. */
  lemma ExampleOnlyAAlerts()
    ensures CriticalProjects([ExampleLateA, ExampleDoneA]) == [ExampleLateA]
  {
    var rows := [ExampleLateA, ExampleDoneA];
    assert rows[..1] == [ExampleLateA] && [ExampleLateA][..0] == [];
    assert IsCritical(ExampleLateA) && !IsCritical(ExampleDoneA);
    assert Qualifying(rows) == [ExampleLateA];
    assert SortByBudgetDescending([ExampleLateA]) == [ExampleLateA];
  }

}
