/**
 * The second dashboard page: the same sidebar filters, three KPI cards, and
 * the data of the budget-per-province bar chart and the status pie chart.
 */
module Dashboard2 {

  import opened Wrappers
  import opened Projects
  import opened Filter
  import opened Aggregates
  import Dashboard

  /** The three KPI cards. */
  datatype Kpis = Kpis(
    totalBudget: nat,           // "Budget Total Investi"
    totalProjects: nat,         // "Nombre de Projets"
    avgProgress: Option<real>)  // "Taux d'Avancement Moyen"

  /** What the page shows for one filter choice. */
  datatype Summary = Summary(
    rows: seq<Project>,                  // df_filtered, also the detailed table
    kpis: Kpis,
    budgetByProvince: map<string, nat>,  // bar chart
    statusCounts: map<string, nat>)      // pie chart

  /** The page either stops on a missing data file or shows a summary. */
  datatype Page = FileNotFound | Shown(summary: Summary)

  /**
   * `total_budget`, `total_projects` and `avg_progress` of the filtered rows:
   * the budget sum (0 for no rows), the row count, and the mean progress,
   * which is missing, not a fault, exactly when no row is left.
   */
  function TopKpis(rows: seq<Project>): (k: Kpis)
    ensures k.totalBudget == TotalBudget(rows)
    ensures rows == [] ==> k.totalBudget == 0
    ensures k.totalProjects == |rows|
    ensures k.avgProgress.None? <==> k.totalProjects == 0
    ensures k.avgProgress.Some? ==> k.avgProgress.value * (k.totalProjects as real) == SumProgress(rows)
  {
    Kpis(TotalBudget(rows), |rows|, MeanProgress(rows))
  }

  /**
   * Every figure is computed from the filtered rows, and they agree: the bar
   * chart adds up to the budget card, the pie chart to the project count, and
   * the budget never exceeds that of the whole table.
   */
  function View(df: seq<Project>, selectedProvince: seq<string>, selectedSector: seq<string>): (v: Summary)
    ensures v.rows == FilterRows(df, selectedProvince, selectedSector)
    ensures v.kpis == TopKpis(v.rows)
    ensures v.budgetByProvince == BudgetByProvince(v.rows)
    ensures v.statusCounts == StatusDistribution(v.rows)
    ensures v.kpis.totalBudget <= TotalBudget(df)
    ensures forall p :: p in v.budgetByProvince <==> p in UniqueValues(v.rows, Province)
    ensures SumOver(v.budgetByProvince, UniqueValues(v.rows, Province)) == v.kpis.totalBudget
    ensures forall s :: s in v.statusCounts <==> s in UniqueValues(v.rows, Status)
    ensures SumOver(v.statusCounts, UniqueValues(v.rows, Status)) == v.kpis.totalProjects
  {
    var rows := FilterRows(df, selectedProvince, selectedSector);
    FilteredBudgetBound(df, selectedProvince, selectedSector);
    Summary(rows, TopKpis(rows), BudgetByProvince(rows), StatusDistribution(rows))
  }

  /**
   * The whole page: a missing file stops it; otherwise the multiselects start
   * at every distinct value, and then the page covers the whole table.
   */
  function Render(loaded: Option<seq<Project>>, selection: Selection): (p: Page)
    ensures p.FileNotFound? <==> loaded.None?
    ensures loaded.Some? && selection.AllValues? ==>
      && p.summary.rows == loaded.value
      && p.summary.kpis.totalProjects == |loaded.value|
      && p.summary.kpis.totalBudget == TotalBudget(loaded.value)
      && p.summary == View(loaded.value, UniqueValues(loaded.value, Province), UniqueValues(loaded.value, Sector))
    ensures loaded.Some? && selection.Chosen? ==>
      p.summary == View(loaded.value, selection.provinces, selection.sectors)
  {
    match loaded
    case None => FileNotFound
    case Some(df) =>
      match selection
      case AllValues =>
        DefaultFilterIsIdentity(df);
        Shown(View(df, UniqueValues(df, Province), UniqueValues(df, Sector)))
      case Chosen(provinces, sectors) =>
        Shown(View(df, provinces, sectors))
  }

  /** For the same table and filters, both pages show the same shared figures. */
  lemma PagesAgree(df: seq<Project>, selectedProvince: seq<string>, selectedSector: seq<string>)
    ensures var one, two := Dashboard.View(df, selectedProvince, selectedSector), View(df, selectedProvince, selectedSector);
      && two.rows == one.rows
      && two.kpis.totalBudget == one.metrics.budgetEngaged
      && two.kpis.totalProjects == one.metrics.activeProjects
      && two.kpis.avgProgress == one.metrics.meanProgress
      && two.budgetByProvince == one.budgetByProvince
      && two.statusCounts == one.statusCounts
  {
  }

}
