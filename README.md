# Marrakech-Safi PDR dashboards: the filter-and-aggregate core

The two Streamlit pages, `dashboard.py` and `dashboard2.py`, follow the projects of
the Plan de Développement Régional (PDR) of the Marrakech-Safi region. Both load a
table of projects. Each project has a Province, a Secteur, an Intitulé_Projet, a
Budget_DH, a Statut and a Taux_Avancement. The user narrows the table with two
sidebar multiselects, one for provinces and one for sectors. Both default to every
distinct value in the table. The pages then show figures computed from the filtered
rows:

- the total budget, the number of projects and the mean progress;
- on the first page only, the number of late projects ("En Retard");
- the budget summed per province (bar chart);
- the number of projects per status (pie chart);
- on the first page only, the "Alertes Critiques": suspended or late projects of
  more than 5,000,000 DH, largest budget first, at most five.

This project models that pipeline as pure Dafny functions over a `seq<Project>`, and
proves what the figures mean.

Modules:

- `Wrappers` holds `Option`.
- `Projects` holds the row type, column access and `unique()`.
- `Filter` holds the widget state and the boolean mask `Province.isin(...) & Secteur.isin(...)`.
- `Aggregates` holds sums, counts, the mean and `groupby().sum()`.
- `Critical` holds the alert selection.
- `Dashboard` covers the first page.
- `Dashboard2` covers the second page.

A loaded table is an `Option<seq<Project>>`, where `None` means the CSV file was not
found. The state of the two widgets is a `Selection`: either the defaults, or an
explicit choice of provinces and sectors.

Where the on-screen text and the code differ, the model follows the code:

- The alert caption at dashboard.py:110 says "> 10MDH", but the mask at
  dashboard.py:115 compares with 5,000,000. The model uses `BudgetThreshold ==
  5000000`.
- Statuses keep their French labels, "Suspendu" and "En Retard".
- Rows of equal budget in the alert list are not claimed to keep their input order.
  `sort_values` is called with pandas' default sort kind, which is not stable. The
  model sorts with an insertion sort, but no contract depends on its tie order.

## Model

| member | source | states |
|---|---|---|
| Projects.ColumnValues | dashboard.py:38 | the column as a sequence: one value per row, in row order |
| Projects.Unique | dashboard.py:38 | `unique()`: no duplicates; holds exactly the values of the input; never longer than the input; starts with the first value |
| Projects.UniqueValues | dashboard2.py:25-26 | the default widget options of a column, duplicate-free |
| Projects.UniqueValuesCover | dashboard2.py:25-26 | every row's value is among the options, and each option is the value of some row |
| Filter.Selected | dashboard.py:46-47 | the mask of one row: its province is one of the chosen provinces and its sector one of the chosen sectors, so no row passes an empty choice |
| Filter.FilterRows | dashboard.py:45-48 | the filtered table is no longer than the table, and each of its rows has a selected province and a selected sector |
| Filter.SelectedIndices | dashboard.py:45-48 | the positions of the selected rows, strictly increasing and in range |
| Filter.SelectedIndicesComplete | dashboard.py:45-48 | every selected position is listed |
| Filter.FilterRowsAtSelectedIndices | dashboard.py:45-48 | the k-th filtered row is exactly the row at the k-th selected position: each selected row kept once and unaltered, in input order |
| Filter.FilterRowsSound | dashboard2.py:36-39 | every filtered row is a row of the table and passes both membership tests |
| Filter.FilterRowsComplete | dashboard2.py:36-39 | every row that passes both tests is in the filtered table |
| Filter.FilterKeepsEverySelectedRow | dashboard.py:45-48 | when every row passes, the filter returns the table unchanged |
| Filter.DefaultFilterIsIdentity | dashboard.py:37-48 | with all distinct provinces and sectors selected, the filtered table is the table |
| Filter.EmptySelectionKeepsNothing | dashboard2.py:23-39 | an empty province or sector selection yields the empty table |
| Filter.FilterNarrowing | dashboard.py:45-48 | filtering again with smaller selections is the same as filtering once with the smaller ones |
| Aggregates.SumBy | dashboard.py:79 | a column sum is at least each row's contribution |
| Aggregates.TotalBudget | dashboard2.py:47 | `Budget_DH.sum()`: at least every row's budget, and 0 exactly when every budget is 0, in particular on no rows |
| Aggregates.SumBySnoc | dashboard.py:79 | adding one row adds that row's contribution |
| Aggregates.SumByAppend | dashboard.py:79 | the sum over two tables joined is the sum of their sums |
| Aggregates.SumByRowCountIsLength | dashboard.py:80 | counting rows gives `len` |
| Aggregates.SumByZero | dashboard2.py:47 | a sum is 0 exactly when every row contributes 0; in particular 0 on no rows |
| Aggregates.FilteredBudgetBound | dashboard.py:79 | the Budget Engagé of the filtered rows never exceeds the budget of the whole table |
| Aggregates.FilteredBudgetMonotone | dashboard.py:79 | narrowing the selections never increases the budget |
| Aggregates.Where | dashboard.py:81 | `df[df[col] == v]`: no longer than the table, every row has the value |
| Aggregates.WhereExactly | dashboard.py:81 | its rows are exactly the rows of the table with that value |
| Aggregates.WhereCounts | dashboard.py:81 | each row with the value occurs in the selection exactly as often as in the table, and no other row occurs, so its `len` counts duplicate rows |
| Aggregates.WhereNonEmpty | dashboard.py:81 | non-empty exactly when the value occurs in the column |
| Aggregates.WhereAll | dashboard.py:81 | keeps every row exactly when all rows have the value |
| Aggregates.SumProgress | dashboard2.py:49 | the Taux_Avancement column summed, as `mean()` uses it; its value is tied down by Aggregates.SumProgressBounds and Aggregates.MeanTimesCount |
| Aggregates.MeanProgress | dashboard2.py:49 | the mean is missing (NaN) exactly when there are no rows |
| Aggregates.MeanTimesCount | dashboard2.py:49 | when present, the mean times the row count is the sum of Taux_Avancement |
| Aggregates.SumProgressBounds | dashboard.py:82 | with every progress in [lo, hi], the sum lies between lo and hi times the count |
| Aggregates.MeanProgressWithin | dashboard.py:82 | with every progress in [lo, hi], the mean lies in [lo, hi] |
| Aggregates.MeanBetween | dashboard.py:82 | a quotient whose sum lies between lo·n and hi·n lies between lo and hi |
| Aggregates.GroupBy | dashboard.py:127 | `groupby(col)[measure].sum()`: one key per value present in the column; each entry is that group's sum |
| Aggregates.AddToGroupStep | dashboard.py:127 | adding one row to the accumulated groups keeps the key set and the group sums correct |
| Aggregates.AddToGroupAt | dashboard.py:127 | after adding one row, the entry of one key is that key's group sum |
| Aggregates.ColumnValuesSnoc | dashboard.py:127 | a column of a table with one row added ends with that row's value |
| Aggregates.WhereSnoc | dashboard.py:127 | adding a row adds it to its own group only |
| Aggregates.SumOfGroupsSnoc | dashboard.py:127 | over distinct keys, adding a row raises the group sums by its contribution when its key is listed |
| Aggregates.SumOfGroupsIsTotal | dashboard.py:127 | over distinct keys that cover every row, the group sums add up to the total |
| Aggregates.ZeroGroups | dashboard.py:127 | every group of the empty table sums to 0 |
| Aggregates.SumOverGroupBy | dashboard.py:127 | summing the map entries on present keys equals summing the group sums |
| Aggregates.GroupByAddsUp | dashboard2.py:65 | the per-group entries over the distinct values present add up to the column total |
| Aggregates.GroupCountsPositive | dashboard2.py:79-84 | every count per value is positive and is the size of its group |
| Aggregates.BudgetByProvince | dashboard2.py:65 | one bar per province present; each bar is that province's budget; the bars add up to the total budget |
| Aggregates.StatusDistribution | dashboard.py:151-156 | one slice per status present; each slice is the number of projects with that status and is positive; the slices add up to the number of projects |
| Critical.IsCritical | dashboard.py:114-115 | a row is critical exactly when its status is "Suspendu" or "En Retard" and its budget exceeds 5,000,000 DH |
| Critical.Qualifying | dashboard.py:113-115 | every candidate is suspended or late with more than 5,000,000 DH, and is drawn from the table |
| Critical.QualifyingSnoc | dashboard.py:113-115 | adding a row adds it to the candidates exactly when it is critical |
| Critical.QualifyingComplete | dashboard.py:113-115 | every critical row of the table is a candidate |
| Critical.QualifyingCounts | dashboard.py:113-115 | each critical row is a candidate exactly as often as it occurs in the table, and no other row is |
| Critical.Insert | dashboard.py:116 | inserting into a list ordered by decreasing budget keeps it ordered and adds exactly that row |
| Critical.ConsNonIncreasing | dashboard.py:116 | a row at least as large as the head can be put in front |
| Critical.SortByBudgetDescending | dashboard.py:116 | `sort_values(ascending=False)`: ordered by decreasing budget and a permutation of its input |
| Critical.Head | dashboard.py:116 | `head(n)`: the first min(n, length) rows |
| Critical.CriticalProjects | dashboard.py:113-116 | at most 5 alerts; exactly 5 unless fewer rows qualify; each alert is critical; ordered by decreasing budget |
| Critical.TopCritical | dashboard.py:116 | the head of the sorted candidates is critical and ordered |
| Critical.PrefixMultiset | dashboard.py:116 | `head` keeps a sub-multiset |
| Critical.PrefixNonIncreasing | dashboard.py:116 | `head` of an ordered list is ordered |
| Critical.CriticalKept | dashboard.py:113-116 | rows drawn from critical rows are critical |
| Critical.CriticalProjectsAreTheLargest | dashboard.py:116 | the alerts are drawn from the candidates; no candidate left out has a larger budget than an alert shown; with at most 5 candidates all are shown |
| Critical.FewCandidatesAllShown | dashboard.py:113-116 | when at most 5 rows qualify, the alerts hold every critical row of the table, as often as it occurs there, and nothing else |
| Critical.CriticalRowsOfTable | dashboard.py:113-115 | every alert is a critical row of the table |
| Critical.TopOfSorted | dashboard.py:116 | what `head` drops from an ordered list is no larger than anything it keeps |
| Dashboard.CardMetrics | dashboard.py:79-82 | Budget Engagé is the budget sum; Projets Actifs is the row count; Projets en Retard counts the "En Retard" rows, is at most Projets Actifs, and is 0 exactly when no row is late; the mean is missing exactly when there are no rows |
| Dashboard.View | dashboard.py:45-156 | every figure is taken from the filtered rows; the budget is at most that of the whole table; the bars add up to the budget card; the slices add up to the project count |
| Dashboard.AlertsAreFilteredCriticalRows | dashboard.py:113-115 | each alert is a critical row of the table that passes the filter |
| Dashboard.Render | dashboard.py:24-48 | a missing file stops the page; with the default widgets the page is the view at all distinct provinces and sectors, and shows the whole table, its count and its budget |
| Dashboard.ExampleAllSelected | dashboard.py:37-48 | on a three-row table, the default selections keep all rows |
| Dashboard.ExampleAllCards | dashboard.py:79-81 | that table's cards read 14,000,000 DH and one late project |
| Dashboard.ExampleAlerts | dashboard.py:113-116 | on that table, the alerts are the suspended 7 MDH project, then the late 6 MDH one |
| Dashboard.ExampleQualifying | dashboard.py:113-115 | on that table, the completed project is not a candidate |
| Dashboard.QualifyingOfThree | dashboard.py:113-115 | of three rows, critical, not critical, critical, the middle one is dropped |
| Dashboard.QualifyingOfTwo | dashboard.py:113-115 | of two rows, critical then not critical, only the first is a candidate |
| Dashboard.ExampleSorted | dashboard.py:116 | the 7 MDH candidate comes before the 6 MDH one |
| Dashboard.ExampleOnlyA | dashboard.py:45-48 | selecting province A keeps that province's two rows, in order |
| Dashboard.ExampleOnlyABudget | dashboard.py:127 | their bar chart has the single bar A at 7,000,000 DH |
| Dashboard.SingleProvinceChart | dashboard.py:127 | a table from a single province gives a one-bar chart holding its budget |
| Dashboard.ExampleOnlyAProvinceBudget | dashboard.py:127 | the A group of those rows sums to 7,000,000 DH |
| Dashboard.ExampleOnlyAAlerts | dashboard.py:113-116 | of those rows only the late project raises an alert |
| Dashboard2.TopKpis | dashboard2.py:47-49 | total_budget is the budget sum, 0 with no rows; total_projects is the row count; avg_progress is missing exactly when there are no rows, and otherwise times the count gives the progress sum |
| Dashboard2.View | dashboard2.py:36-84 | every figure is taken from the filtered rows; the budget is at most that of the whole table; the bars add up to total_budget; the slices add up to total_projects |
| Dashboard2.Render | dashboard2.py:15-39 | a missing file stops the page; with the default widgets the page is the view at all distinct provinces and sectors, and shows the whole table |
| Dashboard2.PagesAgree | dashboard2.py:36-49 | for the same table and selections, both pages show the same rows, budget, count, mean, bars and slices |

## Left out

- Reading the CSV file is left out. It is file I/O, so the loaded table is an input (`Option<seq<Project>>`). The message shown by `st.error` before `st.stop()` is left out too.
- The simulated GPS coordinates (dashboard.py:19-21) are left out. They come from numpy's seeded random generator and floating point, and nothing in the model depends on them.
- The CSV export (dashboard.py:53-60) is left out: it is pandas serialisation plus a download widget.
- Display formatting (`/1e6`, `:.1f`, `:,.0f`, the `delta` strings) is left out.
- All Streamlit and Plotly rendering is left out. This covers page set-up, CSS, images, the map, figure building, the `iterrows` loop that prints the alerts, and `st.dataframe`. Only the data handed to them is modelled.
- The box plot of progress per sector (dashboard.py:137-143) is left out. Its quartiles are computed inside Plotly.
- Missing cells (NaN), which pandas' `sum` and `mean` skip, are not modelled. Every row has a budget and a progress value.
- Budgets are unbounded naturals and progress is an exact real. Overflow and rounding of int64/float64 are not modelled.
- Aggregates.GroupBy: the map has no key order. The sorted order of the keys that `groupby` returns is not modelled.
- Projects.Unique: the contract states the set of values, that they are distinct, and the first value. It does not state the full first-occurrence order, though the function keeps that order.
- Critical.SortByBudgetDescending: no order is stated among rows of equal budget, because pandas' default sort is not stable.
- Aggregates.MeanProgress: its own contract states only that the mean is missing exactly on an empty table. The value itself is stated by Aggregates.MeanTimesCount, Dashboard.CardMetrics and Dashboard2.TopKpis.
