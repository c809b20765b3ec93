/**
 * The whole-column aggregates both dashboards compute over the filtered
 * table: `sum`, `len`, `mean`, an equality selection `df[df[c] == v]`, and
 * `groupby(c)` with a per-group total.
 */
module Aggregates {

  import opened Wrappers
  import opened Projects
  import opened Filter

  /** What a group-by adds up per row: the Budget_DH cell, or 1 to count rows. */
  datatype Measure = BudgetSum | RowCount

  function Weight(r: Project, m: Measure): nat
  {
    match m
    case BudgetSum => r.budget
    case RowCount => 1
  }

  /** The sum of a measure over the rows; every single row's share is bounded by it. */
  function SumBy(t: seq<Project>, m: Measure): (s: nat)
    ensures forall i :: 0 <= i < |t| ==> Weight(t[i], m) <= s
    decreases |t|
  {
    if |t| == 0 then 0
    else
      var init := t[..|t| - 1];
      assert forall i :: 0 <= i < |t| - 1 ==> t[i] == init[i];
      SumBy(init, m) + Weight(t[|t| - 1], m)
  }

  /**
   * `df["Budget_DH"].sum()`: at least every row's budget, and 0 exactly when
   * every row has a zero budget (in particular on no rows).
   */
  function TotalBudget(t: seq<Project>): (b: nat)
    ensures forall i :: 0 <= i < |t| ==> t[i].budget <= b
    ensures b == 0 <==> forall i :: 0 <= i < |t| ==> t[i].budget == 0
  {
    SumByZero(t, BudgetSum);
    SumBy(t, BudgetSum)
  }

  lemma SumBySnoc(t: seq<Project>, x: Project, m: Measure)
    ensures SumBy(t + [x], m) == SumBy(t, m) + Weight(x, m)
  {
    assert (t + [x])[..|t|] == t;
  }

  /** Sums split over concatenation. */
  lemma {:induction false} SumByAppend(a: seq<Project>, b: seq<Project>, m: Measure)
    ensures SumBy(a + b, m) == SumBy(a, m) + SumBy(b, m)
    decreases |b|
  {
    if |b| > 0 {
      var init, x := b[..|b| - 1], b[|b| - 1];
      assert b == init + [x];
      assert a + b == (a + init) + [x];
      SumByAppend(a, init, m);
      SumBySnoc(a + init, x, m);
      SumBySnoc(init, x, m);
    } else {
      assert a + b == a;
    }
  }

  /** Counting rows is `len`. */
  lemma {:induction false} SumByRowCountIsLength(t: seq<Project>)
    ensures SumBy(t, RowCount) == |t|
    decreases |t|
  {
    if |t| > 0 {
      SumByRowCountIsLength(t[..|t| - 1]);
    }
  }

  /** The sum is 0 exactly when every row contributes 0; an empty table sums to 0. */
  lemma {:induction false} SumByZero(t: seq<Project>, m: Measure)
    ensures SumBy(t, m) == 0 <==> forall i :: 0 <= i < |t| ==> Weight(t[i], m) == 0
    decreases |t|
  {
    if |t| > 0 {
      var init := t[..|t| - 1];
      SumByZero(init, m);
      assert forall i :: 0 <= i < |t| - 1 ==> t[i] == init[i];
    }
  }

  /**
   * The budget of the filtered table is never larger than that of the whole
   * table (budgets are non-negative).
   */
  lemma {:induction false} FilteredBudgetBound(t: seq<Project>, provinces: seq<string>, sectors: seq<string>)
    ensures TotalBudget(FilterRows(t, provinces, sectors)) <= TotalBudget(t)
    decreases |t|
  {
    if |t| > 0 {
      var init, x := t[..|t| - 1], t[|t| - 1];
      FilteredBudgetBound(init, provinces, sectors);
      var f := FilterRows(init, provinces, sectors);
      SumBySnoc(f, x, BudgetSum);
    }
  }

  /** Narrowing a selection never increases the budget shown. */
  lemma FilteredBudgetMonotone(t: seq<Project>, provinces: seq<string>, sectors: seq<string>,
                               provinces': seq<string>, sectors': seq<string>)
    requires forall p :: p in provinces' ==> p in provinces
    requires forall s :: s in sectors' ==> s in sectors
    ensures TotalBudget(FilterRows(t, provinces', sectors')) <= TotalBudget(FilterRows(t, provinces, sectors))
  {
    FilterNarrowing(t, provinces, sectors, provinces', sectors');
    FilteredBudgetBound(FilterRows(t, provinces, sectors), provinces', sectors');
  }

  /** `df[df[c] == v]`: the rows whose cell in column `c` equals `v`, in table order. */
  function Where(t: seq<Project>, c: Column, v: string): (w: seq<Project>)
    ensures |w| <= |t|
    ensures forall k :: 0 <= k < |w| ==> Cell(w[k], c) == v
    decreases |t|
  {
    if |t| == 0 then []
    else
      var w := Where(t[..|t| - 1], c, v);
      var x := t[|t| - 1];
      if Cell(x, c) == v then w + [x] else w
  }

  /** The selection holds rows of the table only, and every row with that value. */
  lemma {:induction false} WhereExactly(t: seq<Project>, c: Column, v: string)
    ensures forall r :: r in Where(t, c, v) ==> r in t && Cell(r, c) == v
    ensures forall i :: 0 <= i < |t| && Cell(t[i], c) == v ==> t[i] in Where(t, c, v)
    decreases |t|
  {
    if |t| > 0 {
      var init, x := t[..|t| - 1], t[|t| - 1];
      WhereExactly(init, c, v);
      assert t == init + [x];
      assert forall i :: 0 <= i < |t| - 1 ==> t[i] == init[i];
    }
  }

  /** Each row with that value occurs in the selection exactly as often as in the table. */
  lemma {:induction false} WhereCounts(t: seq<Project>, c: Column, v: string)
    ensures forall r :: multiset(Where(t, c, v))[r] == if Cell(r, c) == v then multiset(t)[r] else 0
    decreases |t|
  {
    if |t| > 0 {
      var init, x := t[..|t| - 1], t[|t| - 1];
      WhereCounts(init, c, v);
      assert t == init + [x];
      assert multiset(t) == multiset(init) + multiset{x};
    }
  }

  /** The selection is non-empty exactly when the value occurs in the column. */
  lemma {:induction false} WhereNonEmpty(t: seq<Project>, c: Column, v: string)
    ensures |Where(t, c, v)| > 0 <==> v in ColumnValues(t, c)
  {
    var w := Where(t, c, v);
    WhereExactly(t, c, v);
    if |w| > 0 {
      assert w[0] in t;
      var i :| 0 <= i < |t| && t[i] == w[0];
      assert ColumnValues(t, c)[i] == v;
    }
    if v in ColumnValues(t, c) {
      var i :| 0 <= i < |t| && ColumnValues(t, c)[i] == v;
      assert t[i] in w;
    }
  }

  /** Every row is selected exactly when the selection is the whole table. */
  lemma {:induction false} WhereAll(t: seq<Project>, c: Column, v: string)
    ensures |Where(t, c, v)| == |t| <==> forall i :: 0 <= i < |t| ==> Cell(t[i], c) == v
    decreases |t|
  {
    if |t| > 0 {
      var init, x := t[..|t| - 1], t[|t| - 1];
      WhereAll(init, c, v);
      var w := Where(init, c, v);
      assert forall i :: 0 <= i < |t| - 1 ==> t[i] == init[i];
      if Cell(x, c) == v {
        assert Where(t, c, v) == w + [x];
        assert (forall i :: 0 <= i < |t| ==> Cell(t[i], c) == v)
           <==> (forall i :: 0 <= i < |init| ==> Cell(init[i], c) == v);
      } else {
        assert Where(t, c, v) == w;
        assert Cell(t[|t| - 1], c) != v;
      }
    }
  }

  /** `df["Taux_Avancement"].sum()`. */
  function SumProgress(t: seq<Project>): real
    decreases |t|
  {
    if |t| == 0 then 0.0 else SumProgress(t[..|t| - 1]) + t[|t| - 1].progress
  }

  /**
   * `df["Taux_Avancement"].mean()`: the sum divided by the row count, and no
   * number at all (pandas' NaN) on an empty table rather than a division fault.
   */
  function MeanProgress(t: seq<Project>): (r: Option<real>)
    ensures r.None? <==> |t| == 0
  {
    if |t| == 0 then None else Some(SumProgress(t) / (|t| as real))
  }

  /** The mean times the row count is the sum. */
  lemma MeanTimesCount(t: seq<Project>)
    ensures MeanProgress(t).Some? ==> MeanProgress(t).value * (|t| as real) == SumProgress(t)
  {
  }

  lemma {:induction false} SumProgressBounds(t: seq<Project>, lo: real, hi: real)
    requires forall i :: 0 <= i < |t| ==> lo <= t[i].progress <= hi
    ensures lo * (|t| as real) <= SumProgress(t) <= hi * (|t| as real)
    decreases |t|
  {
    if |t| > 0 {
      var init := t[..|t| - 1];
      assert forall i :: 0 <= i < |t| - 1 ==> t[i] == init[i];
      SumProgressBounds(init, lo, hi);
      assert lo * (|t| as real) == lo * (|init| as real) + lo;
      assert hi * (|t| as real) == hi * (|init| as real) + hi;
    }
  }

  /** When every progress rate lies in [lo, hi] (0..100 in the data), so does the mean. */
  lemma MeanProgressWithin(t: seq<Project>, lo: real, hi: real)
    requires forall i :: 0 <= i < |t| ==> lo <= t[i].progress <= hi
    ensures MeanProgress(t).Some? ==> lo <= MeanProgress(t).value <= hi
  {
    if |t| > 0 {
      SumProgressBounds(t, lo, hi);
      MeanTimesCount(t);
      MeanBetween(SumProgress(t), |t| as real, MeanProgress(t).value, lo, hi);
    }
  }

  /** A quotient of a sum lying between `lo * n` and `hi * n` lies between `lo` and `hi`. */
  lemma MeanBetween(sum: real, n: real, mean: real, lo: real, hi: real)
    requires n > 0.0 && mean * n == sum
    requires lo * n <= sum <= hi * n
    ensures lo <= mean <= hi
  {
  }

  /**
   * `df.groupby(c)[measure].sum()`: one entry per value present in column `c`,
   * holding the measure summed over that group's rows.
   */
  function GroupBy(t: seq<Project>, c: Column, m: Measure): (g: map<string, nat>)
    ensures forall k :: k in g <==> k in ColumnValues(t, c)
    ensures forall k :: k in g ==> g[k] == SumBy(Where(t, c, k), m)
    decreases |t|
  {
    if |t| == 0 then map[]
    else
      var init, x := t[..|t| - 1], t[|t| - 1];
      var g := GroupBy(init, c, m);
      assert t == init + [x];
      AddToGroupStep(init, x, c, m, g);
      AddToGroup(g, Cell(x, c), Weight(x, m))
  }

  /** One row folded into the running group totals. */
  function AddToGroup(g: map<string, nat>, key: string, w: nat): map<string, nat>
  {
    g[key := (if key in g then g[key] else 0) + w]
  }

  lemma AddToGroupStep(init: seq<Project>, x: Project, c: Column, m: Measure, g: map<string, nat>)
    requires forall k :: k in g <==> k in ColumnValues(init, c)
    requires forall k :: k in g ==> g[k] == SumBy(Where(init, c, k), m)
    ensures forall k :: k in AddToGroup(g, Cell(x, c), Weight(x, m)) <==> k in ColumnValues(init + [x], c)
    ensures forall k :: k in AddToGroup(g, Cell(x, c), Weight(x, m)) ==>
      AddToGroup(g, Cell(x, c), Weight(x, m))[k] == SumBy(Where(init + [x], c, k), m)
  {
    var key := Cell(x, c);
    var g' := AddToGroup(g, key, Weight(x, m));
    assert g'.Keys == g.Keys + {key};
    ColumnValuesSnoc(init, x, c);
    forall k ensures k in g' <==> k in ColumnValues(init + [x], c) {
      assert k in g' <==> k in g || k == key;
      assert k in ColumnValues(init, c) + [key] <==> k in ColumnValues(init, c) || k == key;
    }
    forall k | k in g' ensures g'[k] == SumBy(Where(init + [x], c, k), m) {
      AddToGroupAt(init, x, c, m, g, k);
    }
  }

  lemma AddToGroupAt(init: seq<Project>, x: Project, c: Column, m: Measure, g: map<string, nat>, k: string)
    requires k in g <==> k in ColumnValues(init, c)
    requires k in g ==> g[k] == SumBy(Where(init, c, k), m)
    requires k in g || k == Cell(x, c)
    ensures AddToGroup(g, Cell(x, c), Weight(x, m))[k] == SumBy(Where(init + [x], c, k), m)
  {
    var key := Cell(x, c);
    WhereSnoc(init, x, c, k);
    if k == key {
      SumBySnoc(Where(init, c, k), x, m);
      if key !in g {
        WhereNonEmpty(init, c, k);
      }
    }
  }

  lemma ColumnValuesSnoc(init: seq<Project>, x: Project, c: Column)
    ensures ColumnValues(init + [x], c) == ColumnValues(init, c) + [Cell(x, c)]
  {
  }

  lemma WhereSnoc(init: seq<Project>, x: Project, c: Column, v: string)
    ensures Where(init + [x], c, v) == Where(init, c, v) + (if Cell(x, c) == v then [x] else [])
  {
    assert (init + [x])[..|init|] == init;
  }

  /** The values of `g` added up along the key sequence `keys`. */
  function SumOver(g: map<string, nat>, keys: seq<string>): nat
    requires forall k :: k in keys ==> k in g
  {
    if |keys| == 0 then 0 else g[keys[0]] + SumOver(g, keys[1..])
  }

  /** The measure summed along `keys`, group by group. */
  function SumOfGroups(t: seq<Project>, c: Column, m: Measure, keys: seq<string>): nat
  {
    if |keys| == 0 then 0 else SumBy(Where(t, c, keys[0]), m) + SumOfGroups(t, c, m, keys[1..])
  }

  /** Adding one row adds its measure to exactly one group, when its key is listed once. */
  lemma {:induction false} SumOfGroupsSnoc(t: seq<Project>, x: Project, c: Column, m: Measure, keys: seq<string>)
    requires Distinct(keys)
    ensures SumOfGroups(t + [x], c, m, keys)
         == SumOfGroups(t, c, m, keys) + (if Cell(x, c) in keys then Weight(x, m) else 0)
    decreases |keys|
  {
    if |keys| > 0 {
      var k, rest := keys[0], keys[1..];
      assert Distinct(rest) by {
        forall i, j | 0 <= i < j < |rest| ensures rest[i] != rest[j] {
          assert rest[i] == keys[i + 1] && rest[j] == keys[j + 1];
        }
      }
      SumOfGroupsSnoc(t, x, c, m, rest);
      WhereSnoc(t, x, c, k);
      assert Cell(x, c) in keys <==> Cell(x, c) == k || Cell(x, c) in rest by {
        assert keys == [k] + rest;
      }
      if k == Cell(x, c) {
        SumBySnoc(Where(t, c, k), x, m);
        assert k !in rest by {
          forall j | 0 <= j < |rest| ensures rest[j] != k {
            assert rest[j] == keys[j + 1];
          }
        }
      }
    }
  }

  /** Summing group totals over distinct keys covering every row gives the grand total. */
  lemma {:induction false} SumOfGroupsIsTotal(t: seq<Project>, c: Column, m: Measure, keys: seq<string>)
    requires Distinct(keys)
    requires forall i :: 0 <= i < |t| ==> Cell(t[i], c) in keys
    ensures SumOfGroups(t, c, m, keys) == SumBy(t, m)
    decreases |t|
  {
    if |t| == 0 {
      ZeroGroups(c, m, keys);
    } else {
      var init, x := t[..|t| - 1], t[|t| - 1];
      assert forall i :: 0 <= i < |t| - 1 ==> init[i] == t[i];
      SumOfGroupsIsTotal(init, c, m, keys);
      assert t == init + [x];
      SumOfGroupsSnoc(init, x, c, m, keys);
    }
  }

  lemma {:induction false} ZeroGroups(c: Column, m: Measure, keys: seq<string>)
    ensures SumOfGroups([], c, m, keys) == 0
    decreases |keys|
  {
    if |keys| > 0 {
      ZeroGroups(c, m, keys[1..]);
    }
  }

  lemma {:induction false} SumOverGroupBy(t: seq<Project>, c: Column, m: Measure, keys: seq<string>)
    requires forall k :: k in keys ==> k in ColumnValues(t, c)
    ensures forall k :: k in keys ==> k in GroupBy(t, c, m)
    ensures SumOver(GroupBy(t, c, m), keys) == SumOfGroups(t, c, m, keys)
    decreases |keys|
  {
    if |keys| > 0 {
      SumOverGroupBy(t, c, m, keys[1..]);
    }
  }

  /**
   * The group totals of `df.groupby(c)` add up to the total over the table,
   * whatever order the distinct keys are listed in.
   */
  lemma GroupByAddsUp(t: seq<Project>, c: Column, m: Measure, keys: seq<string>)
    requires Distinct(keys)
    requires forall k :: k in keys <==> k in ColumnValues(t, c)
    ensures forall k :: k in keys ==> k in GroupBy(t, c, m)
    ensures SumOver(GroupBy(t, c, m), keys) == SumBy(t, m)
  {
    SumOverGroupBy(t, c, m, keys);
    forall i | 0 <= i < |t| ensures Cell(t[i], c) in keys {
      assert ColumnValues(t, c)[i] == Cell(t[i], c);
    }
    SumOfGroupsIsTotal(t, c, m, keys);
  }

  /** Every group in a row count is non-empty: each count is positive. */
  lemma GroupCountsPositive(t: seq<Project>, c: Column)
    ensures forall k :: k in GroupBy(t, c, RowCount) ==>
      GroupBy(t, c, RowCount)[k] == |Where(t, c, k)| > 0
  {
    var g := GroupBy(t, c, RowCount);
    forall k | k in g ensures g[k] == |Where(t, c, k)| > 0 {
      SumByRowCountIsLength(Where(t, c, k));
      WhereNonEmpty(t, c, k);
    }
  }

  /**
   * `df.groupby("Province")["Budget_DH"].sum()`, the bar chart's data: one
   * entry per province present, each that province's budget, all of them
   * adding up to the total budget.
   */
  function BudgetByProvince(t: seq<Project>): (g: map<string, nat>)
    ensures forall p :: p in g <==> p in UniqueValues(t, Province)
    ensures forall p :: p in g ==> g[p] == TotalBudget(Where(t, Province, p))
    ensures SumOver(g, UniqueValues(t, Province)) == TotalBudget(t)
  {
    UniqueValuesCover(t, Province);
    GroupByAddsUp(t, Province, BudgetSum, UniqueValues(t, Province));
    GroupBy(t, Province, BudgetSum)
  }

  /**
   * The slices of `px.pie(df, names="Statut")`: one count per status present,
   * each positive and equal to the number of rows with that status, all of
   * them adding up to the row count.
   */
  function StatusDistribution(t: seq<Project>): (g: map<string, nat>)
    ensures forall s :: s in g <==> s in UniqueValues(t, Status)
    ensures forall s :: s in g ==> g[s] == |Where(t, Status, s)| > 0
    ensures SumOver(g, UniqueValues(t, Status)) == |t|
  {
    UniqueValuesCover(t, Status);
    GroupByAddsUp(t, Status, RowCount, UniqueValues(t, Status));
    SumByRowCountIsLength(t);
    GroupCountsPositive(t, Status);
    GroupBy(t, Status, RowCount)
  }

}
