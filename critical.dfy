/**
 * The "Alertes Critiques" panel of the first dashboard: filtered rows that are
 * suspended or late and carry a large budget, largest budget first, at most
 * five of them.
 */
module Critical {

  import opened Projects

  /** The statuses that raise an alert. */
  const AlertStatuses: seq<string> := [Suspended, Late]

  /** Budget_DH must be strictly above this to raise an alert. */
  const BudgetThreshold: nat := 5000000

  /** At most this many alerts are shown (`head(5)`). */
  const AlertLimit: nat := 5

  /** A row is critical when it is suspended or late and its budget exceeds the threshold. */
  predicate IsCritical(r: Project): (b: bool)
    ensures b <==> (r.status == Suspended || r.status == Late) && r.budget > BudgetThreshold
  {
    r.status in AlertStatuses && r.budget > BudgetThreshold
  }

  /** The mask `Statut.isin([...]) & (Budget_DH > 5000000)`, order preserved. */
  function Qualifying(t: seq<Project>): (q: seq<Project>)
    ensures |q| <= |t|
    ensures forall k :: 0 <= k < |q| ==> IsCritical(q[k])
    ensures multiset(q) <= multiset(t)
    decreases |t|
  {
    if |t| == 0 then []
    else
      var init, x := t[..|t| - 1], t[|t| - 1];
      var q := Qualifying(init);
      assert t == init + [x];
      if IsCritical(x) then q + [x] else q
  }

  /** Appending a row appends it to the alert candidates exactly when it is critical. */
  lemma QualifyingSnoc(t: seq<Project>, x: Project)
    ensures Qualifying(t + [x]) == if IsCritical(x) then Qualifying(t) + [x] else Qualifying(t)
  {
    assert (t + [x])[..|t + [x]| - 1] == t;
  }

  /** Every critical row of the table qualifies. */
  lemma {:induction false} QualifyingComplete(t: seq<Project>)
    ensures forall i :: 0 <= i < |t| && IsCritical(t[i]) ==> t[i] in Qualifying(t)
    decreases |t|
  {
    if |t| > 0 {
      var init := t[..|t| - 1];
      QualifyingComplete(init);
      assert forall i :: 0 <= i < |t| - 1 ==> t[i] == init[i];
    }
  }

  /** Each critical row qualifies exactly as often as it occurs in the table; no other row does. */
  lemma {:induction false} QualifyingCounts(t: seq<Project>)
    ensures forall r :: multiset(Qualifying(t))[r] == if IsCritical(r) then multiset(t)[r] else 0
    decreases |t|
  {
    if |t| > 0 {
      var init, x := t[..|t| - 1], t[|t| - 1];
      QualifyingCounts(init);
      assert t == init + [x];
      assert multiset(t) == multiset(init) + multiset{x};
    }
  }

  /** Ordered by Budget_DH, largest first. */
  predicate NonIncreasing(s: seq<Project>)
  {
    forall i, j :: 0 <= i < j < |s| ==> s[i].budget >= s[j].budget
  }

  /** Places `x` into a list already in decreasing budget order. */
  function Insert(x: Project, s: seq<Project>): (r: seq<Project>)
    requires NonIncreasing(s)
    ensures NonIncreasing(r)
    ensures multiset(r) == multiset(s) + multiset{x}
    ensures r[0] == x || (|s| > 0 && r[0] == s[0])
    decreases |s|
  {
    if |s| == 0 then [x]
    else if x.budget >= s[0].budget then
      ConsNonIncreasing(x, s);
      [x] + s
    else
      var r := Insert(x, s[1..]);
      assert s[0].budget >= r[0].budget by {
        if r[0] != x {
          assert r[0] == s[1];
        }
      }
      ConsNonIncreasing(s[0], r);
      assert s == [s[0]] + s[1..];
      [s[0]] + r
  }

  /** A row no smaller than the head of a decreasing list can go in front of it. */
  lemma ConsNonIncreasing(y: Project, s: seq<Project>)
    requires NonIncreasing(s)
    requires |s| > 0 ==> y.budget >= s[0].budget
    ensures NonIncreasing([y] + s)
  {
    forall i, j | 0 <= i < j < |s| + 1 ensures ([y] + s)[i].budget >= ([y] + s)[j].budget {
      if i > 0 {
        assert ([y] + s)[i] == s[i - 1];
      } else if j > 1 {
        assert s[0].budget >= s[j - 1].budget;
      }
    }
  }

  /**
   * `sort_values("Budget_DH", ascending=False)`: a rearrangement in decreasing
   * budget order. Rows of equal budget may come in any order; nothing below
   * depends on which.
   */
  function SortByBudgetDescending(s: seq<Project>): (r: seq<Project>)
    ensures NonIncreasing(r)
    ensures multiset(r) == multiset(s)
    decreases |s|
  {
    if |s| == 0 then []
    else
      assert s == [s[0]] + s[1..];
      Insert(s[0], SortByBudgetDescending(s[1..]))
  }

  /** `head(n)`. */
  function Head(s: seq<Project>, n: nat): (r: seq<Project>)
    ensures |r| == if |s| <= n then |s| else n
    ensures r == s[..|r|]
  {
    if |s| <= n then s else s[..n]
  }

  /**
   * The alert list over a (filtered) table: at most five rows, each of them
   * critical, in decreasing budget order; five unless fewer rows qualify.
   */
  function CriticalProjects(t: seq<Project>): (r: seq<Project>)
    ensures |r| <= AlertLimit
    ensures |r| == if |Qualifying(t)| <= AlertLimit then |Qualifying(t)| else AlertLimit
    ensures forall k :: 0 <= k < |r| ==> IsCritical(r[k])
    ensures NonIncreasing(r)
  {
    TopCritical(Qualifying(t), AlertLimit);
    Head(SortByBudgetDescending(Qualifying(t)), AlertLimit)
  }

  /** The first `n` rows of a sorted list of critical rows are critical and sorted. */
  lemma TopCritical(q: seq<Project>, n: nat)
    requires forall k :: 0 <= k < |q| ==> IsCritical(q[k])
    ensures forall k :: 0 <= k < |Head(SortByBudgetDescending(q), n)| ==> IsCritical(Head(SortByBudgetDescending(q), n)[k])
    ensures NonIncreasing(Head(SortByBudgetDescending(q), n))
  {
    var sorted := SortByBudgetDescending(q);
    var r := Head(sorted, n);
    PrefixMultiset(sorted, |r|);
    CriticalKept(r, q);
    PrefixNonIncreasing(sorted, |r|);
  }

  /** A prefix is a sub-multiset. */
  lemma PrefixMultiset(s: seq<Project>, n: nat)
    requires n <= |s|
    ensures multiset(s[..n]) <= multiset(s)
  {
    assert s == s[..n] + s[n..];
  }

  /** A prefix of a decreasing list is decreasing. */
  lemma PrefixNonIncreasing(s: seq<Project>, n: nat)
    requires NonIncreasing(s)
    requires n <= |s|
    ensures NonIncreasing(s[..n])
  {
    forall i, j | 0 <= i < j < n ensures s[..n][i].budget >= s[..n][j].budget {
      assert s[..n][i] == s[i] && s[..n][j] == s[j];
    }
  }

  /** Rows drawn from critical rows are critical. */
  lemma CriticalKept(r: seq<Project>, q: seq<Project>)
    requires multiset(r) <= multiset(q)
    requires forall k :: 0 <= k < |q| ==> IsCritical(q[k])
    ensures forall k :: 0 <= k < |r| ==> IsCritical(r[k])
  {
    forall k | 0 <= k < |r| ensures IsCritical(r[k]) {
      assert r[k] in multiset(r);
      var i :| 0 <= i < |q| && q[i] == r[k];
    }
  }

  /**
   * The alerts are the top of the critical rows: drawn from them, no critical
   * row left out has a larger budget than a row shown, and when at most five
   * rows qualify, all of them are shown.
   */
  lemma CriticalProjectsAreTheLargest(t: seq<Project>)
    ensures multiset(CriticalProjects(t)) <= multiset(Qualifying(t))
    ensures forall x, k :: x in multiset(Qualifying(t)) - multiset(CriticalProjects(t)) && 0 <= k < |CriticalProjects(t)| ==>
      x.budget <= CriticalProjects(t)[k].budget
    ensures |Qualifying(t)| <= AlertLimit ==> multiset(CriticalProjects(t)) == multiset(Qualifying(t))
  {
    var q := Qualifying(t);
    var sorted := SortByBudgetDescending(q);
    var r := CriticalProjects(t);
    assert r == Head(sorted, AlertLimit);
    TopOfSorted(sorted, |r|);
    if |q| <= AlertLimit {
      assert r == sorted;
    }
  }

  /**
   * When at most five rows qualify, the alerts hold every critical row of the
   * table, each as often as it occurs there, and no other row.
   */
  lemma FewCandidatesAllShown(t: seq<Project>)
    requires |Qualifying(t)| <= AlertLimit
    ensures forall r :: multiset(CriticalProjects(t))[r] == if IsCritical(r) then multiset(t)[r] else 0
  {
    CriticalProjectsAreTheLargest(t);
    QualifyingCounts(t);
  }

  /** Every alert is a critical row of the table. */
  lemma CriticalRowsOfTable(t: seq<Project>)
    ensures forall a :: a in CriticalProjects(t) ==> a in t && IsCritical(a)
  {
    CriticalProjectsAreTheLargest(t);
    var r, q := CriticalProjects(t), Qualifying(t);
    forall a | a in r ensures a in t && IsCritical(a) {
      assert a in multiset(r);
      assert a in multiset(q) && a in multiset(t);
    }
  }

  /**
   * The prefix of a decreasing list is a sub-multiset of it, and whatever is
   * left over is no larger than anything kept.
   */
  lemma TopOfSorted(s: seq<Project>, n: nat)
    requires NonIncreasing(s)
    requires n <= |s|
    ensures multiset(s[..n]) <= multiset(s)
    ensures forall x, k :: x in multiset(s) - multiset(s[..n]) && 0 <= k < n ==> x.budget <= s[k].budget
  {
    assert s == s[..n] + s[n..];
    assert multiset(s) == multiset(s[..n]) + multiset(s[n..]);
    forall x, k | x in multiset(s) - multiset(s[..n]) && 0 <= k < n ensures x.budget <= s[k].budget {
      assert x in multiset(s[n..]);
      var j :| 0 <= j < |s[n..]| && s[n..][j] == x;
      assert s[n + j] == x;
    }
  }

}
