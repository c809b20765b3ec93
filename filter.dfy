/**
 * The sidebar filter shared by both dashboards: a boolean mask
 * `df["Province"].isin(P) & df["Secteur"].isin(S)` applied to the table.
 */
module Filter {

  import opened Projects

  /** The state of the two sidebar multiselects: at their defaults, or a choice. */
  datatype Selection = AllValues | Chosen(provinces: seq<string>, sectors: seq<string>)

  /**
   * The mask of one row: its province is one of the chosen provinces and its
   * sector one of the chosen sectors; so nothing passes an empty choice.
   */
  predicate Selected(r: Project, provinces: seq<string>, sectors: seq<string>): (b: bool)
    ensures b ==> |provinces| > 0 && |sectors| > 0
    ensures b <==> ((exists i :: 0 <= i < |provinces| && provinces[i] == r.province)
                 && (exists j :: 0 <= j < |sectors| && sectors[j] == r.sector))
  {
    r.province in provinces && r.sector in sectors
  }

  /** `df[mask]`: the rows the mask keeps, in table order, unchanged. */
  function FilterRows(t: seq<Project>, provinces: seq<string>, sectors: seq<string>): (f: seq<Project>)
    ensures |f| <= |t|
    ensures forall k :: 0 <= k < |f| ==> Selected(f[k], provinces, sectors)
    decreases |t|
  {
    if |t| == 0 then []
    else
      var f := FilterRows(t[..|t| - 1], provinces, sectors);
      var x := t[|t| - 1];
      if Selected(x, provinces, sectors) then f + [x] else f
  }

  /** The positions of the rows the mask keeps, in increasing order. */
  function SelectedIndices(t: seq<Project>, provinces: seq<string>, sectors: seq<string>): (idx: seq<nat>)
    ensures forall k :: 0 <= k < |idx| ==> idx[k] < |t| && Selected(t[idx[k]], provinces, sectors)
    ensures forall k, l :: 0 <= k < l < |idx| ==> idx[k] < idx[l]
    decreases |t|
  {
    if |t| == 0 then []
    else
      var init := t[..|t| - 1];
      var idx := SelectedIndices(init, provinces, sectors);
      assert forall k :: 0 <= k < |idx| ==> t[idx[k]] == init[idx[k]];
      if Selected(t[|t| - 1], provinces, sectors) then idx + [|t| - 1] else idx
  }

  /** Every qualifying position is listed. */
  lemma {:induction false} SelectedIndicesComplete(t: seq<Project>, provinces: seq<string>, sectors: seq<string>)
    ensures forall i :: 0 <= i < |t| && Selected(t[i], provinces, sectors) ==> i in SelectedIndices(t, provinces, sectors)
    decreases |t|
  {
    if |t| > 0 {
      var init := t[..|t| - 1];
      SelectedIndicesComplete(init, provinces, sectors);
      assert forall i :: 0 <= i < |t| - 1 ==> t[i] == init[i];
    }
  }

  /**
   * The filter keeps exactly the qualifying rows, each once, in their original
   * relative order, and alters none: its k-th row is the row at the k-th
   * qualifying position.
   */
  lemma {:induction false} FilterRowsAtSelectedIndices(t: seq<Project>, provinces: seq<string>, sectors: seq<string>)
    ensures |FilterRows(t, provinces, sectors)| == |SelectedIndices(t, provinces, sectors)|
    ensures forall k :: 0 <= k < |FilterRows(t, provinces, sectors)| ==>
      FilterRows(t, provinces, sectors)[k] == t[SelectedIndices(t, provinces, sectors)[k]]
    decreases |t|
  {
    if |t| > 0 {
      var init, x := t[..|t| - 1], t[|t| - 1];
      FilterRowsAtSelectedIndices(init, provinces, sectors);
      var f, idx := FilterRows(init, provinces, sectors), SelectedIndices(init, provinces, sectors);
      assert forall k :: 0 <= k < |idx| ==> f[k] == init[idx[k]] == t[idx[k]];
      if Selected(x, provinces, sectors) {
        assert FilterRows(t, provinces, sectors) == f + [x];
        assert SelectedIndices(t, provinces, sectors) == idx + [|t| - 1];
        forall k | 0 <= k < |f| + 1 ensures (f + [x])[k] == t[(idx + [|t| - 1])[k]] {
          if k < |f| {
            assert (f + [x])[k] == f[k];
            assert (idx + [|t| - 1])[k] == idx[k];
          }
        }
      } else {
        assert FilterRows(t, provinces, sectors) == f;
        assert SelectedIndices(t, provinces, sectors) == idx;
      }
    }
  }

  /** No row is fabricated: every kept row is a row of the table. */
  lemma {:induction false} FilterRowsSound(t: seq<Project>, provinces: seq<string>, sectors: seq<string>)
    ensures forall r :: r in FilterRows(t, provinces, sectors) ==> r in t && Selected(r, provinces, sectors)
    decreases |t|
  {
    if |t| > 0 {
      var init, x := t[..|t| - 1], t[|t| - 1];
      FilterRowsSound(init, provinces, sectors);
      assert t == init + [x];
    }
  }

  /** No qualifying row is dropped. */
  lemma {:induction false} FilterRowsComplete(t: seq<Project>, provinces: seq<string>, sectors: seq<string>)
    ensures forall i :: 0 <= i < |t| && Selected(t[i], provinces, sectors) ==> t[i] in FilterRows(t, provinces, sectors)
    decreases |t|
  {
    if |t| > 0 {
      var init, x := t[..|t| - 1], t[|t| - 1];
      FilterRowsComplete(init, provinces, sectors);
      assert forall i :: 0 <= i < |t| - 1 ==> t[i] == init[i];
    }
  }

  /** A mask that keeps every row is the identity. */
  lemma {:induction false} FilterKeepsEverySelectedRow(t: seq<Project>, provinces: seq<string>, sectors: seq<string>)
    requires forall i :: 0 <= i < |t| ==> Selected(t[i], provinces, sectors)
    ensures FilterRows(t, provinces, sectors) == t
    decreases |t|
  {
    if |t| > 0 {
      FilterKeepsEverySelectedRow(t[..|t| - 1], provinces, sectors);
      assert t == t[..|t| - 1] + [t[|t| - 1]];
    }
  }

  /** With the multiselects at their defaults (every distinct value), the filter is the identity. */
  lemma DefaultFilterIsIdentity(t: seq<Project>)
    ensures FilterRows(t, UniqueValues(t, Province), UniqueValues(t, Sector)) == t
  {
    var provinces, sectors := UniqueValues(t, Province), UniqueValues(t, Sector);
    UniqueValuesCover(t, Province);
    UniqueValuesCover(t, Sector);
    forall i | 0 <= i < |t| ensures Selected(t[i], provinces, sectors) {
      assert Cell(t[i], Province) in provinces && Cell(t[i], Sector) in sectors;
    }
    FilterKeepsEverySelectedRow(t, provinces, sectors);
  }

  /** Emptying either multiselect empties the table. */
  lemma {:induction false} EmptySelectionKeepsNothing(t: seq<Project>, provinces: seq<string>, sectors: seq<string>)
    requires provinces == [] || sectors == []
    ensures FilterRows(t, provinces, sectors) == []
    decreases |t|
  {
    if |t| > 0 {
      EmptySelectionKeepsNothing(t[..|t| - 1], provinces, sectors);
      assert !Selected(t[|t| - 1], provinces, sectors);
    }
  }

  /**
   * Narrowing the selections narrows the result: filtering the filtered table with
   * smaller selections is the same as filtering the original table with them.
   */
  lemma {:induction false} FilterNarrowing(t: seq<Project>, provinces: seq<string>, sectors: seq<string>,
                                          provinces': seq<string>, sectors': seq<string>)
    requires forall p :: p in provinces' ==> p in provinces
    requires forall s :: s in sectors' ==> s in sectors
    ensures FilterRows(FilterRows(t, provinces, sectors), provinces', sectors') == FilterRows(t, provinces', sectors')
    decreases |t|
  {
    if |t| > 0 {
      var init, x := t[..|t| - 1], t[|t| - 1];
      FilterNarrowing(init, provinces, sectors, provinces', sectors');
      var f := FilterRows(init, provinces, sectors);
      if Selected(x, provinces, sectors) {
        assert (f + [x])[..|f + [x]| - 1] == f;
      }
    }
  }

}
