/**
  Steps four and five of the index build: label every record with its
  index class by the method the user chose, then delete the MEAN and STDV
  columns of every indicator, keeping the z-scores, the negated z-scores,
  the raw score and the index.
 */
module Classify {
  import opened Tables
  import opened FieldNames
  import opened Standardize
  import opened Composite
  import opened Quantile
  import opened EqualInterval

  /** The two classification methods the tool offers. */
  datatype Classification = ByQuantile | ByEqualInterval

  /**
    Step four, on the table sorted by raw score: the INDEX_<year> column
    labelled by the chosen method from the RAWSCR_<year> column.
   */
  method ClassifyRecords(ds: Dataset, year: string, how: Classification, K: nat) returns (st: Outcome)
    requires ds.Valid() && SortedBy(ds.rows[..], RawScoreField(year))
    modifies ds, ds.rows
    ensures ds.Valid()
    ensures how.ByQuantile? ==>
      st == (if K == 0 then Failed(DivisionByZero)
             else if IndexField(year) in old(ds.fields) then Failed(DuplicateField(IndexField(year)))
             else if ds.rows.Length == 0 then Failed(EmptyDataset)
             else Ok) &&
      ds.fields == (if K == 0 then old(ds.fields) else old(ds.fields) + {IndexField(year)}) &&
      ds.rows[..] == (if K == 0 || IndexField(year) in old(ds.fields) then old(ds.rows[..])
                      else QuantileRows(old(ds.rows[..]), IndexField(year), K))
    ensures how.ByEqualInterval? ==>
      st == (if ds.rows.Length == 0 then Failed(EmptyDataset)
             else if K == 0 then Failed(DivisionByZero)
             else if IndexField(year) in old(ds.fields) then Failed(DuplicateField(IndexField(year)))
             else Ok) &&
      (st.Ok? ==>
         var rs := old(ds.rows[..]);
         var raw := RawScoreField(year);
         ds.fields == old(ds.fields) + {IndexField(year)} &&
         ds.rows[..] == IntervalRows(rs, raw, IndexField(year), ColumnMin(rs, raw),
                                     Share(ColumnMax(rs, raw) - ColumnMin(rs, raw), K), K)) &&
      (st.Failed? ==> ds.fields == old(ds.fields) && ds.rows[..] == old(ds.rows[..]))
  {
    var rawField := RawScoreField(year);
    var index := IndexField(year);
    match how
    case ByQuantile =>
      st := QuantilePass(ds, rawField, index, K);
    case ByEqualInterval =>
      st := EqualIntervalPass(ds, rawField, index, K);
  }

  /** MEAN<i>_<year> and STDV<i>_<year> for every indicator position i below n. */
  function StatsColumns(year: string, n: nat): set<string> {
    if n == 0 then {} else StatsColumns(year, n - 1) + {MeanName(n - 1, year), StdvName(n - 1, year)}
  }

  /** A per-indicator column belongs to the deleted ones exactly when it is a mean or deviation below n. */
  lemma {:induction false} StatsColumnsMembers(year: string, n: nat, role: Role, i: nat)
    ensures IndicatorField(role, i, year) in StatsColumns(year, n) <==>
            (role == MeanRole || role == StdvRole) && i < n
  {
    if n > 0 {
      StatsColumnsMembers(year, n - 1, role, i);
      if IndicatorField(role, i, year) == MeanName(n - 1, year) {
        IndicatorFieldInjective(role, i, year, MeanRole, n - 1, year);
      }
      if IndicatorField(role, i, year) == StdvName(n - 1, year) {
        IndicatorFieldInjective(role, i, year, StdvRole, n - 1, year);
      }
    }
  }

  /**
    Step five deletes nothing the index needs: z-scores, negated z-scores,
    raw scores and index classes of any period survive.
   */
  lemma {:induction false} StatsColumnsSpare(year: string, n: nat, i: nat, y: string)
    ensures ZName(i, y) !in StatsColumns(year, n)
    ensures ZNegName(i, y) !in StatsColumns(year, n)
    ensures RawScoreField(y) !in StatsColumns(year, n)
    ensures IndexField(y) !in StatsColumns(year, n)
  {
    if n > 0 {
      StatsColumnsSpare(year, n - 1, i, y);
      GeneratedFamiliesDisjoint(MeanRole, n - 1, year, y, y);
      GeneratedFamiliesDisjoint(StdvRole, n - 1, year, y, y);
    }
  }

  predicate Distinct(xs: seq<string>) {
    forall i, j :: 0 <= i < j < |xs| ==> xs[i] != xs[j]
  }

  /** The records without the columns in `gone`. */
  function Dropped(rs: seq<Record>, gone: set<string>): (ws: seq<Record>)
    ensures |ws| == |rs|
  {
    seq(|rs|, k requires 0 <= k < |rs| => rs[k] - gone)
  }

  /** One DeleteField call, which fails on a column the table does not have. */
  method DeleteColumn(ds: Dataset, name: string) returns (ok: bool)
    requires ds.Valid()
    modifies ds, ds.rows
    ensures ds.Valid()
    ensures ok <==> name in old(ds.fields)
    ensures ds.fields == old(ds.fields) - {name}
    ensures ds.rows[..] == Dropped(old(ds.rows[..]), {name})
  {
    if name !in ds.fields {
      assert ds.rows[..] == Dropped(ds.rows[..], {name}) by {
        forall k | 0 <= k < ds.rows.Length
          ensures ds.rows[k] - {name} == ds.rows[k]
        {
          assert ds.rows[k].Keys == ds.fields;
        }
      }
      return false;
    }
    ds.DeleteField(name);
    assert ds.rows[..] == Dropped(old(ds.rows[..]), {name});
    return true;
  }

  /** Dropping in two rounds is dropping the union. */
  lemma DroppedTwice(rs: seq<Record>, s: set<string>, t: set<string>)
    ensures Dropped(Dropped(rs, s), t) == Dropped(rs, s + t)
  {
    forall k | 0 <= k < |rs|
      ensures Dropped(Dropped(rs, s), t)[k] == Dropped(rs, s + t)[k]
    {
      assert (rs[k] - s) - t == rs[k] - (s + t);
    }
  }

  /** The table after the means and deviations of the first j indicators were deleted. */
  ghost predicate DeletedUpTo(ds: Dataset, f0: set<string>, rs: seq<Record>, year: string, j: nat)
    reads ds, ds.rows
  {
    ds.Valid() && ds.fields == f0 - StatsColumns(year, j) && ds.rows[..] == Dropped(rs, StatsColumns(year, j))
  }

  /** Step five stays on course for the first j indicators. */
  predicate CleanUpTo(varList: seq<string>, f0: set<string>, year: string, j: nat)
    requires j <= |varList|
  {
    Distinct(varList[..j]) && StatsColumns(year, j) <= f0
  }

  /** Once off course, step five stays off course. */
  lemma CleanPrefix(varList: seq<string>, f0: set<string>, year: string, j: nat, n: nat)
    requires j <= n <= |varList|
    ensures CleanUpTo(varList, f0, year, n) ==> CleanUpTo(varList, f0, year, j)
  {
    assert varList[..j] == varList[..n][..j];
    StatsColumnsBelow(year, j, n);
  }

  /**
    One round of step five, for the indicator at position j: deletes the
    mean and deviation columns of its first occurrence.
   */
  method DeleteStatsOf(ds: Dataset, varList: seq<string>, j: nat, year: string, ghost f0: set<string>, ghost rs: seq<Record>)
    returns (st: Outcome)
    requires j < |varList| && CleanUpTo(varList, f0, year, j) && DeletedUpTo(ds, f0, rs, year, j)
    modifies ds, ds.rows
    ensures ds.Valid()
    ensures st.Ok? <==> CleanUpTo(varList, f0, year, j + 1)
    ensures st.Ok? ==> DeletedUpTo(ds, f0, rs, year, j + 1)
  {
    var variable := varList[j];
    var i := IndexOf(varList, variable);
    StepNames(varList, f0, year, j);
    var meanName := MeanName(i, year);
    var ok := DeleteColumn(ds, meanName);
    if !ok {
      return Failed(MissingField(meanName));
    }
    DroppedTwice(rs, StatsColumns(year, j), {meanName});
    var stdDevName := StdvName(i, year);
    ok := DeleteColumn(ds, stdDevName);
    if !ok {
      return Failed(MissingField(stdDevName));
    }
    DroppedTwice(rs, StatsColumns(year, j) + {meanName}, {stdDevName});
    return Ok;
  }

  /**
    The names round j deletes: those of the first occurrence of its
    indicator, which are still there exactly when step five stays on
    course, and then are the columns of indicator j itself.
   */
  lemma StepNames(varList: seq<string>, f0: set<string>, year: string, j: nat)
    requires j < |varList| && CleanUpTo(varList, f0, year, j)
    ensures var i := IndexOf(varList, varList[j]);
            var fields := f0 - StatsColumns(year, j);
            MeanName(i, year) != StdvName(i, year) &&
            (MeanName(i, year) in fields && StdvName(i, year) in fields <==> CleanUpTo(varList, f0, year, j + 1)) &&
            (CleanUpTo(varList, f0, year, j + 1) ==>
               i == j && StatsColumns(year, j + 1) == StatsColumns(year, j) + {MeanName(i, year)} + {StdvName(i, year)})
  {
    var i := IndexOf(varList, varList[j]);
    StandardizeColumnsDistinct(i, year);
    if i < j {
      RepeatedStep(varList, f0, year, j, i);
    } else {
      FirstStep(varList, f0, year, j);
    }
  }

  /** A repeated indicator: its columns are gone already and the list is not distinct. */
  lemma RepeatedStep(varList: seq<string>, f0: set<string>, year: string, j: nat, i: nat)
    requires i < j < |varList| && varList[i] == varList[j]
    ensures MeanName(i, year) in StatsColumns(year, j)
    ensures !CleanUpTo(varList, f0, year, j + 1)
  {
    StatsColumnsMembers(year, j, MeanRole, i);
    assert varList[..j + 1][i] == varList[..j + 1][j];
  }

  /** A first occurrence: its columns are new ones, and exactly what round j adds. */
  lemma FirstStep(varList: seq<string>, f0: set<string>, year: string, j: nat)
    requires j < |varList| && CleanUpTo(varList, f0, year, j) && varList[j] !in varList[..j]
    ensures MeanName(j, year) !in StatsColumns(year, j) && StdvName(j, year) !in StatsColumns(year, j)
    ensures CleanUpTo(varList, f0, year, j + 1) <==> MeanName(j, year) in f0 && StdvName(j, year) in f0
  {
    StatsColumnsMembers(year, j, MeanRole, j);
    StatsColumnsMembers(year, j, StdvRole, j);
    var w, v := varList[..j + 1], varList[..j];
    assert w == v + [varList[j]];
    assert Distinct(w) by {
      forall p, q | 0 <= p < q < |w|
        ensures w[p] != w[q]
      {
        if q == j {
          assert w[p] == v[p];
        } else {
          assert v[p] != v[q];
        }
      }
    }
  }

  /**
    Step five: for each indicator, deletes MEAN<i>_<year> and
    STDV<i>_<year>, where i is the position of the indicator's first
    occurrence in the list. It succeeds exactly when the indicators are
    all different and every one of those columns is there; a repeated
    indicator names columns an earlier round already deleted.
   */
  method DeleteIntermediateFields(ds: Dataset, varList: seq<string>, year: string) returns (st: Outcome)
    requires ds.Valid()
    modifies ds, ds.rows
    ensures ds.Valid()
    ensures st.Ok? <==> Distinct(varList) && StatsColumns(year, |varList|) <= old(ds.fields)
    ensures st.Ok? ==> ds.fields == old(ds.fields) - StatsColumns(year, |varList|)
    ensures st.Ok? ==> ds.rows[..] == Dropped(old(ds.rows[..]), StatsColumns(year, |varList|))
  {
    ghost var f0 := ds.fields;
    ghost var rs := ds.rows[..];
    assert rs == Dropped(rs, {}) by {
      forall k | 0 <= k < |rs|
        ensures rs[k] - {} == rs[k]
      {
      }
    }
    var j := 0;
    while j < |varList|
      invariant 0 <= j <= |varList|
      invariant CleanUpTo(varList, f0, year, j)
      invariant DeletedUpTo(ds, f0, rs, year, j)
    {
      st := DeleteStatsOf(ds, varList, j, year, f0, rs);
      if st.Failed? {
        CleanPrefix(varList, f0, year, j + 1, |varList|);
        assert varList[..|varList|] == varList;
        return;
      }
      j := j + 1;
    }
    assert varList[..j] == varList;
    return Ok;
  }

  /** The columns of fewer indicators are among those of more. */
  lemma {:induction false} StatsColumnsBelow(year: string, m: nat, n: nat)
    requires m <= n
    ensures StatsColumns(year, m) <= StatsColumns(year, n)
  {
    if m < n {
      StatsColumnsBelow(year, m, n - 1);
    }
  }
}
