/**
  Steps one and two of the index build, for one indicator: broadcast the
  indicator's mean and standard deviation onto every record, write each
  record's z-score, and, for an indicator that should detract from the
  index, write the negated z-score into a further column.
 */
module Standardize {
  import opened Tables
  import opened FieldNames

  /** `(x - mean) / sd`, the number of deviations `x` lies above the mean. */
  function ZScore(x: real, mean: real, sd: real): (z: real)
    requires sd != 0.0
    ensures z * sd == x - mean
  {
    (x - mean) / sd
  }

  /** Standardising is undone by `mean + z * sd`. */
  lemma ZScoreInverse(x: real, mean: real, sd: real)
    requires sd != 0.0
    ensures mean + ZScore(x, mean, sd) * sd == x
  {
  }

  /**
    With a positive deviation standardising keeps the order of the values,
    and a value above the mean has a positive z-score.
   */
  lemma ZScoreOrder(x: real, y: real, mean: real, sd: real)
    requires sd > 0.0
    ensures x <= y <==> ZScore(x, mean, sd) <= ZScore(y, mean, sd)
    ensures x > mean <==> ZScore(x, mean, sd) > 0.0
  {
    var zx, zy := ZScore(x, mean, sd), ZScore(y, mean, sd);
    ZScoreInverse(x, mean, sd);
    ZScoreInverse(y, mean, sd);
    assert y - x == (zy - zx) * sd;
    assert x - mean == zx * sd;
  }

  /** Python's `sum` over a list: a left fold from 0. */
  function Sum(xs: seq<real>): (s: real)
  {
    if xs == [] then 0.0 else Sum(xs[..|xs| - 1]) + xs[|xs| - 1]
  }

  /** The z-scores of a column's values, in record order. */
  function ZScores(xs: seq<real>, mean: real, sd: real): (zs: seq<real>)
    requires sd != 0.0
    ensures |zs| == |xs|
  {
    seq(|xs|, i requires 0 <= i < |xs| => ZScore(xs[i], mean, sd))
  }

  /** The deviations of the values from `mean`. */
  function Deviations(xs: seq<real>, mean: real): (ds: seq<real>)
    ensures |ds| == |xs|
  {
    seq(|xs|, i requires 0 <= i < |xs| => xs[i] - mean)
  }

  lemma Distribute(a: real, b: real, c: real)
    ensures (a + b) * c == a * c + b * c
  {
  }

  lemma Cancel(a: real, b: real, c: real)
    requires a * c == b * c && c != 0.0
    ensures a == b
  {
  }

  /** Scaling every term of a sum by `c` scales the sum by `c`. */
  lemma {:induction false} ScaledSum(us: seq<real>, vs: seq<real>, c: real)
    requires |us| == |vs|
    requires forall i :: 0 <= i < |us| ==> us[i] * c == vs[i]
    ensures Sum(us) * c == Sum(vs)
  {
    if us != [] {
      var n := |us| - 1;
      ScaledSum(us[..n], vs[..n], c);
      Distribute(Sum(us[..n]), us[n], c);
    }
  }

  /** `mean` is the mean of the values exactly when their deviations from it cancel out. */
  lemma {:induction false} DeviationsSum(xs: seq<real>, mean: real)
    ensures Sum(Deviations(xs, mean)) == Sum(xs) - mean * |xs| as real
  {
    if xs != [] {
      var n := |xs| - 1;
      assert Deviations(xs, mean)[..n] == Deviations(xs[..n], mean);
      DeviationsSum(xs[..n], mean);
      Distribute(n as real, 1.0, mean);
    }
  }

  /** The z-scores sum to the values' total deviation from the mean, counted in deviations. */
  lemma ZScoresSum(xs: seq<real>, mean: real, sd: real)
    requires sd != 0.0
    ensures Sum(ZScores(xs, mean, sd)) * sd == Sum(Deviations(xs, mean))
  {
    ScaledSum(ZScores(xs, mean, sd), Deviations(xs, mean), sd);
  }

  /** When `mean` is the column's mean, its z-scores have mean 0. */
  lemma ZScoresMeanZero(xs: seq<real>, mean: real, sd: real)
    requires sd != 0.0 && Sum(xs) == mean * |xs| as real
    ensures Sum(ZScores(xs, mean, sd)) == 0.0
  {
    DeviationsSum(xs, mean);
    ZScoresSum(xs, mean, sd);
    Cancel(Sum(ZScores(xs, mean, sd)), 0.0, sd);
  }

  /** The z-score cell of a record: Null where the arithmetic cannot be done. */
  function ZValue(r: Record, variable: string, mean: real, sd: real): Value {
    if NumericAt(r, variable) && sd != 0.0 then Num(ZScore(r[variable].x, mean, sd)) else Null
  }

  function MeanName(i: nat, year: string): string { IndicatorField(MeanRole, i, year) }
  function StdvName(i: nat, year: string): string { IndicatorField(StdvRole, i, year) }
  function ZName(i: nat, year: string): string { IndicatorField(ZScoreRole, i, year) }
  function ZNegName(i: nat, year: string): string { IndicatorField(ZNegRole, i, year) }

  /** The names of the three columns step one adds for one indicator. */
  datatype Columns = Columns(mean: string, stdv: string, z: string)

  function ColumnSet(c: Columns): set<string> {
    {c.mean, c.stdv, c.z}
  }

  /** Three different names, none of them the indicator's own column. */
  predicate Separate(c: Columns, variable: string) {
    c.mean != c.stdv && c.mean != c.z && c.stdv != c.z && variable !in ColumnSet(c)
  }

  /** The columns of indicator `i`: MEAN<i>_<year>, STDV<i>_<year>, ZSCR<i>_<year>. */
  function IndicatorColumns(i: nat, year: string): (c: Columns)
  {
    Columns(MeanName(i, year), StdvName(i, year), ZName(i, year))
  }

  lemma StandardizeColumnsDistinct(i: nat, year: string)
    ensures MeanName(i, year) != StdvName(i, year)
    ensures MeanName(i, year) != ZName(i, year)
    ensures StdvName(i, year) != ZName(i, year)
    ensures ZNegName(i, year) != MeanName(i, year)
    ensures ZNegName(i, year) != StdvName(i, year)
    ensures ZNegName(i, year) != ZName(i, year)
  {
    if MeanName(i, year) == StdvName(i, year) { IndicatorFieldInjective(MeanRole, i, year, StdvRole, i, year); }
    if MeanName(i, year) == ZName(i, year) { IndicatorFieldInjective(MeanRole, i, year, ZScoreRole, i, year); }
    if StdvName(i, year) == ZName(i, year) { IndicatorFieldInjective(StdvRole, i, year, ZScoreRole, i, year); }
    if ZNegName(i, year) == MeanName(i, year) { IndicatorFieldInjective(ZNegRole, i, year, MeanRole, i, year); }
    if ZNegName(i, year) == StdvName(i, year) { IndicatorFieldInjective(ZNegRole, i, year, StdvRole, i, year); }
    if ZNegName(i, year) == ZName(i, year) { IndicatorFieldInjective(ZNegRole, i, year, ZScoreRole, i, year); }
  }

  /** A record after step one ran over it. */
  function Standardized(r: Record, variable: string, c: Columns, mean: real, sd: real): Record {
    r[c.mean := Num(mean)][c.stdv := Num(sd)][c.z := ZValue(r, variable, mean, sd)]
  }

  /** Mean and deviation written into a record. */
  function WithStats(r: Record, c: Columns, mean: real, sd: real): Record {
    r[c.mean := Num(mean)][c.stdv := Num(sd)]
  }

  /** The record at which the pass stopped: mean and deviation written, no z-score. */
  function StatsOnly(r: Record, c: Columns, mean: real, sd: real): Record {
    WithStats(r, c, mean, sd)[c.z := Null]
  }

  /** A record the pass did not reach: only the new empty columns. */
  function WithNewColumns(r: Record, c: Columns): Record {
    r[c.mean := Null][c.stdv := Null][c.z := Null]
  }

  /**
    The number of records the pass completes: all of them, unless a record
    holds no number or the deviation is zero (then the very first record
    fails, since every record divides by the same deviation).
   */
  function Completed(rs: seq<Record>, variable: string, sd: real): (k: nat)
    ensures k <= |rs|
    ensures sd == 0.0 ==> k == 0
    ensures k == |rs| <==> (sd != 0.0 && NumericColumn(rs, variable)) || rs == []
  {
    if sd == 0.0 then 0 else FirstNonNumeric(rs, variable)
  }

  /** How the three AddField calls of step one end: the first name the table already has. */
  function AddColumnsOutcome(fields: set<string>, c: Columns): (st: Outcome)
    ensures st == Ok <==> ColumnSet(c) !! fields
    ensures st.Failed? ==> st.error.DuplicateField? && st.error.name in ColumnSet(c) * fields
  {
    if c.mean in fields then Failed(DuplicateField(c.mean))
    else if c.stdv in fields then Failed(DuplicateField(c.stdv))
    else if c.z in fields then Failed(DuplicateField(c.z))
    else Ok
  }

  /** How the record loop of step one ends, by the error it reports. */
  function WriteOutcome(rs: seq<Record>, variable: string, sd: real): (st: Outcome)
    ensures st == Ok <==> rs != [] && sd != 0.0 && NumericColumn(rs, variable)
    ensures st == Failed(DivisionByZero) <==> rs != [] && sd == 0.0 && NumericAt(rs[0], variable)
  {
    if rs == [] then Failed(EmptyDataset)
    else
      var k := Completed(rs, variable, sd);
      if k == |rs| then Ok
      else if !NumericAt(rs[k], variable) then Failed(MissingValue(variable, k))
      else Failed(DivisionByZero)
  }

  /** How step one ends. */
  function StandardizeOutcome(rs: seq<Record>, fields: set<string>, variable: string, c: Columns, sd: real): (st: Outcome)
    ensures st == Ok <==> ColumnSet(c) !! fields && rs != [] && sd != 0.0 && NumericColumn(rs, variable)
  {
    if AddColumnsOutcome(fields, c).Failed? then AddColumnsOutcome(fields, c)
    else WriteOutcome(rs, variable, sd)
  }

  /** The rows after the three new columns were added. */
  function NewColumnsRows(rs: seq<Record>, c: Columns): (ws: seq<Record>)
    ensures |ws| == |rs|
  {
    seq(|rs|, k requires 0 <= k < |rs| => WithNewColumns(rs[k], c))
  }

  /**
    The rows after the record loop of step one: the completed records
    standardised, the record that stopped the loop with mean and deviation
    only, the later ones untouched.
   */
  function AfterWrite(rs: seq<Record>, variable: string, c: Columns, mean: real, sd: real): (ws: seq<Record>)
    ensures |ws| == |rs|
  {
    var stop := Completed(rs, variable, sd);
    seq(|rs|, k requires 0 <= k < |rs| =>
      if k < stop then Standardized(rs[k], variable, c, mean, sd)
      else if k == stop then WithStats(rs[k], c, mean, sd)
      else rs[k])
  }

  /** The rows after the whole of step one, in terms of the rows before it. */
  function StandardizedRows(rs: seq<Record>, variable: string, c: Columns, mean: real, sd: real): (ws: seq<Record>)
    ensures |ws| == |rs|
  {
    var stop := Completed(rs, variable, sd);
    seq(|rs|, k requires 0 <= k < |rs| =>
      if k < stop then Standardized(rs[k], variable, c, mean, sd)
      else if k == stop then StatsOnly(rs[k], c, mean, sd)
      else WithNewColumns(rs[k], c))
  }

  /**
    When every record holds a number and the deviation is not zero, step one
    completes every record and the z-score column holds the z-scores of the
    indicator's column, record by record (so `ZScoresMeanZero` applies to it).
   */
  lemma ZScoreColumn(rs: seq<Record>, variable: string, c: Columns, mean: real, sd: real)
    requires Separate(c, variable) && NumericColumn(rs, variable) && sd != 0.0
    ensures forall k :: 0 <= k < |rs| ==>
              StandardizedRows(rs, variable, c, mean, sd)[k][c.z] == Num(ZScores(ColumnValues(rs, variable), mean, sd)[k])
  {
  }

  /** Writing over the empty new columns is the same as writing into the original record. */
  lemma OverNewColumns(r: Record, variable: string, c: Columns, mean: real, sd: real)
    requires Separate(c, variable)
    ensures ZValue(WithNewColumns(r, c), variable, mean, sd) == ZValue(r, variable, mean, sd)
    ensures Standardized(WithNewColumns(r, c), variable, c, mean, sd) == Standardized(r, variable, c, mean, sd)
    ensures WithStats(WithNewColumns(r, c), c, mean, sd) == StatsOnly(r, c, mean, sd)
  {
    var w := WithNewColumns(r, c);
    assert NumericAt(w, variable) == NumericAt(r, variable);
    assert Standardized(w, variable, c, mean, sd) == Standardized(r, variable, c, mean, sd);
    assert WithStats(w, c, mean, sd) == StatsOnly(r, c, mean, sd);
  }

  /** Adding the columns and then running the record loop gives the rows of step one. */
  lemma {:induction false} AddThenWrite(rs: seq<Record>, variable: string, c: Columns, mean: real, sd: real)
    requires Separate(c, variable)
    ensures AfterWrite(NewColumnsRows(rs, c), variable, c, mean, sd) == StandardizedRows(rs, variable, c, mean, sd)
    ensures WriteOutcome(NewColumnsRows(rs, c), variable, sd) == WriteOutcome(rs, variable, sd)
  {
    var ws := NewColumnsRows(rs, c);
    assert Completed(ws, variable, sd) == Completed(rs, variable, sd) by {
      forall k | 0 <= k < |rs|
        ensures NumericAt(ws[k], variable) == NumericAt(rs[k], variable)
      {
        OverNewColumns(rs[k], variable, c, mean, sd);
      }
      if sd != 0.0 {
        FirstNonNumericAgree(rs, ws, variable);
      }
    }
    forall k | 0 <= k < |rs|
      ensures AfterWrite(ws, variable, c, mean, sd)[k] == StandardizedRows(rs, variable, c, mean, sd)[k]
    {
      OverNewColumns(rs[k], variable, c, mean, sd);
    }
  }

  /** Step one leaves every record with exactly the table's columns plus its own three. */
  lemma StandardizedRowsKeys(rs: seq<Record>, fields: set<string>, variable: string, c: Columns, mean: real, sd: real)
    requires forall k :: 0 <= k < |rs| ==> rs[k].Keys == fields
    ensures forall k :: 0 <= k < |rs| ==> StandardizedRows(rs, variable, c, mean, sd)[k].Keys == fields + ColumnSet(c)
  {
    forall k | 0 <= k < |rs|
      ensures StandardizedRows(rs, variable, c, mean, sd)[k].Keys == fields + ColumnSet(c)
    {
      var r := rs[k];
      assert Standardized(r, variable, c, mean, sd).Keys == fields + ColumnSet(c);
      assert StatsOnly(r, c, mean, sd).Keys == fields + ColumnSet(c);
      assert WithNewColumns(r, c).Keys == fields + ColumnSet(c);
    }
  }

  /** The three AddField calls of step one. */
  method AddStandardizeColumns(ds: Dataset, c: Columns) returns (st: Outcome)
    requires ds.Valid()
    requires c.mean != c.stdv && c.mean != c.z && c.stdv != c.z
    modifies ds, ds.rows
    ensures ds.Valid()
    ensures st == AddColumnsOutcome(old(ds.fields), c)
    ensures st.Ok? ==> ds.fields == old(ds.fields) + ColumnSet(c)
    ensures st.Ok? ==> ds.rows[..] == NewColumnsRows(old(ds.rows[..]), c)
    ensures c.mean in old(ds.fields) ==>
      ds.fields == old(ds.fields) && ds.rows[..] == old(ds.rows[..])
    ensures c.mean !in old(ds.fields) && c.stdv in old(ds.fields) ==>
      ds.fields == old(ds.fields) + {c.mean} &&
      ds.rows[..] == EmptyColumnAdded(old(ds.rows[..]), c.mean)
    ensures c.mean !in old(ds.fields) && c.stdv !in old(ds.fields) && c.z in old(ds.fields) ==>
      ds.fields == old(ds.fields) + {c.mean, c.stdv} &&
      ds.rows[..] == EmptyColumnAdded(EmptyColumnAdded(old(ds.rows[..]), c.mean), c.stdv)
  {
    ghost var rs := ds.rows[..];
    var ok := ds.AddField(c.mean);
    if !ok {
      assert ds.rows[..] == rs;
      return Failed(DuplicateField(c.mean));
    }
    ghost var ws := EmptyColumnAdded(rs, c.mean);
    assert ds.rows[..] == ws;
    ok := ds.AddField(c.stdv);
    if !ok {
      assert ds.rows[..] == ws;
      return Failed(DuplicateField(c.stdv));
    }
    assert ds.rows[..] == EmptyColumnAdded(ws, c.stdv);
    ok := ds.AddField(c.z);
    if !ok {
      return Failed(DuplicateField(c.z));
    }
    assert forall k :: 0 <= k < ds.rows.Length ==> ds.rows[k] == WithNewColumns(old(ds.rows[k]), c);
    return Ok;
  }

  /**
    The record loop of step one, over a table that already has the three
    new columns: writes mean and deviation, then the z-score, record by
    record, and stops at the first record whose arithmetic fails.
   */
  method WriteZScores(ds: Dataset, variable: string, c: Columns, mean: real, sd: real)
    returns (st: Outcome)
    requires forall k :: 0 <= k < ds.rows.Length ==> variable in ds.rows[k]
    requires Separate(c, variable)
    modifies ds.rows
    ensures st == WriteOutcome(old(ds.rows[..]), variable, sd)
    ensures ds.rows[..] == AfterWrite(old(ds.rows[..]), variable, c, mean, sd)
  {
    ghost var rs := ds.rows[..];
    ghost var stop := Completed(rs, variable, sd);
    var k := 0;
    while k < ds.rows.Length
      invariant 0 <= k <= stop
      invariant forall j :: 0 <= j < k ==> ds.rows[j] == Standardized(rs[j], variable, c, mean, sd)
      invariant forall j :: k <= j < ds.rows.Length ==> ds.rows[j] == rs[j]
    {
      var nextRecord := ds.rows[k];
      nextRecord := nextRecord[c.mean := Num(mean)][c.stdv := Num(sd)];
      ds.rows[k] := nextRecord;
      var nextVar := nextRecord[variable];
      assert nextVar == rs[k][variable];
      if !nextVar.Num? || sd == 0.0 {
        assert k == stop;
        assert ds.rows[..] == AfterWrite(rs, variable, c, mean, sd);
        return if !nextVar.Num? then Failed(MissingValue(variable, k)) else Failed(DivisionByZero);
      }
      nextRecord := nextRecord[c.z := Num(ZScore(nextVar.x, mean, sd))];
      ds.rows[k] := nextRecord;
      k := k + 1;
    }
    assert ds.rows[..] == AfterWrite(rs, variable, c, mean, sd);
    if ds.rows.Length == 0 {
      // `del nextRecord` after a loop that never bound it
      return Failed(EmptyDataset);
    }
    return Ok;
  }

  /**
    Step one for one indicator, whose columns are `c`: adds the MEAN, STDV
    and ZSCR columns, then writes mean, deviation and z-score record by
    record. The same mean and deviation go onto every record.
   */
  method StandardizeIndicator(ds: Dataset, variable: string, c: Columns, mean: real, sd: real)
    returns (st: Outcome)
    requires ds.Valid() && variable in ds.fields
    requires c.mean != c.stdv && c.mean != c.z && c.stdv != c.z
    modifies ds, ds.rows
    ensures ds.Valid()
    ensures st == StandardizeOutcome(old(ds.rows[..]), old(ds.fields), variable, c, sd)
    ensures ColumnSet(c) !! old(ds.fields) ==>
      ds.fields == old(ds.fields) + ColumnSet(c) &&
      ds.rows[..] == StandardizedRows(old(ds.rows[..]), variable, c, mean, sd)
    ensures c.mean in old(ds.fields) ==>
      ds.fields == old(ds.fields) && ds.rows[..] == old(ds.rows[..])
    ensures c.mean !in old(ds.fields) && c.stdv in old(ds.fields) ==>
      ds.fields == old(ds.fields) + {c.mean} &&
      ds.rows[..] == EmptyColumnAdded(old(ds.rows[..]), c.mean)
    ensures c.mean !in old(ds.fields) && c.stdv !in old(ds.fields) && c.z in old(ds.fields) ==>
      ds.fields == old(ds.fields) + {c.mean, c.stdv} &&
      ds.rows[..] == EmptyColumnAdded(EmptyColumnAdded(old(ds.rows[..]), c.mean), c.stdv)
  {
    ghost var rs := ds.rows[..];
    ghost var fields := ds.fields;
    st := AddStandardizeColumns(ds, c);
    if st.Failed? {
      return;
    }
    assert Separate(c, variable);
    AddThenWrite(rs, variable, c, mean, sd);
    StandardizedRowsKeys(rs, fields, variable, c, mean, sd);
    assert forall k :: 0 <= k < ds.rows.Length ==> variable in ds.rows[k];
    st := WriteZScores(ds, variable, c, mean, sd);
    assert forall k :: 0 <= k < ds.rows.Length ==> ds.rows[k] == ds.rows[..][k];
  }

  /** A record after step two ran over it: the negated z-score in column `zNeg`. */
  function Negated(r: Record, z: string, zNeg: string): Record {
    r[zNeg := if NumericAt(r, z) then Num(r[z].x * -1.0) else Null]
  }

  /** The rows after step two. */
  function NegatedRows(rs: seq<Record>, z: string, zNeg: string): (ws: seq<Record>)
    ensures |ws| == |rs|
  {
    seq(|rs|, k requires 0 <= k < |rs| => Negated(rs[k], z, zNeg))
  }

  /**
    The record loop of step two: writes every record's z-score times -1
    into the column `zNeg`.
   */
  method WriteNegated(ds: Dataset, z: string, zNeg: string)
    requires z != zNeg && NumericColumn(ds.rows[..], z)
    modifies ds.rows
    ensures ds.rows[..] == NegatedRows(old(ds.rows[..]), z, zNeg)
  {
    ghost var rs := ds.rows[..];
    var k := 0;
    while k < ds.rows.Length
      invariant 0 <= k <= ds.rows.Length
      invariant forall j :: 0 <= j < k ==> ds.rows[j] == Negated(rs[j], z, zNeg)
      invariant forall j :: k <= j < ds.rows.Length ==> ds.rows[j] == rs[j]
    {
      var nextRecord := ds.rows[k];
      var nextNeg := nextRecord[z];
      assert NumericAt(rs[k], z);
      var calcNegZ := nextNeg.x * -1.0;
      nextRecord := nextRecord[zNeg := Num(calcNegZ)];
      ds.rows[k] := nextRecord;
      k := k + 1;
    }
    assert ds.rows[..] == NegatedRows(rs, z, zNeg);
  }

  /**
    Step two for a negative indicator whose z-scores are in column `z`:
    adds the column `zNeg` and writes every record's z-score times -1 into
    it. Step one has written a z-score on every record before it runs.
   */
  method NegateIndicator(ds: Dataset, z: string, zNeg: string) returns (st: Outcome)
    requires ds.Valid() && z != zNeg && NumericColumn(ds.rows[..], z)
    modifies ds, ds.rows
    ensures ds.Valid()
    ensures st == if zNeg in old(ds.fields) then Failed(DuplicateField(zNeg))
                  else if ds.rows.Length == 0 then Failed(EmptyDataset)
                  else Ok
    ensures ds.fields == old(ds.fields) + {zNeg}
    ensures ds.rows[..] == if zNeg in old(ds.fields) then old(ds.rows[..]) else NegatedRows(old(ds.rows[..]), z, zNeg)
  {
    ghost var rs := ds.rows[..];
    var ok := ds.AddField(zNeg);
    if !ok {
      return Failed(DuplicateField(zNeg));
    }
    assert NumericColumn(ds.rows[..], z) by {
      forall k | 0 <= k < ds.rows.Length
        ensures NumericAt(ds.rows[..][k], z)
      {
        assert ds.rows[k] == rs[k][zNeg := Null];
      }
    }
    ghost var ws := ds.rows[..];
    WriteNegated(ds, z, zNeg);
    forall k | 0 <= k < ds.rows.Length
      ensures ds.rows[k] == Negated(rs[k], z, zNeg) && ds.rows[k].Keys == ds.fields
    {
      assert ws[k] == rs[k][zNeg := Null];
      assert ds.rows[k] == ds.rows[..][k];
    }
    assert ds.rows[..] == NegatedRows(rs, z, zNeg);
    if ds.rows.Length == 0 {
      return Failed(EmptyDataset);
    }
    return Ok;
  }
}
