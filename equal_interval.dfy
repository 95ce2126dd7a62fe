/**
  Step four, equal-interval classification: the raw-score range is cut
  into K intervals of equal width starting at the lowest raw score, and
  each record's class is the interval its raw score falls in, a score
  exactly on a break going to the upper class. Labels are written only
  for K >= 3: with fewer classes the loop that writes them has nothing
  to walk over and the INDEX column stays empty.
 */
module EqualInterval {
  import opened Tables
  import opened ClassLists

  /** The lowest number of a column. */
  function Lowest(xs: seq<real>): (m: real)
    requires xs != []
    ensures m in xs
    ensures forall k :: 0 <= k < |xs| ==> m <= xs[k]
  {
    if |xs| == 1 then xs[0]
    else
      var rest := Lowest(xs[1..]);
      if xs[0] <= rest then xs[0] else rest
  }

  /** The highest number of a column. */
  function Highest(xs: seq<real>): (m: real)
    requires xs != []
    ensures m in xs
    ensures forall k :: 0 <= k < |xs| ==> xs[k] <= m
  {
    if |xs| == 1 then xs[0]
    else
      var rest := Highest(xs[1..]);
      if xs[0] >= rest then xs[0] else rest
  }

  function ColumnMin(rs: seq<Record>, f: string): (m: real)
    requires rs != [] && NumericColumn(rs, f)
    ensures forall k :: 0 <= k < |rs| ==> m <= rs[k][f].x
    ensures exists k :: 0 <= k < |rs| && m == rs[k][f].x
  {
    var xs := ColumnValues(rs, f);
    assert forall k :: 0 <= k < |rs| ==> xs[k] == rs[k][f].x;
    Lowest(xs)
  }

  function ColumnMax(rs: seq<Record>, f: string): (m: real)
    requires rs != [] && NumericColumn(rs, f)
    ensures forall k :: 0 <= k < |rs| ==> rs[k][f].x <= m
    ensures ColumnMin(rs, f) <= m
    ensures exists k :: 0 <= k < |rs| && m == rs[k][f].x
  {
    var xs := ColumnValues(rs, f);
    assert forall k :: 0 <= k < |rs| ==> xs[k] == rs[k][f].x;
    assert ColumnMin(rs, f) <= rs[0][f].x;
    Highest(xs)
  }

  /** An equal share of d among k. */
  function Share(d: real, k: nat): (w: real)
    requires 0.0 <= d && 0 < k
    ensures 0.0 <= w && w * k as real == d
  {
    d / k as real
  }

  /** The K-1 break values `scoreMin + w * (j + 1)`, between consecutive intervals. */
  function Breaks(scoreMin: real, w: real, K: nat): (bs: seq<real>)
    ensures |bs| == if K == 0 then 0 else K - 1
  {
    seq(if K == 0 then 0 else K - 1, j requires 0 <= j => scoreMin + w * (j + 1) as real)
  }

  predicate NonDecreasing(bs: seq<real>) {
    forall i, j :: 0 <= i <= j < |bs| ==> bs[i] <= bs[j]
  }

  lemma BreaksNonDecreasing(scoreMin: real, w: real, K: nat)
    requires 0.0 <= w
    ensures NonDecreasing(Breaks(scoreMin, w, K))
  {
    var bs := Breaks(scoreMin, w, K);
    forall i, j | 0 <= i <= j < |bs|
      ensures bs[i] <= bs[j]
    {
      assert w * (j + 1) as real - w * (i + 1) as real == w * (j - i) as real;
    }
  }

  /** How many break values lie at or below v. */
  function CountAtMost(bs: seq<real>, v: real): (n: nat)
    ensures n <= |bs|
  {
    if bs == [] then 0 else (if bs[0] <= v then 1 else 0) + CountAtMost(bs[1..], v)
  }

  /** Over ascending breaks, those at or below v come first and the rest lie above v. */
  lemma {:induction false} CountAtMostSplits(bs: seq<real>, v: real)
    requires NonDecreasing(bs)
    ensures forall j :: 0 <= j < CountAtMost(bs, v) ==> bs[j] <= v
    ensures forall j :: CountAtMost(bs, v) <= j < |bs| ==> v < bs[j]
  {
    if bs != [] {
      CountAtMostSplits(bs[1..], v);
      assert forall j :: 1 <= j < |bs| ==> bs[j] == bs[1..][j - 1];
    }
  }

  /** A higher value never has fewer breaks below it. */
  lemma {:induction false} CountAtMostMonotone(bs: seq<real>, v: real, u: real)
    requires v <= u
    ensures CountAtMost(bs, v) <= CountAtMost(bs, u)
  {
    if bs != [] {
      CountAtMostMonotone(bs[1..], v, u);
    }
  }

  /**
    The class of raw score v when the lowest score is `scoreMin` and the
    intervals are w wide: one more than the number of breaks at or below
    v; no class at all (the column stays empty) for fewer than 3 classes.
   */
  function IntervalClass(v: real, scoreMin: real, w: real, K: nat): Value {
    if K >= 3 then Num((1 + CountAtMost(Breaks(scoreMin, w, K), v)) as real) else Null
  }

  /**
    For 3 or more classes every raw score gets a class from 1 to K, and
    for fewer the cell stays empty.
   */
  lemma IntervalClassRange(v: real, scoreMin: real, w: real, K: nat)
    ensures K >= 3 ==> IntervalClass(v, scoreMin, w, K).Num? &&
                       1.0 <= IntervalClass(v, scoreMin, w, K).x <= K as real
    ensures K < 3 ==> IntervalClass(v, scoreMin, w, K) == Null
  {
  }

  /**
    Class c holds the raw scores from `scoreMin + (c-1)*w` up to, but not
    including, `scoreMin + c*w`; class 1 also takes everything below and
    class K everything above. A score exactly on a break goes to the upper
    class.
   */
  lemma IntervalBand(v: real, scoreMin: real, w: real, K: nat, c: nat)
    requires 3 <= K && 0.0 <= w && 1 <= c <= K
    ensures IntervalClass(v, scoreMin, w, K) == Num(c as real) <==>
            (c == 1 || scoreMin + w * (c - 1) as real <= v) && (c == K || v < scoreMin + w * c as real)
  {
    var bs := Breaks(scoreMin, w, K);
    BreaksNonDecreasing(scoreMin, w, K);
    CountAtMostSplits(bs, v);
    if c > 1 {
      assert bs[c - 2] == scoreMin + w * (c - 1) as real;
    }
    if c < K {
      assert bs[c - 1] == scoreMin + w * c as real;
    }
  }

  /** A higher raw score never gets a lower class. */
  lemma IntervalMonotone(v: real, u: real, scoreMin: real, w: real, K: nat)
    requires 3 <= K && v <= u
    ensures IntervalClass(v, scoreMin, w, K).x <= IntervalClass(u, scoreMin, w, K).x
  {
    CountAtMostMonotone(Breaks(scoreMin, w, K), v, u);
  }

  /** When every raw score is the same (a zero range), every record lands in class K. */
  lemma ZeroRangeTopClass(v: real, scoreMin: real, K: nat)
    requires 3 <= K && scoreMin <= v
    ensures IntervalClass(v, scoreMin, 0.0, K) == Num(K as real)
  {
    IntervalBand(v, scoreMin, 0.0, K, K);
  }

  /** The rows after the labelling loop: each record's class in column `index`. */
  function IntervalRows(rs: seq<Record>, raw: string, index: string, scoreMin: real, w: real, K: nat): (ws: seq<Record>)
    requires NumericColumn(rs, raw)
    ensures |ws| == |rs|
  {
    seq(|rs|, k requires 0 <= k < |rs| => rs[k][index := IntervalClass(rs[k][raw].x, scoreMin, w, K)])
  }

  /**
    The labelling changes each record in its INDEX cell only; in a table
    sorted by raw score the classes never go down along the records.
   */
  lemma IntervalRowsOrdered(rs: seq<Record>, raw: string, index: string, scoreMin: real, w: real, K: nat, i: nat, j: nat)
    requires 3 <= K && SortedBy(rs, raw) && i <= j < |rs|
    ensures IntervalRows(rs, raw, index, scoreMin, w, K)[i] == rs[i][index := IntervalClass(rs[i][raw].x, scoreMin, w, K)]
    ensures IntervalRows(rs, raw, index, scoreMin, w, K)[i][index].x <= IntervalRows(rs, raw, index, scoreMin, w, K)[j][index].x
  {
    if i < j {
      assert rs[i][raw].x <= rs[j][raw].x;
    }
    IntervalMonotone(rs[i][raw].x, rs[j][raw].x, scoreMin, w, K);
  }

  /**
    The inner loop for one record with raw score v: for every position m
    of the class numbers 0 .. K-3 it writes m + 2 when v lies between
    break m (inclusive) and break m + 1, else 1 when v lies below the
    first break, else K when v lies at or above break K-2. The last write
    stands; with no class numbers (K <= 2) the cell keeps its value `before`.
   */
  method RecordClass(v: real, before: Value, breakValueList: seq<real>, classNumberListShort: seq<int>,
                     final: nat, top: int, ghost scoreMin: real, ghost w: real, ghost K: nat)
    returns (cell: Value)
    requires 0 < K && 0.0 <= w
    requires breakValueList == Breaks(scoreMin, w, K)
    requires classNumberListShort == seq(if K < 2 then 0 else K - 2, i requires 0 <= i => i)
    requires final == |classNumberListShort| && top == K
    ensures cell == if K >= 3 then IntervalClass(v, scoreMin, w, K) else before
  {
    ghost var n := CountAtMost(breakValueList, v);
    BreaksNonDecreasing(scoreMin, w, K);
    CountAtMostSplits(breakValueList, v);
    cell := before;
    var i := 0;
    while i < |classNumberListShort|
      invariant 0 <= i <= |classNumberListShort|
      invariant cell == if 0 < i && (n == 0 || n == K - 1 || n <= i) then Num((n + 1) as real) else before
    {
      var m := classNumberListShort[i];
      var current := classNumberListShort[m];
      var next := current + 1;
      if v >= breakValueList[current] && v < breakValueList[next] {
        cell := Num((next + 1) as real);
      } else if v < breakValueList[0] {
        cell := Num(1 as real);
      } else if v >= breakValueList[final] {
        cell := Num(top as real);
      } else if m >= |classNumberListShort| {
        break;
      }
      i := i + 1;
    }
  }

  /** The record loop: every record's INDEX cell, empty so far, gets the class of its raw score. */
  method AssignIntervalLabels(ds: Dataset, raw: string, index: string, breakValueList: seq<real>,
                              classNumberListShort: seq<int>, final: nat, top: int,
                              ghost scoreMin: real, ghost w: real, ghost K: nat)
    requires 0 < K && 0.0 <= w && raw != index
    requires breakValueList == Breaks(scoreMin, w, K)
    requires classNumberListShort == seq(if K < 2 then 0 else K - 2, i requires 0 <= i => i)
    requires final == |classNumberListShort| && top == K
    requires NumericColumn(ds.rows[..], raw)
    requires forall k :: 0 <= k < ds.rows.Length ==> index in ds.rows[k] && ds.rows[k][index] == Null
    modifies ds.rows
    ensures ds.rows[..] == IntervalRows(old(ds.rows[..]), raw, index, scoreMin, w, K)
  {
    ghost var rs := ds.rows[..];
    var k := 0;
    while k < ds.rows.Length
      invariant 0 <= k <= ds.rows.Length
      invariant forall j :: 0 <= j < k ==> ds.rows[j] == IntervalRows(rs, raw, index, scoreMin, w, K)[j]
      invariant forall j :: k <= j < ds.rows.Length ==> ds.rows[j] == rs[j]
    {
      var nextRecord := ds.rows[k];
      assert NumericAt(rs[k], raw);
      var cell := RecordClass(nextRecord[raw].x, nextRecord[index], breakValueList, classNumberListShort,
                              final, top, scoreMin, w, K);
      nextRecord := nextRecord[index := cell];
      ds.rows[k] := nextRecord;
      k := k + 1;
    }
    assert ds.rows[..] == IntervalRows(rs, raw, index, scoreMin, w, K);
  }

  /**
    The lists the labelling loop reads, built from K alone: the break
    values from the ascending class numbers without their last two, the
    class numbers 0 .. K-3 the inner loop walks over (those without their
    last one more), and the top class, one below the length of the class
    numbers.
   */
  method IntervalLists(K: nat, groupSize2: real, scoreMin: real)
    returns (breakValueList: seq<real>, classNumberListShort: seq<int>, top: int)
    requires 0 < K
    ensures breakValueList == Breaks(scoreMin, groupSize2, K)
    ensures classNumberListShort == seq(if K < 2 then 0 else K - 2, i requires 0 <= i => i)
    ensures top == K
  {
    var classNumberList := CountdownList(K);
    // the ascending sort of the countdown, which is unique
    ClassRangeSortsCountdown(K);
    classNumberList := ClassRange(K);
    var classNumberListFinal := DropLastTwo(classNumberList);
    breakValueList := BreakValues(classNumberListFinal, groupSize2, scoreMin);
    assert forall j :: 0 <= j < |breakValueList| ==> breakValueList[j] == Breaks(scoreMin, groupSize2, K)[j];
    classNumberListShort := DropLast(classNumberListFinal);
    top := |classNumberList| - 1;
  }

  /** Labelling over the freshly added, empty INDEX column is labelling the original rows. */
  lemma IntervalRowsOverNull(rs: seq<Record>, ws: seq<Record>, fields: set<string>, raw: string, index: string,
                             scoreMin: real, w: real, K: nat)
    requires raw != index && NumericColumn(rs, raw) && |ws| == |rs|
    requires forall k :: 0 <= k < |rs| ==> ws[k] == rs[k][index := Null] && ws[k].Keys == fields
    ensures NumericColumn(ws, raw)
    ensures IntervalRows(ws, raw, index, scoreMin, w, K) == IntervalRows(rs, raw, index, scoreMin, w, K)
    ensures forall k :: 0 <= k < |rs| ==> IntervalRows(rs, raw, index, scoreMin, w, K)[k].Keys == fields
  {
    assert forall k :: 0 <= k < |rs| ==> NumericAt(ws[k], raw);
    assert forall k :: 0 <= k < |rs| ==>
      IntervalRows(ws, raw, index, scoreMin, w, K)[k] == IntervalRows(rs, raw, index, scoreMin, w, K)[k];
  }

  /**
    From the break values on: adds the INDEX column and labels every
    record, for intervals of width w above `scoreMin`.
   */
  method ClassifyByIntervals(ds: Dataset, raw: string, index: string, scoreMin: real, groupSize2: real, K: nat)
    returns (st: Outcome)
    requires ds.Valid() && 0 < K && 0.0 <= groupSize2
    requires raw in ds.fields && NumericColumn(ds.rows[..], raw)
    modifies ds, ds.rows
    ensures ds.Valid()
    ensures st == if index in old(ds.fields) then Failed(DuplicateField(index)) else Ok
    ensures ds.fields == old(ds.fields) + {index}
    ensures ds.rows[..] == if st.Ok? then IntervalRows(old(ds.rows[..]), raw, index, scoreMin, groupSize2, K)
                           else old(ds.rows[..])
  {
    ghost var rs := ds.rows[..];
    var breakValueList, classNumberListShort, top := IntervalLists(K, groupSize2, scoreMin);
    var final := |classNumberListShort|;
    var ok := ds.AddField(index);
    if !ok {
      return Failed(DuplicateField(index));
    }
    ghost var ws := ds.rows[..];
    IntervalRowsOverNull(rs, ws, ds.fields, raw, index, scoreMin, groupSize2, K);
    AssignIntervalLabels(ds, raw, index, breakValueList, classNumberListShort, final, top,
                         scoreMin, groupSize2, K);
    return Ok;
  }

  /**
    Step four with the equal-interval method, on a table sorted by raw
    score. The range and minimum of an empty column hold no number, so an
    empty table fails first; K = 0 fails on the width division; then the
    break values are computed, the INDEX column added and every record
    labelled.
   */
  method EqualIntervalPass(ds: Dataset, raw: string, index: string, K: nat) returns (st: Outcome)
    requires ds.Valid() && SortedBy(ds.rows[..], raw)
    modifies ds, ds.rows
    ensures ds.Valid()
    ensures st == if ds.rows.Length == 0 then Failed(EmptyDataset)
                  else if K == 0 then Failed(DivisionByZero)
                  else if index in old(ds.fields) then Failed(DuplicateField(index))
                  else Ok
    ensures ds.fields == if st.Ok? then old(ds.fields) + {index} else old(ds.fields)
    ensures ds.rows[..] == if st.Ok? then IntervalRows(old(ds.rows[..]), raw, index, ColumnMin(old(ds.rows[..]), raw),
                                                       Share(ColumnMax(old(ds.rows[..]), raw) - ColumnMin(old(ds.rows[..]), raw), K), K)
                           else old(ds.rows[..])
  {
    if ds.rows.Length == 0 {
      return Failed(EmptyDataset);
    }
    ghost var rs: seq<Record> := ds.rows[..];
    var scoreRange := ColumnMax(ds.rows[..], raw) - ColumnMin(ds.rows[..], raw);
    if K == 0 {
      return Failed(DivisionByZero);
    }
    var groupSize2 := scoreRange / K as real;
    var scoreMin := ColumnMin(ds.rows[..], raw);
    assert groupSize2 == Share(ColumnMax(rs, raw) - ColumnMin(rs, raw), K);
    assert raw in ds.fields by {
      assert NumericAt(rs[0], raw);
    }
    st := ClassifyByIntervals(ds, raw, index, scoreMin, groupSize2, K);
  }
}
