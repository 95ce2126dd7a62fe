/**
  The comparison of two periods' index classes: three passes over a copy
  of the table, each adding one column and filling it record by record.
  CHNGE_<y1><y2> holds the signed change of class, RCLSS_<y1><y2> its sign
  as -1, 0 or 1, and RPRT_<y1><y2> the text "<class 1> to <class 2>".
 */
module Compare {
  import opened Decimal
  import opened Tables
  import opened FieldNames

  /** `"CHNGE" + "_" + y1 + y2`, and likewise for the other two columns. */
  function ChangeField(y1: string, y2: string): (name: string)
    ensures |name| == 6 + |y1| + |y2| && name[..6] == "CHNGE_" && name[6..] == y1 + y2
  {
    "CHNGE_" + y1 + y2
  }

  function ReclassField(y1: string, y2: string): (name: string)
    ensures |name| == 6 + |y1| + |y2| && name[..6] == "RCLSS_" && name[6..] == y1 + y2
  {
    "RCLSS_" + y1 + y2
  }

  function ReportField(y1: string, y2: string): (name: string)
    ensures |name| == 5 + |y1| + |y2| && name[..5] == "RPRT_" && name[5..] == y1 + y2
  {
    "RPRT_" + y1 + y2
  }

  /** The names of the three columns one comparison adds. */
  datatype ComparisonFields = ComparisonFields(change: string, reclass: string, report: string)

  function ComparisonFieldsOf(y1: string, y2: string): ComparisonFields {
    ComparisonFields(ChangeField(y1, y2), ReclassField(y1, y2), ReportField(y1, y2))
  }

  function FieldSet(n: ComparisonFields): set<string> {
    {n.change, n.reclass, n.report}
  }

  /**
    The three comparison columns have different names, and none of them
    is a column the index build writes, for any period or indicator: the
    comparison never overwrites an index.
   */
  lemma ComparisonFieldsDistinct(y1: string, y2: string, y: string, role: Role, i: nat)
    ensures var n := ComparisonFieldsOf(y1, y2);
            n.change != n.reclass && n.change != n.report && n.reclass != n.report
    ensures var n := ComparisonFieldsOf(y1, y2);
            IndexField(y) !in FieldSet(n) && RawScoreField(y) !in FieldSet(n) &&
            IndicatorField(role, i, y) !in FieldSet(n)
  {
    var n := ComparisonFieldsOf(y1, y2);
    assert n.change[0] == 'C' && n.reclass[0] == 'R' && n.report[0] == 'R';
    assert n.reclass[1] == 'C' && n.report[1] == 'P';
    assert IndexField(y)[0] == 'I' && RawScoreField(y)[1] == 'A';
    assert IndicatorField(role, i, y)[0] == RolePrefix(role)[0];
  }

  /** The three period signs, as the if/elif chain of the reclass pass assigns them. */
  function Sign(d: real): (s: int)
  {
    if d < 0.0 then -1 else if d == 0.0 then 0 else 1
  }

  /** The direction is -1 exactly for a fall, 0 exactly for no change and 1 exactly for a rise. */
  lemma SignCases(d: real)
    ensures Sign(d) == -1 <==> d < 0.0
    ensures Sign(d) == 0 <==> d == 0.0
    ensures Sign(d) == 1 <==> d > 0.0
  {
  }

  /** `str(v)` of a cell: "None" for an empty one, a float's or a text's own rendering. */
  function ValueStr(v: Value): (s: string)
    ensures v.Null? ==> s == "None"
    ensures v.Num? ==> |s| >= 3 && (v.x < 0.0 <==> s[0] == '-')
    ensures v.Text? ==> s == v.s
  {
    match v
    case Null => "None"
    case Num(x) => FloatStr(x)
    case Text(t) => t
  }

  /**
    `str(v1) + " to " + str(v2)`. That the report splits back into the two
    classes is `SplitReport` and `ReportRoundTrip`.
   */
  function ReportText(v1: Value, v2: Value): string {
    ValueStr(v1) + " to " + ValueStr(v2)
  }

  /** Both period columns hold a number. */
  predicate Comparable(r: Record, f1: string, f2: string) {
    NumericAt(r, f1) && NumericAt(r, f2)
  }

  /** The first record at which the change pass cannot subtract (|rs| if there is none). */
  function FirstIncomparable(rs: seq<Record>, f1: string, f2: string): (k: nat)
    ensures k <= |rs|
    ensures forall j :: 0 <= j < k ==> Comparable(rs[j], f1, f2)
    ensures k < |rs| ==> !Comparable(rs[k], f1, f2)
  {
    if rs == [] || !Comparable(rs[0], f1, f2) then 0 else 1 + FirstIncomparable(rs[1..], f1, f2)
  }

  /** Tables comparable at the same records stop the change pass at the same record. */
  lemma {:induction false} FirstIncomparableAgree(rs: seq<Record>, ws: seq<Record>, f1: string, f2: string)
    requires |rs| == |ws|
    requires forall k :: 0 <= k < |rs| ==> Comparable(rs[k], f1, f2) == Comparable(ws[k], f1, f2)
    ensures FirstIncomparable(rs, f1, f2) == FirstIncomparable(ws, f1, f2)
  {
    if rs != [] && Comparable(rs[0], f1, f2) {
      FirstIncomparableAgree(rs[1..], ws[1..], f1, f2);
    }
  }

  /** The rows as AddField leaves them: the new column empty on every record. */
  function Added(rs: seq<Record>, name: string): (ws: seq<Record>)
    ensures |ws| == |rs|
  {
    seq(|rs|, k requires 0 <= k < |rs| => rs[k][name := Null])
  }

  /** A record after the change pass: year-2 class minus year-1 class. */
  function Changed(r: Record, change: string, f1: string, f2: string): Record
    requires Comparable(r, f1, f2)
  {
    r[change := Num(r[f2].x - r[f1].x)]
  }

  /** The rows once the change pass has done its first k records. */
  function ChangedUpTo(rs: seq<Record>, change: string, f1: string, f2: string, k: nat): (ws: seq<Record>)
    requires k <= |rs| && forall j :: 0 <= j < k ==> Comparable(rs[j], f1, f2)
    ensures |ws| == |rs|
  {
    seq(|rs|, i requires 0 <= i < |rs| => if i < k then Changed(rs[i], change, f1, f2) else rs[i])
  }

  /**
    The record loop of the change pass: writes the difference into each
    record in turn and stops at the first record without two numbers,
    where the subtraction raises.
   */
  method WriteChanges(rows: array<Record>, change: string, f1: string, f2: string) returns (k: nat)
    modifies rows
    ensures k == FirstIncomparable(old(rows[..]), f1, f2)
    ensures rows[..] == ChangedUpTo(old(rows[..]), change, f1, f2, k)
  {
    k := 0;
    while k < rows.Length
      invariant 0 <= k <= rows.Length
      invariant forall j :: 0 <= j < k ==> Comparable(old(rows[j]), f1, f2)
      invariant rows[..] == ChangedUpTo(old(rows[..]), change, f1, f2, k)
    {
      var nextRecord := rows[k];
      if !NumericAt(nextRecord, f1) || !NumericAt(nextRecord, f2) {
        return;
      }
      var indexChange := nextRecord[f2].x - nextRecord[f1].x;
      rows[k] := nextRecord[change := Num(indexChange)];
      k := k + 1;
    }
  }

  /** How the change pass ends, on the rows AddField left. */
  function ChangeOutcome(rs: seq<Record>, fields: set<string>, change: string, f1: string, f2: string): Outcome {
    if change in fields then Failed(DuplicateField(change))
    else
      var ws := Added(rs, change);
      var k := FirstIncomparable(ws, f1, f2);
      if k < |ws| then Failed(MissingValue(if NumericAt(ws[k], f1) then f2 else f1, k))
      else if ws == [] then Failed(EmptyDataset)
      else Ok
  }

  /** Updating a field every record already has keeps the table's shape. */
  lemma UpdatedKeys(r: Record, name: string, v: Value)
    requires name in r
    ensures r[name := v].Keys == r.Keys
  {
  }

  /**
    Step one: adds CHNGE and writes into every record its year-2 class
    minus its year-1 class, stopping at the first record where one of the
    two holds no number (with the records before it written) and failing
    on a table without records.
   */
  method ChangePass(ds: Dataset, f1: string, f2: string, change: string) returns (st: Outcome)
    requires ds.Valid()
    modifies ds, ds.rows
    ensures ds.Valid()
    ensures st == ChangeOutcome(old(ds.rows[..]), old(ds.fields), change, f1, f2)
    ensures ds.fields == old(ds.fields) + {change}
    ensures change in old(ds.fields) ==> ds.rows[..] == old(ds.rows[..])
    ensures change !in old(ds.fields) ==>
              var ws := Added(old(ds.rows[..]), change);
              ds.rows[..] == ChangedUpTo(ws, change, f1, f2, FirstIncomparable(ws, f1, f2))
  {
    var ok := ds.AddField(change);
    if !ok {
      assert ds.rows[..] == old(ds.rows[..]);
      return Failed(DuplicateField(change));
    }
    ghost var ws: seq<Record> := ds.rows[..];
    assert ws == Added(old(ds.rows[..]), change);
    var k := WriteChanges(ds.rows, change, f1, f2);
    forall i | 0 <= i < ds.rows.Length
      ensures ds.rows[i].Keys == ds.fields
    {
      if i < k {
        UpdatedKeys(ws[i], change, Num(ws[i][f2].x - ws[i][f1].x));
      }
    }
    if k < ds.rows.Length {
      var r := ds.rows[k];
      assert r == ws[k];
      return Failed(MissingValue(if NumericAt(r, f1) then f2 else f1, k));
    }
    if ds.rows.Length == 0 {
      return Failed(EmptyDataset);
    }
    return Ok;
  }

  /** A record after the reclass pass: the sign of its change. */
  function Reclassed(r: Record, change: string, reclass: string): Record
    requires NumericAt(r, change)
  {
    r[reclass := Num(Sign(r[change].x) as real)]
  }

  function ReclassedRows(rs: seq<Record>, change: string, reclass: string): (ws: seq<Record>)
    requires NumericColumn(rs, change)
    ensures |ws| == |rs|
  {
    seq(|rs|, i requires 0 <= i < |rs| => Reclassed(rs[i], change, reclass))
  }

  /** The record loop of the reclass pass: -1, 0 or 1 by the sign of the change. */
  method WriteReclasses(rows: array<Record>, change: string, reclass: string)
    requires NumericColumn(rows[..], change)
    modifies rows
    ensures rows[..] == ReclassedRows(old(rows[..]), change, reclass)
  {
    var k := 0;
    while k < rows.Length
      invariant 0 <= k <= rows.Length
      invariant forall j :: 0 <= j < k ==> rows[j] == Reclassed(old(rows[j]), change, reclass)
      invariant forall j :: k <= j < rows.Length ==> rows[j] == old(rows[j])
    {
      var nextRecord := rows[k];
      var changeValue := nextRecord[change].x;
      var reclassValue;
      if changeValue < 0.0 {
        reclassValue := -1;
      } else if changeValue == 0.0 {
        reclassValue := 0;
      } else {
        reclassValue := 1;
      }
      rows[k] := nextRecord[reclass := Num(reclassValue as real)];
      k := k + 1;
    }
  }

  /**
    Step two, on a table whose CHNGE column step one filled: adds RCLSS and
    writes into every record the sign of its change.
   */
  method ReclassPass(ds: Dataset, change: string, reclass: string) returns (st: Outcome)
    requires ds.Valid() && NumericColumn(ds.rows[..], change)
    modifies ds, ds.rows
    ensures ds.Valid()
    ensures st == if reclass in old(ds.fields) then Failed(DuplicateField(reclass))
                  else if ds.rows.Length == 0 then Failed(EmptyDataset)
                  else Ok
    ensures ds.fields == old(ds.fields) + {reclass}
    ensures ds.rows[..] == if reclass in old(ds.fields) then old(ds.rows[..])
                           else ReclassedRows(old(ds.rows[..]), change, reclass)
  {
    var ok := ds.AddField(reclass);
    if !ok {
      assert ds.rows[..] == old(ds.rows[..]);
      return Failed(DuplicateField(reclass));
    }
    ghost var rs := old(ds.rows[..]);
    assert forall i :: 0 <= i < ds.rows.Length ==> change in rs[i] && rs[i].Keys == old(ds.fields);
    assert NumericColumn(ds.rows[..], change) by {
      forall i | 0 <= i < ds.rows.Length
        ensures NumericAt(ds.rows[..][i], change)
      {
        assert ds.rows[i] == rs[i][reclass := Null];
      }
    }
    WriteReclasses(ds.rows, change, reclass);
    assert ds.rows[..] == ReclassedRows(rs, change, reclass) by {
      forall i | 0 <= i < ds.rows.Length
        ensures ds.rows[i] == Reclassed(rs[i], change, reclass)
      {
        assert old(ds.rows[i]) == rs[i];
      }
    }
    if ds.rows.Length == 0 {
      return Failed(EmptyDataset);
    }
    return Ok;
  }

  /** Both period columns are there to be read. */
  predicate Readable(r: Record, f1: string, f2: string) {
    f1 in r && f2 in r
  }

  /** The first record lacking one of the two period columns (|rs| if there is none). */
  function FirstUnreadable(rs: seq<Record>, f1: string, f2: string): (k: nat)
    ensures k <= |rs|
    ensures forall j :: 0 <= j < k ==> Readable(rs[j], f1, f2)
    ensures k < |rs| ==> !Readable(rs[k], f1, f2)
  {
    if rs == [] || !Readable(rs[0], f1, f2) then 0 else 1 + FirstUnreadable(rs[1..], f1, f2)
  }

  /** A record after the report pass. */
  function Reported(r: Record, f1: string, f2: string, report: string): Record
    requires Readable(r, f1, f2)
  {
    r[report := Text(ReportText(r[f1], r[f2]))]
  }

  function ReportedUpTo(rs: seq<Record>, f1: string, f2: string, report: string, k: nat): (ws: seq<Record>)
    requires k <= |rs| && forall j :: 0 <= j < k ==> Readable(rs[j], f1, f2)
    ensures |ws| == |rs|
  {
    seq(|rs|, i requires 0 <= i < |rs| => if i < k then Reported(rs[i], f1, f2, report) else rs[i])
  }

  /**
    The record loop of the report pass: any two cells can be rendered, so
    it only stops at a record lacking one of the columns.
   */
  method WriteReports(rows: array<Record>, f1: string, f2: string, report: string) returns (k: nat)
    modifies rows
    ensures k == FirstUnreadable(old(rows[..]), f1, f2)
    ensures rows[..] == ReportedUpTo(old(rows[..]), f1, f2, report, k)
  {
    k := 0;
    while k < rows.Length
      invariant 0 <= k <= rows.Length
      invariant forall j :: 0 <= j < k ==> Readable(old(rows[j]), f1, f2)
      invariant rows[..] == ReportedUpTo(old(rows[..]), f1, f2, report, k)
    {
      var nextRecord := rows[k];
      if f1 !in nextRecord || f2 !in nextRecord {
        return;
      }
      var reportValue := ValueStr(nextRecord[f1]) + " to " + ValueStr(nextRecord[f2]);
      rows[k] := nextRecord[report := Text(reportValue)];
      k := k + 1;
    }
  }

  /** How the report pass ends, on the rows AddField left. */
  function ReportOutcome(rs: seq<Record>, fields: set<string>, f1: string, f2: string, report: string): Outcome {
    if report in fields then Failed(DuplicateField(report))
    else
      var ws := Added(rs, report);
      var k := FirstUnreadable(ws, f1, f2);
      if k < |ws| then Failed(MissingField(if f1 in ws[k] then f2 else f1))
      else if ws == [] then Failed(EmptyDataset)
      else Ok
  }

  /** Step three: adds RPRT and writes "<class 1> to <class 2>" into every record. */
  method ReportPass(ds: Dataset, f1: string, f2: string, report: string) returns (st: Outcome)
    requires ds.Valid()
    modifies ds, ds.rows
    ensures ds.Valid()
    ensures st == ReportOutcome(old(ds.rows[..]), old(ds.fields), f1, f2, report)
    ensures ds.fields == old(ds.fields) + {report}
    ensures report in old(ds.fields) ==> ds.rows[..] == old(ds.rows[..])
    ensures report !in old(ds.fields) ==>
              var ws := Added(old(ds.rows[..]), report);
              ds.rows[..] == ReportedUpTo(ws, f1, f2, report, FirstUnreadable(ws, f1, f2))
  {
    var ok := ds.AddField(report);
    if !ok {
      assert ds.rows[..] == old(ds.rows[..]);
      return Failed(DuplicateField(report));
    }
    ghost var ws: seq<Record> := ds.rows[..];
    assert ws == Added(old(ds.rows[..]), report);
    var k := WriteReports(ds.rows, f1, f2, report);
    forall i | 0 <= i < ds.rows.Length
      ensures ds.rows[i].Keys == ds.fields
    {
      if i < k {
        UpdatedKeys(ws[i], report, Text(ReportText(ws[i][f1], ws[i][f2])));
      }
    }
    if k < ds.rows.Length {
      var r := ds.rows[k];
      assert r == ws[k];
      return Failed(MissingField(if f1 in r then f2 else f1));
    }
    if ds.rows.Length == 0 {
      return Failed(EmptyDataset);
    }
    return Ok;
  }

  /** The position of the first space in `s` (|s| if there is none). */
  function FirstSpace(s: string): (p: nat)
    ensures p <= |s|
    ensures forall i :: 0 <= i < p ==> s[i] != ' '
    ensures p < |s| ==> s[p] == ' '
  {
    if s == [] || s[0] == ' ' then 0 else 1 + FirstSpace(s[1..])
  }

  /**
    Reads the two index classes back from a report: the text up to the
    first space and the text after " to ", each in the form `str` gives
    a whole float.
   */
  function ParseReport(s: string): Option<(real, real)> {
    var p := FirstSpace(s);
    if p + 4 <= |s| && s[p..p + 4] == " to " then
      match (ParseIntegralFloat(s[..p]), ParseIntegralFloat(s[p + 4..]))
      case (Some(a), Some(b)) => Some((a, b))
      case _ => None
    else None
  }

  /** A report whose first part has no space splits back into its two parts. */
  lemma SplitReport(a: string, b: string)
    requires NumberChars(a)
    ensures var s := a + " to " + b;
            FirstSpace(s) == |a| && |a| + 4 <= |s| && s[..|a|] == a && s[|a|..|a| + 4] == " to " && s[|a| + 4..] == b
  {
    var s := a + " to " + b;
    assert forall i :: 0 <= i < |a| ==> s[i] == a[i] && NumberChar(a[i]);
    assert s[|a|] == ' ';
  }

  /**
    The report of two whole index classes names both of them, in order:
    reading it back gives the year-1 class and the year-2 class.
   */
  lemma ReportRoundTrip(x: real, y: real)
    requires IsIntegral(x) && IsIntegral(y)
    ensures ParseReport(ReportText(Num(x), Num(y))) == Some((x, y))
  {
    FloatStrChars(x);
    SplitReport(FloatStr(x), FloatStr(y));
    IntegralFloatRoundTrip(x);
    IntegralFloatRoundTrip(y);
  }

  /** Classes 3 and 5 are reported as Python prints two floats. */
  lemma ReportExample()
    ensures ReportText(Num(3.0), Num(5.0)) == "3.0 to 5.0"
    ensures ReportText(Num(4.0), Num(4.0)) == "4.0 to 4.0"
  {
    assert IsIntegral(3.0) && IsIntegral(4.0) && IsIntegral(5.0);
    assert NatStr(3) == "3" && NatStr(4) == "4" && NatStr(5) == "5";
    assert FloatStr(3.0) == "3.0";
    assert FloatStr(4.0) == "4.0";
    assert FloatStr(5.0) == "5.0";
  }

  /** A record after the whole comparison. */
  function Compared(r: Record, n: ComparisonFields, f1: string, f2: string): Record
    requires Comparable(r, f1, f2)
  {
    var d := r[f2].x - r[f1].x;
    r[n.change := Num(d)][n.reclass := Num(Sign(d) as real)][n.report := Text(ReportText(r[f1], r[f2]))]
  }

  function ComparedRows(rs: seq<Record>, n: ComparisonFields, f1: string, f2: string): (ws: seq<Record>)
    requires forall k :: 0 <= k < |rs| ==> Comparable(rs[k], f1, f2)
    ensures |ws| == |rs|
  {
    seq(|rs|, k requires 0 <= k < |rs| => Compared(rs[k], n, f1, f2))
  }

  /**
    What a compared record holds: the change of class, its direction as
    -1 (the class went down), 0 (unchanged) or 1 (went up), and the report;
    every other field as it was.
   */
  lemma ComparedRecord(r: Record, n: ComparisonFields, f1: string, f2: string)
    requires Comparable(r, f1, f2)
    requires n.change != n.reclass && n.change != n.report && n.reclass != n.report
    ensures var c := Compared(r, n, f1, f2);
            var v1, v2 := r[f1].x, r[f2].x;
            c.Keys == r.Keys + FieldSet(n) &&
            c[n.change] == Num(v2 - v1) &&
            (c[n.reclass] == Num(-1.0) <==> v2 < v1) &&
            (c[n.reclass] == Num(0.0) <==> v2 == v1) &&
            (c[n.reclass] == Num(1.0) <==> v2 > v1) &&
            c[n.report] == Text(ReportText(r[f1], r[f2])) &&
            forall f :: f in r && f !in FieldSet(n) ==> c[f] == r[f]
  {
    var d := r[f2].x - r[f1].x;
    var c := Compared(r, n, f1, f2);
    assert c[n.change] == Num(d);
    assert c[n.reclass] == Num(Sign(d) as real);
  }

  /** Comparing the two periods the other way round negates the change and its direction. */
  lemma SwapNegates(r: Record, n: ComparisonFields, f1: string, f2: string)
    requires Comparable(r, f1, f2)
    requires n.change != n.reclass && n.change != n.report && n.reclass != n.report
    ensures Comparable(r, f2, f1)
    ensures Compared(r, n, f2, f1)[n.change].x == -Compared(r, n, f1, f2)[n.change].x
    ensures Compared(r, n, f2, f1)[n.reclass].x == -Compared(r, n, f1, f2)[n.reclass].x
  {
  }

  /**
    How a comparison ends: a comparison column the table already has, a
    table without records, or the first record lacking a number in one of
    the two period columns.
   */
  function CompareOutcome(rs: seq<Record>, fields: set<string>, f1: string, f2: string, n: ComparisonFields): Outcome {
    if n.change in fields then Failed(DuplicateField(n.change))
    else
      var k := FirstIncomparable(rs, f1, f2);
      if k < |rs| then Failed(MissingValue(if NumericAt(rs[k], f1) then f2 else f1, k))
      else if rs == [] then Failed(EmptyDataset)
      else if n.reclass in fields then Failed(DuplicateField(n.reclass))
      else if n.report in fields then Failed(DuplicateField(n.report))
      else Ok
  }

  /** A comparison succeeds exactly on a non-empty table with two numeric period columns and none of its own. */
  lemma CompareSucceeds(rs: seq<Record>, fields: set<string>, f1: string, f2: string, n: ComparisonFields)
    ensures CompareOutcome(rs, fields, f1, f2, n) == Ok <==>
            FieldSet(n) !! fields && rs != [] && forall k :: 0 <= k < |rs| ==> Comparable(rs[k], f1, f2)
  {
    var k := FirstIncomparable(rs, f1, f2);
    if k < |rs| {
      assert !Comparable(rs[k], f1, f2);
    }
  }

  /** An empty new column changes no record's period values. */
  lemma AddedComparable(rs: seq<Record>, name: string, f1: string, f2: string)
    requires forall k :: 0 <= k < |rs| ==> name !in rs[k]
    ensures forall k :: 0 <= k < |rs| ==>
              NumericAt(Added(rs, name)[k], f1) == NumericAt(rs[k], f1) &&
              NumericAt(Added(rs, name)[k], f2) == NumericAt(rs[k], f2)
    ensures FirstIncomparable(Added(rs, name), f1, f2) == FirstIncomparable(rs, f1, f2)
  {
    FirstIncomparableAgree(Added(rs, name), rs, f1, f2);
  }

  /** The three passes, one record at a time, give the compared record. */
  lemma PassesCompose(r: Record, n: ComparisonFields, f1: string, f2: string)
    requires Comparable(r, f1, f2) && FieldSet(n) !! r.Keys
    requires n.change != n.reclass && n.change != n.report && n.reclass != n.report
    ensures var r1 := Changed(r[n.change := Null], n.change, f1, f2);
            NumericAt(r1, n.change) &&
            var r2 := Reclassed(r1, n.change, n.reclass);
            Readable(r2[n.report := Null], f1, f2) &&
            Reported(r2[n.report := Null], f1, f2, n.report) == Compared(r, n, f1, f2)
  {
  }

  /**
    The rows the three passes leave, one pass after the other, on a table
    where the comparison succeeds: every record compared.
   */
  lemma ChainedRows(rs: seq<Record>, f0: set<string>, n: ComparisonFields, f1: string, f2: string,
                    rows1: seq<Record>, rows2: seq<Record>)
    requires forall k :: 0 <= k < |rs| ==> rs[k].Keys == f0 && Comparable(rs[k], f1, f2)
    requires FieldSet(n) !! f0
    requires n.change != n.reclass && n.change != n.report && n.reclass != n.report
    requires forall k :: 0 <= k < |rs| ==> Comparable(Added(rs, n.change)[k], f1, f2)
    requires rows1 == ChangedUpTo(Added(rs, n.change), n.change, f1, f2, |rs|)
    requires NumericColumn(rows1, n.change) && rows2 == ReclassedRows(rows1, n.change, n.reclass)
    ensures FirstUnreadable(Added(rows2, n.report), f1, f2) == |rs|
    ensures ReportedUpTo(Added(rows2, n.report), f1, f2, n.report, |rs|) == ComparedRows(rs, n, f1, f2)
  {
    var rows3 := Added(rows2, n.report);
    forall k | 0 <= k < |rs|
      ensures Readable(rows3[k], f1, f2)
      ensures Reported(rows3[k], f1, f2, n.report) == Compared(rs[k], n, f1, f2)
    {
      assert rows1[k] == Changed(rs[k][n.change := Null], n.change, f1, f2);
      assert rows2[k] == Reclassed(rows1[k], n.change, n.reclass);
      assert rows3[k] == rows2[k][n.report := Null];
      PassesCompose(rs[k], n, f1, f2);
    }
  }

  /**
    Where the change pass leaves a comparison: its failure is the
    comparison's, and after its success only the two other names can clash.
   */
  lemma ChangeStage(rs: seq<Record>, f0: set<string>, f1: string, f2: string, n: ComparisonFields)
    requires forall k :: 0 <= k < |rs| ==> rs[k].Keys == f0
    ensures ChangeOutcome(rs, f0, n.change, f1, f2).Failed? ==>
              CompareOutcome(rs, f0, f1, f2, n) == ChangeOutcome(rs, f0, n.change, f1, f2)
    ensures ChangeOutcome(rs, f0, n.change, f1, f2).Ok? ==>
              n.change !in f0 && rs != [] &&
              (forall k :: 0 <= k < |rs| ==> Comparable(Added(rs, n.change)[k], f1, f2) && Comparable(rs[k], f1, f2)) &&
              CompareOutcome(rs, f0, f1, f2, n) ==
                (if n.reclass in f0 then Failed(DuplicateField(n.reclass))
                 else if n.report in f0 then Failed(DuplicateField(n.report))
                 else Ok)
  {
    if n.change !in f0 {
      AddedComparable(rs, n.change, f1, f2);
    }
  }

  /** The three passes in turn, for three different column names. */
  method ComparePasses(ds: Dataset, f1: string, f2: string, n: ComparisonFields) returns (st: Outcome)
    requires ds.Valid()
    requires n.change != n.reclass && n.change != n.report && n.reclass != n.report
    modifies ds, ds.rows
    ensures ds.Valid()
    ensures st == CompareOutcome(old(ds.rows[..]), old(ds.fields), f1, f2, n)
    ensures st.Ok? ==>
              ds.fields == old(ds.fields) + FieldSet(n) &&
              ds.rows[..] == ComparedRows(old(ds.rows[..]), n, f1, f2)
  {
    ghost var rs, f0 := ds.rows[..], ds.fields;
    assert forall k :: 0 <= k < |rs| ==> rs[k].Keys == f0;
    ChangeStage(rs, f0, f1, f2, n);
    st := ChangePass(ds, f1, f2, n.change);
    if st.Failed? {
      return;
    }
    st := ReclassAndReport(ds, f1, f2, n, rs, f0);
  }

  /** Steps two and three, on the table step one completed. */
  method ReclassAndReport(ds: Dataset, f1: string, f2: string, n: ComparisonFields,
                          ghost rs: seq<Record>, ghost f0: set<string>) returns (st: Outcome)
    requires ds.Valid() && ds.fields == f0 + {n.change} && n.change !in f0
    requires n.change != n.reclass && n.change != n.report && n.reclass != n.report
    requires rs != [] && forall k :: 0 <= k < |rs| ==>
               rs[k].Keys == f0 && Comparable(rs[k], f1, f2) && Comparable(Added(rs, n.change)[k], f1, f2)
    requires ds.rows[..] == ChangedUpTo(Added(rs, n.change), n.change, f1, f2, |rs|)
    modifies ds, ds.rows
    ensures ds.Valid()
    ensures st == if n.reclass in f0 then Failed(DuplicateField(n.reclass))
                  else if n.report in f0 then Failed(DuplicateField(n.report))
                  else Ok
    ensures st.Ok? ==> ds.fields == f0 + FieldSet(n) && ds.rows[..] == ComparedRows(rs, n, f1, f2)
  {
    ghost var rows1 := ds.rows[..];
    assert NumericColumn(rows1, n.change);
    st := ReclassPass(ds, n.change, n.reclass);
    if st.Failed? {
      return;
    }
    ghost var rows2 := ds.rows[..];
    st := ReportPass(ds, f1, f2, n.report);
    if n.report !in f0 {
      ChainedRows(rs, f0, n, f1, f2, rows1, rows2);
    }
  }

  /**
    The comparison run: the change, reclass and report passes in turn,
    stopping at the first that fails. On success the table has the three
    new columns and every record its compared values.
   */
  method CompareIndices(ds: Dataset, yearField1: string, yearField2: string, yearOfData1: string, yearOfData2: string)
    returns (st: Outcome)
    requires ds.Valid()
    modifies ds, ds.rows
    ensures ds.Valid()
    ensures st == CompareOutcome(old(ds.rows[..]), old(ds.fields), yearField1, yearField2,
                                 ComparisonFieldsOf(yearOfData1, yearOfData2))
    ensures st.Ok? ==>
              ds.fields == old(ds.fields) + FieldSet(ComparisonFieldsOf(yearOfData1, yearOfData2)) &&
              ds.rows[..] == ComparedRows(old(ds.rows[..]), ComparisonFieldsOf(yearOfData1, yearOfData2),
                                          yearField1, yearField2)
  {
    ComparisonFieldsDistinct(yearOfData1, yearOfData2, "", MeanRole, 0);
    st := ComparePasses(ds, yearField1, yearField2, ComparisonFieldsOf(yearOfData1, yearOfData2));
  }
}
