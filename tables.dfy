/**
  The attribute table both scripts work on: an ordered collection of
  records, each a mapping from field name to value, with columns added and
  deleted by name and values set record by record in place (the update
  cursor's setValue/updateRow).
 */
module Tables {

  /** A cell: a FLOAT or TEXT value, or nothing yet (a freshly added column). */
  datatype Value = Null | Num(x: real) | Text(s: string)

  type Record = map<string, Value>

  /** Why a pass stops. */
  datatype Error =
    | DuplicateField(name: string)           // adding a column whose name the table already has
    | MissingValue(field: string, row: nat)  // arithmetic met a cell that holds no number
    | DivisionByZero                         // a zero standard deviation or a zero class count
    | EmptyDataset                           // a pass over a table with no records
    | MissingField(name: string)             // deleting a column the table does not have

  datatype Outcome = Ok | Failed(error: Error)

  predicate NumericAt(r: Record, f: string) {
    f in r && r[f].Num?
  }

  predicate NumericColumn(rs: seq<Record>, f: string) {
    forall k :: 0 <= k < |rs| ==> NumericAt(rs[k], f)
  }

  /** The numbers of column f, record by record. */
  function ColumnValues(rs: seq<Record>, f: string): (xs: seq<real>)
    requires NumericColumn(rs, f)
    ensures |xs| == |rs|
  {
    seq(|rs|, k requires 0 <= k < |rs| => rs[k][f].x)
  }

  /** The records in ascending order of their numbers in column `f`. */
  predicate SortedBy(rs: seq<Record>, f: string) {
    NumericColumn(rs, f) && forall i, j :: 0 <= i < j < |rs| ==> rs[i][f].x <= rs[j][f].x
  }

  /** The records after AddField added the empty column `name`. */
  function EmptyColumnAdded(rs: seq<Record>, name: string): (ws: seq<Record>)
    ensures |ws| == |rs|
  {
    seq(|rs|, k requires 0 <= k < |rs| => rs[k][name := Null])
  }

  /** The first record whose field `f` holds no number (|rs| if there is none). */
  function FirstNonNumeric(rs: seq<Record>, f: string): (k: nat)
    ensures k <= |rs|
    ensures forall j :: 0 <= j < k ==> NumericAt(rs[j], f)
    ensures k < |rs| ==> !NumericAt(rs[k], f)
  {
    if rs == [] || !NumericAt(rs[0], f) then 0 else 1 + FirstNonNumeric(rs[1..], f)
  }

  /** Two tables whose column `f` is numeric at the same records fail at the same record. */
  lemma {:induction false} FirstNonNumericAgree(rs: seq<Record>, ws: seq<Record>, f: string)
    requires |rs| == |ws|
    requires forall k :: 0 <= k < |rs| ==> NumericAt(rs[k], f) == NumericAt(ws[k], f)
    ensures FirstNonNumeric(rs, f) == FirstNonNumeric(ws, f)
  {
    if rs != [] && NumericAt(rs[0], f) {
      FirstNonNumericAgree(rs[1..], ws[1..], f);
    }
  }

  class Dataset {
    var fields: set<string>
    const rows: array<Record>

    /** Every record has a value, possibly Null, for exactly the declared fields. */
    ghost predicate Valid()
      reads this, rows
    {
      forall k :: 0 <= k < rows.Length ==> rows[k].Keys == fields
    }

    constructor (fields: set<string>, records: seq<Record>)
      requires forall k :: 0 <= k < |records| ==> records[k].Keys == fields
      ensures Valid() && fresh(rows)
      ensures this.fields == fields && rows[..] == records
    {
      this.fields := fields;
      rows := new Record[|records|](k requires 0 <= k < |records| => records[k]);
    }

    /**
      Declares a new column, Null on every record; a name the table already
      has is refused and nothing changes.
     */
    method AddField(name: string) returns (ok: bool)
      requires Valid()
      modifies this, rows
      ensures Valid()
      ensures ok <==> name !in old(fields)
      ensures fields == old(fields) + {name}
      ensures forall k :: 0 <= k < rows.Length ==>
                rows[k] == if ok then old(rows[k])[name := Null] else old(rows[k])
    {
      if name in fields {
        return false;
      }
      fields := fields + {name};
      var i := 0;
      while i < rows.Length
        invariant 0 <= i <= rows.Length
        invariant forall k :: 0 <= k < i ==> rows[k] == old(rows[k])[name := Null]
        invariant forall k :: i <= k < rows.Length ==> rows[k] == old(rows[k])
        invariant fields == old(fields) + {name}
        invariant forall k :: 0 <= k < i ==> rows[k].Keys == fields
        invariant forall k :: i <= k < rows.Length ==> rows[k].Keys + {name} == fields
      {
        rows[i] := rows[i][name := Null];
        i := i + 1;
      }
      return true;
    }

    /** Removes a declared column from the table and from every record. */
    method DeleteField(name: string)
      requires Valid() && name in fields
      modifies this, rows
      ensures Valid()
      ensures fields == old(fields) - {name}
      ensures forall k :: 0 <= k < rows.Length ==> rows[k] == old(rows[k]) - {name}
    {
      fields := fields - {name};
      var i := 0;
      while i < rows.Length
        invariant 0 <= i <= rows.Length
        invariant forall k :: 0 <= k < i ==> rows[k] == old(rows[k]) - {name}
        invariant forall k :: i <= k < rows.Length ==> rows[k] == old(rows[k])
        invariant fields == old(fields) - {name}
        invariant forall k :: 0 <= k < i ==> rows[k].Keys == fields
        invariant forall k :: i <= k < rows.Length ==> rows[k].Keys - {name} == fields
      {
        rows[i] := rows[i] - {name};
        i := i + 1;
      }
    }
  }
}
