/**
  Steps one to three of the index build: standardise every indicator, flip
  the negative ones, and add each record's contributions into its raw score.
  The per-record results are stated as folds over the indicators; the raw
  score is shown to be the sum of the record's signed z-scores.

  The column names of the indicators enter the proofs as data (a Build
  carries them) together with the fact that they are pairwise apart; the
  names the script actually builds are shown to have that property once,
  in NamesForApart.
 */
module Composite {
  import opened Tables
  import opened FieldNames
  import opened Standardize

  /** The mean and standard deviation of one indicator's column, as the statistics tool reports them. */
  datatype Stats = Stats(mean: real, sd: real)

  /** The columns steps one and two use for one indicator. */
  datatype IndicatorNames = IndicatorNames(cols: Columns, zNeg: string)

  function NameSet(ns: IndicatorNames): set<string> {
    ColumnSet(ns.cols) + {ns.zNeg}
  }

  /** Four different names per indicator, and no name shared by two indicators. */
  predicate Apart(ns: seq<IndicatorNames>) {
    (forall j :: 0 <= j < |ns| ==> Separate(ns[j].cols, ns[j].zNeg)) &&
    (forall i, j :: 0 <= i < |ns| && 0 <= j < |ns| && i != j ==> NameSet(ns[i]) !! NameSet(ns[j]))
  }

  /** The names of the indicator at list position `i`: MEAN<i>_, STDV<i>_, ZSCR<i>_ and ZNEG<i>_ with the period label. */
  function NamesOf(i: nat, year: string): IndicatorNames {
    IndicatorNames(IndicatorColumns(i, year), ZNegName(i, year))
  }

  /** The names of the first `n` list positions. */
  function NamesFor(year: string, n: nat): (ns: seq<IndicatorNames>)
    ensures |ns| == n
  {
    if n == 0 then [] else NamesFor(year, n - 1) + [NamesOf(n - 1, year)]
  }

  lemma {:induction false} NamesForAt(year: string, n: nat, i: nat)
    requires i < n
    ensures NamesFor(year, n)[i] == NamesOf(i, year)
  {
    if i < n - 1 {
      NamesForAt(year, n - 1, i);
    }
  }

  /** Every name of indicator `i` carries a role and the position `i`. */
  lemma NamesOfShape(i: nat, year: string, x: string)
    requires x in NameSet(NamesOf(i, year))
    ensures exists role :: x == IndicatorField(role, i, year)
  {
    if x == MeanName(i, year) {
      assert x == IndicatorField(MeanRole, i, year);
    } else if x == StdvName(i, year) {
      assert x == IndicatorField(StdvRole, i, year);
    } else if x == ZName(i, year) {
      assert x == IndicatorField(ZScoreRole, i, year);
    } else {
      assert x == IndicatorField(ZNegRole, i, year);
    }
  }

  /** Two list positions never share a column name. */
  lemma NamesOfDisjoint(i: nat, j: nat, year: string)
    requires i != j
    ensures NameSet(NamesOf(i, year)) !! NameSet(NamesOf(j, year))
  {
    forall x | x in NameSet(NamesOf(i, year))
      ensures x !in NameSet(NamesOf(j, year))
    {
      NamesOfShape(i, year, x);
      var r1 :| x == IndicatorField(r1, i, year);
      if x in NameSet(NamesOf(j, year)) {
        NamesOfShape(j, year, x);
        var r2 :| x == IndicatorField(r2, j, year);
        IndicatorFieldInjective(r1, i, year, r2, j, year);
      }
    }
  }

  /** The four names of one position differ, and none is the raw-score column. */
  lemma NamesOfSeparate(j: nat, year: string)
    ensures Separate(NamesOf(j, year).cols, NamesOf(j, year).zNeg)
    ensures RawScoreField(year) !in NameSet(NamesOf(j, year))
  {
    StandardizeColumnsDistinct(j, year);
    GeneratedFamiliesDisjoint(MeanRole, j, year, year, year);
    GeneratedFamiliesDisjoint(StdvRole, j, year, year, year);
    GeneratedFamiliesDisjoint(ZScoreRole, j, year, year, year);
    GeneratedFamiliesDisjoint(ZNegRole, j, year, year, year);
  }

  /** The names the script builds are apart, and none of them is the raw-score column. */
  lemma NamesForApart(year: string, n: nat)
    ensures Apart(NamesFor(year, n))
    ensures forall j :: 0 <= j < n ==> RawScoreField(year) !in NameSet(NamesFor(year, n)[j])
  {
    var ns := NamesFor(year, n);
    forall j | 0 <= j < n
      ensures Separate(ns[j].cols, ns[j].zNeg) && RawScoreField(year) !in NameSet(ns[j])
    {
      NamesForAt(year, n, j);
      NamesOfSeparate(j, year);
    }
    forall i, j | 0 <= i < n && 0 <= j < n && i != j
      ensures NameSet(ns[i]) !! NameSet(ns[j])
    {
      NamesForAt(year, n, i);
      NamesForAt(year, n, j);
      NamesOfDisjoint(i, j, year);
    }
  }

  /**
    What the user asks for: the indicator columns in order, the ones that
    should detract from the index and the statistics of each indicator
    column; with them the names of the columns the build adds.
   */
  datatype Build = Build(vars: seq<string>, negs: seq<string>, stats: seq<Stats>,
                         names: seq<IndicatorNames>, raw: string)

  /** One statistics record and one set of names per indicator. */
  predicate Sized(b: Build) {
    |b.vars| == |b.stats| == |b.names|
  }

  predicate WellFormed(b: Build) {
    Sized(b) && Apart(b.names) &&
    forall j :: 0 <= j < |b.names| ==> b.raw !in NameSet(b.names[j])
  }

  /** The build the script runs for period `year`. */
  function MakeBuild(vars: seq<string>, negs: seq<string>, year: string, stats: seq<Stats>): Build {
    Build(vars, negs, stats, NamesFor(year, |vars|), RawScoreField(year))
  }

  lemma MakeBuildWellFormed(vars: seq<string>, negs: seq<string>, year: string, stats: seq<Stats>)
    requires |vars| == |stats|
    ensures WellFormed(MakeBuild(vars, negs, year, stats))
  {
    NamesForApart(year, |vars|);
  }

  /** `xs.index(x)`: the position of the first occurrence of `x`. */
  function IndexOf(xs: seq<string>, x: string): (i: nat)
    requires x in xs
    ensures i < |xs| && xs[i] == x && x !in xs[..i]
  {
    if xs[0] == x then 0
    else
      var i := 1 + IndexOf(xs[1..], x);
      assert xs[..i] == [xs[0]] + xs[1..][..i - 1];
      i
  }

  /** `xs.remove(x)`: the list without the first occurrence of `x`. */
  function RemoveFirst(xs: seq<string>, x: string): (ys: seq<string>)
    requires x in xs
    ensures ys == xs[..IndexOf(xs, x)] + xs[IndexOf(xs, x) + 1..]
  {
    if xs[0] == x then xs[1..]
    else
      var ys := [xs[0]] + RemoveFirst(xs[1..], x);
      assert xs[..IndexOf(xs, x)] == [xs[0]] + xs[1..][..IndexOf(xs[1..], x)];
      ys
  }

  /** Appending a fresh name and its replacement, then removing the fresh name, leaves only the replacement. */
  lemma RemoveAppended(xs: seq<string>, x: string, y: string)
    requires x !in xs
    ensures RemoveFirst(xs + [x] + [y], x) == xs + [y]
  {
    var zs := xs + [x] + [y];
    var i := IndexOf(zs, x);
    assert zs[|xs|] == x;
    assert forall k :: 0 <= k < |xs| ==> zs[k] == xs[k];
    assert i == |xs|;
    assert zs[..i] == xs && zs[i + 1..] == [y];
  }

  function Polarity(negative: bool): real {
    if negative then -1.0 else 1.0
  }

  /** The column indicator `j` contributes to the raw score: its negated z-score if it detracts, else its z-score. */
  function Contribution(b: Build, j: nat): string
    requires Sized(b) && j < |b.vars|
  {
    if b.vars[j] in b.negs then b.names[j].zNeg else b.names[j].cols.z
  }

  /** `zScoreList` after the first `n` indicators. */
  function Contributions(b: Build, n: nat): (fs: seq<string>)
    requires Sized(b) && n <= |b.vars|
    ensures |fs| == n
  {
    seq(n, j requires 0 <= j < n => Contribution(b, j))
  }

  /** The columns steps one and two add for indicator `j`. */
  function IndicatorFields(b: Build, j: nat): set<string>
    requires Sized(b) && j < |b.vars|
  {
    ColumnSet(b.names[j].cols) + (if b.vars[j] in b.negs then {b.names[j].zNeg} else {})
  }

  /** The columns steps one and two add for the first `n` indicators. */
  function GeneratedFields(b: Build, n: nat): set<string>
    requires Sized(b) && n <= |b.vars|
  {
    if n == 0 then {} else GeneratedFields(b, n - 1) + IndicatorFields(b, n - 1)
  }

  /** The names of later indicators are not among the columns of the first `n`. */
  lemma {:induction false} GeneratedFieldsLater(b: Build, n: nat, j: nat, x: string)
    requires WellFormed(b) && n <= j < |b.vars| && x in NameSet(b.names[j])
    ensures x !in GeneratedFields(b, n)
  {
    if n > 0 {
      GeneratedFieldsLater(b, n - 1, j, x);
      assert NameSet(b.names[n - 1]) !! NameSet(b.names[j]);
    }
  }

  lemma {:induction false} GeneratedFieldsGrow(b: Build, m: nat, n: nat)
    requires Sized(b) && m <= n <= |b.vars|
    ensures GeneratedFields(b, m) <= GeneratedFields(b, n)
    decreases n - m
  {
    if m < n {
      GeneratedFieldsGrow(b, m, n - 1);
    }
  }

  /** The raw-score column is never among the generated ones. */
  lemma {:induction false} RawNotGenerated(b: Build, n: nat)
    requires WellFormed(b) && n <= |b.vars|
    ensures b.raw !in GeneratedFields(b, n)
  {
    if n > 0 {
      RawNotGenerated(b, n - 1);
      assert b.raw !in NameSet(b.names[n - 1]);
    }
  }

  /** No name of indicator `j` is in `zScoreList` before indicator `j` runs. */
  lemma ContributionsEarlier(b: Build, n: nat, j: nat, x: string)
    requires WellFormed(b) && n <= j < |b.vars| && x in NameSet(b.names[j])
    ensures x !in Contributions(b, n)
  {
    forall i | 0 <= i < n
      ensures Contributions(b, n)[i] != x
    {
      assert Contributions(b, n)[i] in NameSet(b.names[i]);
      assert NameSet(b.names[i]) !! NameSet(b.names[j]);
    }
  }

  /**
    `zScoreList` holds one column per indicator, in indicator order: the
    ZNEG column of a negative indicator and the ZSCR column of any other,
    never both.
   */
  lemma ContributionsExactlyOne(b: Build, n: nat, j: nat)
    requires WellFormed(b) && j < n <= |b.vars|
    ensures Contributions(b, n)[j] == Contribution(b, j)
    ensures b.names[j].zNeg in Contributions(b, n) <==> b.vars[j] in b.negs
    ensures b.names[j].cols.z in Contributions(b, n) <==> b.vars[j] !in b.negs
  {
    var fs := Contributions(b, n);
    forall i | 0 <= i < n && i != j
      ensures fs[i] != b.names[j].zNeg && fs[i] != b.names[j].cols.z
    {
      assert fs[i] in NameSet(b.names[i]);
      assert NameSet(b.names[i]) !! NameSet(b.names[j]);
    }
    assert fs[j] == Contribution(b, j);
    assert Separate(b.names[j].cols, b.names[j].zNeg);
  }

  /** A record after steps one and two ran for indicator `j`. */
  function IndicatorApplied(r: Record, b: Build, j: nat): Record
    requires Sized(b) && j < |b.vars|
  {
    var ns := b.names[j];
    var s := Standardized(r, b.vars[j], ns.cols, b.stats[j].mean, b.stats[j].sd);
    if b.vars[j] in b.negs then Negated(s, ns.cols.z, ns.zNeg) else s
  }

  /** A record after steps one and two ran for the first `n` indicators. */
  function IndicatorsApplied(r: Record, b: Build, n: nat): Record
    requires Sized(b) && n <= |b.vars|
  {
    if n == 0 then r else IndicatorApplied(IndicatorsApplied(r, b, n - 1), b, n - 1)
  }

  /** One indicator adds exactly its own columns and changes no other. */
  lemma IndicatorAppliedFrame(r: Record, b: Build, j: nat)
    requires Sized(b) && j < |b.vars|
    ensures forall x :: x in IndicatorApplied(r, b, j) <==> x in r || x in IndicatorFields(b, j)
    ensures forall x :: x in r && x !in IndicatorFields(b, j) ==> IndicatorApplied(r, b, j)[x] == r[x]
  {
  }

  /** The indicators add exactly the generated columns and change no other. */
  lemma {:induction false} IndicatorsAppliedFrame(r: Record, b: Build, n: nat)
    requires Sized(b) && n <= |b.vars|
    ensures forall x :: x in IndicatorsApplied(r, b, n) <==> x in r || x in GeneratedFields(b, n)
    ensures forall x :: x in r && x !in GeneratedFields(b, n) ==> IndicatorsApplied(r, b, n)[x] == r[x]
  {
    if n > 0 {
      var prev := IndicatorsApplied(r, b, n - 1);
      IndicatorsAppliedFrame(r, b, n - 1);
      IndicatorAppliedFrame(prev, b, n - 1);
      assert IndicatorsApplied(r, b, n) == IndicatorApplied(prev, b, n - 1);
    }
  }

  /** The signed z-score indicator `j` contributes for record `r`. */
  function Term(r: Record, b: Build, j: nat): real
    requires Sized(b) && j < |b.vars|
    requires NumericAt(r, b.vars[j]) && b.stats[j].sd != 0.0
  {
    Polarity(b.vars[j] in b.negs) * ZScore(r[b.vars[j]].x, b.stats[j].mean, b.stats[j].sd)
  }

  /**
    With a positive deviation a record above the indicator's mean raises
    the raw score through that indicator, unless the indicator detracts.
   */
  lemma TermSign(r: Record, b: Build, j: nat)
    requires WellFormed(b) && j < |b.vars|
    requires NumericAt(r, b.vars[j]) && b.stats[j].sd > 0.0
    ensures Term(r, b, j) > 0.0 <==>
      if b.vars[j] in b.negs then r[b.vars[j]].x < b.stats[j].mean else r[b.vars[j]].x > b.stats[j].mean
    ensures Term(r, b, j) == 0.0 <==> r[b.vars[j]].x == b.stats[j].mean
  {
    var v := b.vars[j];
    ZScoreOrder(r[v].x, b.stats[j].mean, b.stats[j].mean, b.stats[j].sd);
  }

  /** The input columns a build may rely on: numeric, with a non-zero deviation, and not generated. */
  predicate Usable(r: Record, b: Build)
    requires Sized(b)
  {
    forall j :: 0 <= j < |b.vars| ==>
      NumericAt(r, b.vars[j]) && b.stats[j].sd != 0.0 && b.vars[j] !in GeneratedFields(b, |b.vars|)
  }

  /** Steps one and two of indicator `j` write its signed z-score into its contribution column. */
  lemma IndicatorAppliedValue(s: Record, b: Build, j: nat)
    requires Sized(b) && j < |b.vars| && Separate(b.names[j].cols, b.names[j].zNeg)
    requires NumericAt(s, b.vars[j]) && b.stats[j].sd != 0.0
    ensures Contribution(b, j) in IndicatorApplied(s, b, j)
    ensures IndicatorApplied(s, b, j)[Contribution(b, j)] == Num(Term(s, b, j))
  {
  }

  /** The indicator's own step writes its signed z-score into its contribution column. */
  lemma ContributionWritten(r: Record, b: Build, j: nat)
    requires Sized(b) && j < |b.vars| && Separate(b.names[j].cols, b.names[j].zNeg) && Usable(r, b)
    ensures Contribution(b, j) in IndicatorsApplied(r, b, j + 1)
    ensures IndicatorsApplied(r, b, j + 1)[Contribution(b, j)] == Num(Term(r, b, j))
  {
    var v := b.vars[j];
    GeneratedFieldsGrow(b, j, |b.vars|);
    IndicatorsAppliedFrame(r, b, j);
    var before := IndicatorsApplied(r, b, j);
    assert before[v] == r[v];
    IndicatorAppliedValue(before, b, j);
  }

  /** A later indicator's step leaves an earlier contribution column alone. */
  lemma ContributionKept(r: Record, b: Build, i: nat, j: nat)
    requires Sized(b) && j < i < |b.vars| && NameSet(b.names[i]) !! NameSet(b.names[j])
    requires Contribution(b, j) in r
    ensures Contribution(b, j) in IndicatorApplied(r, b, i)
    ensures IndicatorApplied(r, b, i)[Contribution(b, j)] == r[Contribution(b, j)]
  {
    IndicatorAppliedFrame(r, b, i);
  }

  /** After the first `n` indicators, each contribution column holds its signed z-score. */
  lemma {:induction false} ContributionValue(r: Record, b: Build, n: nat, j: nat)
    requires Sized(b) && j < n <= |b.vars| && Usable(r, b)
    requires Separate(b.names[j].cols, b.names[j].zNeg)
    requires forall i :: j < i < n ==> NameSet(b.names[i]) !! NameSet(b.names[j])
    ensures Contribution(b, j) in IndicatorsApplied(r, b, n)
    ensures IndicatorsApplied(r, b, n)[Contribution(b, j)] == Num(Term(r, b, j))
  {
    if n == j + 1 {
      ContributionWritten(r, b, j);
    } else {
      var prev := IndicatorsApplied(r, b, n - 1);
      ContributionValue(r, b, n - 1, j);
      ContributionKept(prev, b, n - 1, j);
      assert IndicatorsApplied(r, b, n) == IndicatorApplied(prev, b, n - 1);
    }
  }

  /** `zScoreList` grows by one contribution per indicator. */
  lemma ContributionsSnoc(b: Build, j: nat)
    requires Sized(b) && j < |b.vars|
    ensures Contributions(b, j + 1) == Contributions(b, j) + [Contribution(b, j)]
  {
    assert Contributions(b, j + 1)[..j] == Contributions(b, j);
  }

  /** Whether steps one and two succeed for indicator `j`, in terms of the table before the build. */
  predicate IndicatorSucceeds(f0: set<string>, rs: seq<Record>, b: Build, j: nat)
    requires Sized(b) && j < |b.vars|
  {
    b.vars[j] !in b.vars[..j] && IndicatorFields(b, j) !! f0 &&
    rs != [] && b.stats[j].sd != 0.0 && NumericColumn(rs, b.vars[j])
  }

  /**
    Whether steps one to three succeed: every indicator is listed once,
    none of the columns the build adds is already in the table, the table
    has records, and every indicator column holds numbers and has a
    non-zero deviation.
   */
  predicate BuildSucceeds(f0: set<string>, rs: seq<Record>, b: Build)
    requires Sized(b)
  {
    (forall j :: 0 <= j < |b.vars| ==> IndicatorSucceeds(f0, rs, b, j)) && b.raw !in f0 && rs != []
  }

  /** The table before the build: its declared columns `f0`, its records `rs`, and the indicator columns among them. */
  predicate Original(f0: set<string>, rs: seq<Record>, b: Build) {
    (forall i :: 0 <= i < |b.vars| ==> b.vars[i] in f0) &&
    (forall k :: 0 <= k < |rs| ==> rs[k].Keys == f0)
  }

  /** The rows after steps one and two ran for the first `j` indicators. */
  function AppliedRows(rs: seq<Record>, b: Build, j: nat): (ws: seq<Record>)
    requires Sized(b) && j <= |b.vars|
    ensures |ws| == |rs|
  {
    seq(|rs|, k requires 0 <= k < |rs| => IndicatorsApplied(rs[k], b, j))
  }

  /** The table after steps one and two ran for the first `j` indicators. */
  ghost predicate BuiltUpTo(ds: Dataset, f0: set<string>, rs: seq<Record>, b: Build, j: nat)
    requires Sized(b) && j <= |b.vars|
    reads ds, ds.rows
  {
    ds.Valid() && ds.fields == f0 + GeneratedFields(b, j) && GeneratedFields(b, j) !! f0 &&
    ds.rows[..] == AppliedRows(rs, b, j)
  }

  /** The indicator columns are never among the generated ones, so the steps leave their values alone. */
  lemma InputsKept(f0: set<string>, rs: seq<Record>, b: Build, j: nat, before: seq<Record>)
    requires Sized(b) && j < |b.vars| && Original(f0, rs, b) && GeneratedFields(b, j) !! f0
    requires |before| == |rs| && forall k :: 0 <= k < |rs| ==> before[k] == IndicatorsApplied(rs[k], b, j)
    ensures forall k :: 0 <= k < |rs| ==> b.vars[j] in before[k] && before[k][b.vars[j]] == rs[k][b.vars[j]]
    ensures NumericColumn(before, b.vars[j]) <==> NumericColumn(rs, b.vars[j])
  {
    var v := b.vars[j];
    forall k | 0 <= k < |rs|
      ensures v in before[k] && before[k][v] == rs[k][v]
    {
      IndicatorsAppliedFrame(rs[k], b, j);
    }
  }

  /**
    Step one of indicator `j` names its columns after the first occurrence
    of its variable: they are new exactly when that occurrence is `j`
    itself and its names are not in the original table.
   */
  lemma FirstOccurrenceColumns(f0: set<string>, b: Build, j: nat)
    requires WellFormed(b) && j < |b.vars| && GeneratedFields(b, j) !! f0
    ensures IndexOf(b.vars, b.vars[j]) == j <==> b.vars[j] !in b.vars[..j]
    ensures ColumnSet(b.names[IndexOf(b.vars, b.vars[j])].cols) !! (f0 + GeneratedFields(b, j)) <==>
              b.vars[j] !in b.vars[..j] && ColumnSet(b.names[j].cols) !! f0
  {
    var i := IndexOf(b.vars, b.vars[j]);
    if i < j {
      assert b.vars[j] in b.vars[..j] by { assert b.vars[..j][i] == b.vars[j]; }
      GeneratedFieldsGrow(b, i + 1, j);
      assert b.names[i].cols.mean in GeneratedFields(b, i + 1);
    } else {
      assert i == j;
      forall x | x in ColumnSet(b.names[j].cols)
        ensures x !in GeneratedFields(b, j)
      {
        GeneratedFieldsLater(b, j, j, x);
      }
    }
  }

  predicate NumericFields(r: Record, fs: seq<string>) {
    forall i :: 0 <= i < |fs| ==> NumericAt(r, fs[i])
  }

  /** The numbers a record holds in the fields `fs`, in order (`newList`). */
  function Values(r: Record, fs: seq<string>): (xs: seq<real>)
    requires NumericFields(r, fs)
    ensures |xs| == |fs|
  {
    seq(|fs|, i requires 0 <= i < |fs| => r[fs[i]].x)
  }

  /** The signed z-scores of the first `n` indicators for record `r`. */
  function Terms(r: Record, b: Build, n: nat): (ts: seq<real>)
    requires Sized(b) && n <= |b.vars| && Usable(r, b)
    ensures |ts| == n
  {
    seq(n, j requires 0 <= j < n => Term(r, b, j))
  }

  /**
    After steps one and two the columns of `zScoreList` hold numbers, and
    reading them in list order gives the signed z-scores of the indicators
    in indicator order: the raw score is the sum of the record's z-scores,
    with those of the detracting indicators negated.
   */
  lemma RawScoreIsSignedSum(r: Record, b: Build, n: nat)
    requires WellFormed(b) && n <= |b.vars| && Usable(r, b)
    ensures NumericFields(IndicatorsApplied(r, b, n), Contributions(b, n))
    ensures Values(IndicatorsApplied(r, b, n), Contributions(b, n)) == Terms(r, b, n)
  {
    var fs := Contributions(b, n);
    var a := IndicatorsApplied(r, b, n);
    forall j | 0 <= j < n
      ensures NumericAt(a, fs[j]) && a[fs[j]] == Num(Term(r, b, j))
    {
      assert Separate(b.names[j].cols, b.names[j].zNeg);
      ContributionValue(r, b, n, j);
    }
  }

  /** A record after steps one to three. */
  function RawScored(r: Record, b: Build): Record
    requires Sized(b) && Usable(r, b)
  {
    IndicatorsApplied(r, b, |b.vars|)[b.raw := Num(Sum(Terms(r, b, |b.vars|)))]
  }

  /** The raw score of a record: Python's `sum` of its values in the fields `fs`. */
  function RawScore(r: Record, fs: seq<string>): real
    requires NumericFields(r, fs)
  {
    Sum(Values(r, fs))
  }

  /** The inner loop of step three: reads the record's values in list order, then sums them. */
  method SumFields(r: Record, fs: seq<string>) returns (rawScore: real)
    requires NumericFields(r, fs)
    ensures rawScore == RawScore(r, fs)
  {
    var newList: seq<real> := [];
    var i := 0;
    while i < |fs|
      invariant 0 <= i <= |fs|
      invariant |newList| == i
      invariant forall m :: 0 <= m < i ==> newList[m] == r[fs[m]].x
    {
      newList := newList + [r[fs[i]].x];
      i := i + 1;
    }
    assert newList == Values(r, fs);
    rawScore := Sum(newList);
  }

  predicate NumericRows(rs: seq<Record>, fs: seq<string>) {
    forall k :: 0 <= k < |rs| ==> NumericFields(rs[k], fs)
  }

  /** The rows after step three: each record with its raw score in the column `raw`. */
  function WithRawScores(rs: seq<Record>, fs: seq<string>, raw: string): (ws: seq<Record>)
    requires NumericRows(rs, fs)
    ensures |ws| == |rs|
  {
    seq(|rs|, k requires 0 <= k < |rs| => rs[k][raw := Num(RawScore(rs[k], fs))])
  }

  /** The record loop of step three, over a table that already has the column `raw`. */
  method WriteRawScores(ds: Dataset, fs: seq<string>, raw: string)
    requires NumericRows(ds.rows[..], fs)
    modifies ds.rows
    ensures ds.rows[..] == WithRawScores(old(ds.rows[..]), fs, raw)
  {
    ghost var rs := ds.rows[..];
    var k := 0;
    while k < ds.rows.Length
      invariant 0 <= k <= ds.rows.Length
      invariant forall j :: 0 <= j < k ==> ds.rows[j] == rs[j][raw := Num(RawScore(rs[j], fs))]
      invariant forall j :: k <= j < ds.rows.Length ==> ds.rows[j] == rs[j]
    {
      var nextRecord := ds.rows[k];
      assert NumericFields(rs[k], fs);
      var rawScore := SumFields(nextRecord, fs);
      nextRecord := nextRecord[raw := Num(rawScore)];
      ds.rows[k] := nextRecord;
      k := k + 1;
    }
    assert ds.rows[..] == WithRawScores(rs, fs, raw);
  }

  /**
    Step three: adds the column `raw` and writes into it, on every record,
    the sum of the record's values in the columns `fs`.
   */
  method RawScorePass(ds: Dataset, fs: seq<string>, raw: string) returns (st: Outcome)
    requires ds.Valid()
    requires forall i :: 0 <= i < |fs| ==> fs[i] in ds.fields
    requires NumericRows(ds.rows[..], fs)
    modifies ds, ds.rows
    ensures ds.Valid()
    ensures st == if raw in old(ds.fields) then Failed(DuplicateField(raw))
                  else if ds.rows.Length == 0 then Failed(EmptyDataset)
                  else Ok
    ensures ds.fields == old(ds.fields) + {raw}
    ensures ds.rows[..] == if raw in old(ds.fields) then old(ds.rows[..])
                           else WithRawScores(old(ds.rows[..]), fs, raw)
  {
    ghost var rs := ds.rows[..];
    var ok := ds.AddField(raw);
    if !ok {
      return Failed(DuplicateField(raw));
    }
    forall k, i | 0 <= k < ds.rows.Length && 0 <= i < |fs|
      ensures NumericAt(ds.rows[..][k], fs[i]) && ds.rows[k][fs[i]] == rs[k][fs[i]]
    {
      assert NumericAt(rs[k], fs[i]);
    }
    ghost var ws := ds.rows[..];
    WriteRawScores(ds, fs, raw);
    forall k | 0 <= k < ds.rows.Length
      ensures ds.rows[..][k] == rs[k][raw := Num(RawScore(rs[k], fs))] && ds.rows[k].Keys == ds.fields
    {
      assert ws[k] == rs[k][raw := Null];
      assert Values(ws[k], fs) == Values(rs[k], fs);
    }
    assert ds.rows[..] == WithRawScores(rs, fs, raw);
    if ds.rows.Length == 0 {
      return Failed(EmptyDataset);
    }
    return Ok;
  }

  /** How step one of indicator `j` ends, in terms of the table before the build. */
  lemma StepOneOutcome(f0: set<string>, rs: seq<Record>, b: Build, j: nat)
    requires WellFormed(b) && j < |b.vars| && Original(f0, rs, b) && GeneratedFields(b, j) !! f0
    ensures StandardizeOutcome(AppliedRows(rs, b, j), f0 + GeneratedFields(b, j), b.vars[j],
                               b.names[IndexOf(b.vars, b.vars[j])].cols, b.stats[j].sd) == Ok <==>
            b.vars[j] !in b.vars[..j] && ColumnSet(b.names[j].cols) !! f0 &&
            rs != [] && b.stats[j].sd != 0.0 && NumericColumn(rs, b.vars[j])
  {
    InputsKept(f0, rs, b, j, AppliedRows(rs, b, j));
    FirstOccurrenceColumns(f0, b, j);
  }

  /** Steps one and two of indicator `j` add exactly its columns. */
  lemma StepFields(f0: set<string>, b: Build, j: nat)
    requires WellFormed(b) && j < |b.vars|
    ensures IndicatorFields(b, j) !! f0 <==>
              ColumnSet(b.names[j].cols) !! f0 && (b.vars[j] in b.negs ==> b.names[j].zNeg !in f0)
    ensures b.names[j].zNeg in f0 + GeneratedFields(b, j) + ColumnSet(b.names[j].cols) <==> b.names[j].zNeg in f0
    ensures f0 + GeneratedFields(b, j + 1) ==
              f0 + GeneratedFields(b, j) + ColumnSet(b.names[j].cols) +
              (if b.vars[j] in b.negs then {b.names[j].zNeg} else {})
  {
    assert Separate(b.names[j].cols, b.names[j].zNeg);
    GeneratedFieldsLater(b, j, j, b.names[j].zNeg);
  }

  /** When step one succeeds, steps one and two turn the rows of `j` indicators into those of `j + 1`. */
  lemma StepRows(f0: set<string>, rs: seq<Record>, b: Build, j: nat)
    requires WellFormed(b) && j < |b.vars| && Original(f0, rs, b) && GeneratedFields(b, j) !! f0
    requires b.stats[j].sd != 0.0 && NumericColumn(rs, b.vars[j])
    ensures var ns := b.names[j];
            var s := StandardizedRows(AppliedRows(rs, b, j), b.vars[j], ns.cols, b.stats[j].mean, b.stats[j].sd);
            NumericColumn(s, ns.cols.z) &&
            (if b.vars[j] in b.negs then NegatedRows(s, ns.cols.z, ns.zNeg) else s) == AppliedRows(rs, b, j + 1)
  {
    var ns := b.names[j];
    var before := AppliedRows(rs, b, j);
    var s := StandardizedRows(before, b.vars[j], ns.cols, b.stats[j].mean, b.stats[j].sd);
    InputsKept(f0, rs, b, j, before);
    assert Completed(before, b.vars[j], b.stats[j].sd) == |before|;
    forall k | 0 <= k < |rs|
      ensures s[k] == Standardized(before[k], b.vars[j], ns.cols, b.stats[j].mean, b.stats[j].sd)
      ensures NumericAt(s[k], ns.cols.z)
      ensures IndicatorsApplied(rs[k], b, j + 1) == IndicatorApplied(before[k], b, j)
    {
    }
  }

  /**
    One turn of the loop over `varList`: step one for the indicator at
    position `j`, under the names of the first occurrence of its variable,
    and step two if it detracts; `zScoreList` gets its contribution column.
   */
  method IndicatorStep(ds: Dataset, b: Build, j: nat, ghost f0: set<string>, ghost rs: seq<Record>,
                       zScoreList: seq<string>)
    returns (st: Outcome, zScoreList': seq<string>)
    requires WellFormed(b) && j < |b.vars| && Original(f0, rs, b)
    requires BuiltUpTo(ds, f0, rs, b, j) && zScoreList == Contributions(b, j)
    modifies ds, ds.rows
    ensures ds.Valid()
    ensures st.Ok? <==> IndicatorSucceeds(f0, rs, b, j)
    ensures st.Ok? ==> BuiltUpTo(ds, f0, rs, b, j + 1) && zScoreList' == Contributions(b, j + 1)
  {
    var variable := b.vars[j];
    var i := IndexOf(b.vars, variable);
    var names := b.names[i];
    StepOneOutcome(f0, rs, b, j);
    StepFields(f0, b, j);
    assert Separate(names.cols, names.zNeg);
    st := StandardizeIndicator(ds, variable, names.cols, b.stats[j].mean, b.stats[j].sd);
    zScoreList' := zScoreList;
    if st.Failed? {
      return;
    }
    StepRows(f0, rs, b, j);
    zScoreList' := zScoreList + [names.cols.z];
    if variable in b.negs {
      st := NegateIndicator(ds, names.cols.z, names.zNeg);
      if st.Failed? {
        return;
      }
      ContributionsEarlier(b, j, j, names.cols.z);
      RemoveAppended(zScoreList, names.cols.z, names.zNeg);
      zScoreList' := zScoreList' + [names.zNeg];
      zScoreList' := RemoveFirst(zScoreList', names.cols.z);
    }
    ContributionsSnoc(b, j);
  }

  /** The first `n` indicators all succeed. */
  predicate AllSucceed(f0: set<string>, rs: seq<Record>, b: Build, n: nat)
    requires Sized(b) && n <= |b.vars|
  {
    n == 0 || (AllSucceed(f0, rs, b, n - 1) && IndicatorSucceeds(f0, rs, b, n - 1))
  }

  lemma {:induction false} AllSucceedEach(f0: set<string>, rs: seq<Record>, b: Build, n: nat)
    requires Sized(b) && n <= |b.vars|
    ensures AllSucceed(f0, rs, b, n) <==> forall a :: 0 <= a < n ==> IndicatorSucceeds(f0, rs, b, a)
  {
    if n > 0 {
      AllSucceedEach(f0, rs, b, n - 1);
    }
  }

  /** Once an indicator fails, the first `n` do not all succeed for any later `n`. */
  lemma {:induction false} NoneAfterFailure(f0: set<string>, rs: seq<Record>, b: Build, j: nat, n: nat)
    requires Sized(b) && j < n <= |b.vars| && !IndicatorSucceeds(f0, rs, b, j)
    ensures !AllSucceed(f0, rs, b, n)
  {
    if n > j + 1 {
      NoneAfterFailure(f0, rs, b, j, n - 1);
    }
  }

  /** A record of a table on which every indicator succeeded is usable by the build. */
  lemma SucceededUsable(f0: set<string>, rs: seq<Record>, b: Build, k: nat)
    requires WellFormed(b) && Original(f0, rs, b) && GeneratedFields(b, |b.vars|) !! f0 && k < |rs|
    requires forall a :: 0 <= a < |b.vars| ==> IndicatorSucceeds(f0, rs, b, a)
    ensures Usable(rs[k], b)
  {
    forall a | 0 <= a < |b.vars|
      ensures NumericAt(rs[k], b.vars[a]) && b.stats[a].sd != 0.0 && b.vars[a] !in GeneratedFields(b, |b.vars|)
    {
      assert IndicatorSucceeds(f0, rs, b, a);
      assert b.vars[a] in f0;
    }
  }

  /** Every record can be used by the build. */
  predicate AllUsable(rs: seq<Record>, b: Build)
    requires Sized(b)
  {
    forall k :: 0 <= k < |rs| ==> Usable(rs[k], b)
  }

  /** The rows after steps one to three. */
  function RawScoredRows(rs: seq<Record>, b: Build): (ws: seq<Record>)
    requires Sized(b) && AllUsable(rs, b)
    ensures |ws| == |rs|
  {
    seq(|rs|, k requires 0 <= k < |rs| => RawScored(rs[k], b))
  }

  /** After every indicator succeeded, the raw-score pass has what it needs, and sums the signed z-scores. */
  lemma RawInputs(f0: set<string>, rs: seq<Record>, b: Build)
    requires WellFormed(b) && Original(f0, rs, b) && GeneratedFields(b, |b.vars|) !! f0
    requires forall a :: 0 <= a < |b.vars| ==> IndicatorSucceeds(f0, rs, b, a)
    ensures forall i :: 0 <= i < |b.vars| ==> Contributions(b, |b.vars|)[i] in f0 + GeneratedFields(b, |b.vars|)
    ensures b.raw in f0 + GeneratedFields(b, |b.vars|) <==> b.raw in f0
    ensures AllUsable(rs, b) && NumericRows(AppliedRows(rs, b, |b.vars|), Contributions(b, |b.vars|))
    ensures WithRawScores(AppliedRows(rs, b, |b.vars|), Contributions(b, |b.vars|), b.raw) == RawScoredRows(rs, b)
  {
    var n := |b.vars|;
    RawNotGenerated(b, n);
    forall i | 0 <= i < n
      ensures Contributions(b, n)[i] in GeneratedFields(b, n)
    {
      GeneratedFieldsGrow(b, i + 1, n);
    }
    forall k | 0 <= k < |rs|
      ensures Usable(rs[k], b) && NumericFields(AppliedRows(rs, b, n)[k], Contributions(b, n))
      ensures RawScore(AppliedRows(rs, b, n)[k], Contributions(b, n)) == Sum(Terms(rs[k], b, n))
    {
      SucceededUsable(f0, rs, b, k);
      RawScoreIsSignedSum(rs[k], b, n);
    }
  }

  /** The loop over `varList`: steps one and two for every indicator, stopping at the first failure. */
  method StandardizeAll(ds: Dataset, b: Build, ghost f0: set<string>, ghost rs: seq<Record>)
    returns (st: Outcome, zScoreList: seq<string>)
    requires WellFormed(b) && Original(f0, rs, b) && BuiltUpTo(ds, f0, rs, b, 0)
    modifies ds, ds.rows
    ensures ds.Valid()
    ensures st.Ok? <==> AllSucceed(f0, rs, b, |b.vars|)
    ensures st.Ok? ==> BuiltUpTo(ds, f0, rs, b, |b.vars|) && zScoreList == Contributions(b, |b.vars|)
  {
    st := Ok;
    zScoreList := [];
    var j := 0;
    while j < |b.vars|
      invariant 0 <= j <= |b.vars|
      invariant st.Ok? && BuiltUpTo(ds, f0, rs, b, j) && zScoreList == Contributions(b, j)
      invariant AllSucceed(f0, rs, b, j)
    {
      st, zScoreList := IndicatorStep(ds, b, j, f0, rs, zScoreList);
      if st.Failed? {
        NoneAfterFailure(f0, rs, b, j, |b.vars|);
        return;
      }
      j := j + 1;
    }
  }

  /** Steps one to three for the build `b`. */
  method RawScoreBuild(ds: Dataset, b: Build) returns (st: Outcome, zScoreList: seq<string>)
    requires ds.Valid() && WellFormed(b)
    requires forall i :: 0 <= i < |b.vars| ==> b.vars[i] in ds.fields
    modifies ds, ds.rows
    ensures ds.Valid()
    ensures st.Ok? <==> BuildSucceeds(old(ds.fields), old(ds.rows[..]), b)
    ensures st.Ok? ==>
      zScoreList == Contributions(b, |b.vars|) &&
      ds.fields == old(ds.fields) + GeneratedFields(b, |b.vars|) + {b.raw} &&
      AllUsable(old(ds.rows[..]), b) && ds.rows[..] == RawScoredRows(old(ds.rows[..]), b)
  {
    ghost var f0 := ds.fields;
    ghost var rs := ds.rows[..];
    assert Original(f0, rs, b);
    assert ds.rows[..] == AppliedRows(rs, b, 0);
    st, zScoreList := StandardizeAll(ds, b, f0, rs);
    AllSucceedEach(f0, rs, b, |b.vars|);
    if st.Failed? {
      return;
    }
    RawInputs(f0, rs, b);
    st := RawScorePass(ds, zScoreList, b.raw);
  }

  /**
    Steps one to three for period `year`: the loop over `varList`, then the
    raw-score pass over the columns of `zScoreList`. On success every record
    gains its indicators' columns and a raw score that is the sum of its
    signed z-scores.
   */
  method BuildRawScores(ds: Dataset, vars: seq<string>, negs: seq<string>, year: string, stats: seq<Stats>)
    returns (st: Outcome, zScoreList: seq<string>)
    requires ds.Valid() && |vars| == |stats|
    requires forall i :: 0 <= i < |vars| ==> vars[i] in ds.fields
    modifies ds, ds.rows
    ensures ds.Valid()
    ensures st.Ok? <==> BuildSucceeds(old(ds.fields), old(ds.rows[..]), MakeBuild(vars, negs, year, stats))
    ensures st.Ok? ==>
      var b := MakeBuild(vars, negs, year, stats);
      zScoreList == Contributions(b, |vars|) &&
      ds.fields == old(ds.fields) + GeneratedFields(b, |vars|) + {RawScoreField(year)} &&
      AllUsable(old(ds.rows[..]), b) && ds.rows[..] == RawScoredRows(old(ds.rows[..]), b)
  {
    var b := MakeBuild(vars, negs, year, stats);
    MakeBuildWellFormed(vars, negs, year, stats);
    st, zScoreList := RawScoreBuild(ds, b);
  }
}
