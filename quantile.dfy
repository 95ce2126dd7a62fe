/**
  Step four, quantile classification: the records, in ascending order of
  raw score, are cut into K classes of `count div K` records each, the
  highest class taking whatever is left over, and each record's class
  (1 for the lowest raw scores, K for the highest) is written into the
  INDEX column.
 */
module Quantile {
  import opened Tables
  import opened ClassLists

  // Division facts the counter loop and the class sizes rest on.

  lemma DivUnique(a: nat, g: nat, q: nat, r: nat)
    requires 0 < g && r < g && a == q * g + r
    ensures a / g == q && a % g == r
  {
    var q0, r0 := a / g, a % g;
    assert a == q0 * g + r0;
    var d := q - q0;
    assert d * g == r0 - r;
    MulAtLeastOne(d, g);
  }

  lemma MulMonotone(a: nat, b: nat, g: nat)
    requires a <= b
    ensures a * g <= b * g
  {
    assert b * g == a * g + (b - a) * g;
  }

  /** A non-zero multiple of g is at least g away from zero. */
  lemma MulAtLeastOne(d: int, g: nat)
    ensures d >= 1 ==> d * g >= g
    ensures d <= -1 ==> d * g + g <= 0
  {
    if d >= 1 {
      MulMonotone(1, d, g);
    } else if d <= -1 {
      MulMonotone(1, -d, g);
      assert (-d) * g == -(d * g);
    }
  }

  /** Position i lies in block q of g positions exactly when q*g <= i < q*g + g. */
  lemma DivBlock(i: nat, g: nat, q: nat)
    requires 0 < g
    ensures i / g == q <==> q * g <= i < q * g + g
  {
    if q * g <= i < q * g + g {
      DivUnique(i, g, q, i - q * g);
    }
    if i / g == q {
      assert i == (i / g) * g + i % g;
    }
  }

  /** Position i lies in block q or later exactly when q*g <= i. */
  lemma DivAtLeast(i: nat, g: nat, q: nat)
    requires 0 < g
    ensures q <= i / g <==> q * g <= i
  {
    assert i == (i / g) * g + i % g;
    if q <= i / g {
      MulMonotone(q, i / g, g);
    } else {
      MulMonotone(i / g + 1, q, g);
      assert (i / g + 1) * g == (i / g) * g + g;
    }
  }

  /** One position further either stays in the block or starts the next one. */
  lemma DivStep(k: nat, g: nat)
    requires 0 < g
    ensures k % g == g - 1 ==> (k + 1) / g == k / g + 1 && (k + 1) % g == 0
    ensures k % g < g - 1 ==> (k + 1) / g == k / g && (k + 1) % g == k % g + 1
  {
    assert k == (k / g) * g + k % g;
    if k % g == g - 1 {
      assert k + 1 == (k / g + 1) * g + 0;
      DivUnique(k + 1, g, k / g + 1, 0);
    } else {
      DivUnique(k + 1, g, k / g, k % g + 1);
    }
  }

  lemma DivMonotone(i: nat, j: nat, g: nat)
    requires 0 < g && i <= j
    ensures i / g <= j / g
  {
    DivAtLeast(i, g, i / g);
    assert (i / g) * g <= i;
    DivAtLeast(j, g, i / g);
  }

  /**
    The class of the record at sorted position i (from 0) when classes
    hold g records: the block of g records it falls in, counted from 1,
    with everything past the K-th block kept in class K. A group size of
    0 (fewer records than classes) makes every record a block of its own.
   */
  function QuantileClass(i: nat, g: nat, K: nat): (c: nat)
    requires 0 < K
    ensures 1 <= c <= K
  {
    var block := i / (if g == 0 then 1 else g);
    if block + 1 < K then block + 1 else K
  }

  /** The rows after the labelling loop: record i carries its class in column `index`. */
  function QuantileRows(rs: seq<Record>, index: string, K: nat): (ws: seq<Record>)
    requires 0 < K
    ensures |ws| == |rs|
  {
    seq(|rs|, i requires 0 <= i < |rs| => rs[i][index := Num(QuantileClass(i, |rs| / K, K) as real)])
  }

  /**
    The labelling loop. `m` points into the labels 1 .. K+1 and `b` counts
    the records given the current label; after g records `m` moves on, but
    never past K, and a label above K is written as K.
   */
  method AssignQuantileLabels(ds: Dataset, index: string, indexNumberList: seq<int>,
                              indexNumberListShort: seq<int>, groupSizeInt: nat, ghost K: nat)
    requires 0 < K && |indexNumberListShort| == K
    requires indexNumberList == seq(K + 1, i requires 0 <= i <= K => i + 1)
    requires groupSizeInt == ds.rows.Length / K
    modifies ds.rows
    ensures ds.rows[..] == QuantileRows(old(ds.rows[..]), index, K)
  {
    ghost var rs := ds.rows[..];
    ghost var G := if groupSizeInt == 0 then 1 else groupSizeInt;
    var b := 0;
    var m := 0;
    var k := 0;
    while k < ds.rows.Length
      invariant 0 <= k <= ds.rows.Length
      invariant m == if k / G < K then k / G else K
      invariant m < K ==> b == k % G
      invariant forall j :: 0 <= j < k ==> ds.rows[j] == rs[j][index := Num(QuantileClass(j, groupSizeInt, K) as real)]
      invariant forall j :: k <= j < ds.rows.Length ==> ds.rows[j] == rs[j]
    {
      var nextRecord := ds.rows[k];
      var indexScore := indexNumberList[m];
      nextRecord := nextRecord[index := Num(indexScore as real)];
      b := b + 1;
      DivStep(k, G);
      if b >= groupSizeInt && m <= |indexNumberListShort| - 1 {
        m := m + 1;
        b := 0;
      }
      if indexScore > |indexNumberListShort| {
        indexScore := indexScore - 1;
        nextRecord := nextRecord[index := Num(indexScore as real)];
      }
      assert indexScore == QuantileClass(k, groupSizeInt, K);
      ds.rows[k] := nextRecord;
      k := k + 1;
    }
    assert ds.rows[..] == QuantileRows(rs, index, K);
  }

  /**
    Step four with the quantile method, on a table sorted by raw score:
    K = 0 fails on the group-size division before anything changes; then
    the INDEX column is added and every record labelled. The count of the
    raw-score column is the number of records, since every record holds
    a raw score.
   */
  method QuantilePass(ds: Dataset, raw: string, index: string, K: nat) returns (st: Outcome)
    requires ds.Valid() && SortedBy(ds.rows[..], raw)
    modifies ds, ds.rows
    ensures ds.Valid()
    ensures st == if K == 0 then Failed(DivisionByZero)
                  else if index in old(ds.fields) then Failed(DuplicateField(index))
                  else if ds.rows.Length == 0 then Failed(EmptyDataset)
                  else Ok
    ensures ds.fields == if K == 0 then old(ds.fields) else old(ds.fields) + {index}
    ensures ds.rows[..] == if K == 0 || index in old(ds.fields) then old(ds.rows[..])
                           else QuantileRows(old(ds.rows[..]), index, K)
  {
    ghost var rs := ds.rows[..];
    var scoreCount := ds.rows.Length;
    if K == 0 {
      return Failed(DivisionByZero);
    }
    var groupSizeInt := scoreCount / K;
    var classNumberList := CountdownList(K);
    // the ascending sort of the countdown, which is unique
    ClassRangeSortsCountdown(K);
    classNumberList := ClassRange(K);
    var ok := ds.AddField(index);
    if !ok {
      return Failed(DuplicateField(index));
    }
    var indexNumberList := ShiftedList(classNumberList);
    var indexNumberListShort := DropLast(indexNumberList);
    IndexNumbers(K, indexNumberList);
    ghost var ws := ds.rows[..];
    AssignQuantileLabels(ds, index, indexNumberList, indexNumberListShort, groupSizeInt, K);
    forall k | 0 <= k < ds.rows.Length
      ensures ds.rows[k] == QuantileRows(rs, index, K)[k] && ds.rows[k].Keys == ds.fields
    {
      assert ws[k] == rs[k][index := Null];
      assert ds.rows[k] == ds.rows[..][k];
    }
    assert ds.rows[..] == QuantileRows(rs, index, K);
    if ds.rows.Length == 0 {
      return Failed(EmptyDataset);
    }
    return Ok;
  }

  /** Along the sorted order the class never goes down. */
  lemma QuantileMonotone(i: nat, j: nat, g: nat, K: nat)
    requires 0 < K && i <= j
    ensures QuantileClass(i, g, K) <= QuantileClass(j, g, K)
  {
    DivMonotone(i, j, if g == 0 then 1 else g);
  }

  /** In a table sorted by raw score, a lower raw score never gets a higher class. */
  lemma QuantileRespectsOrder(rs: seq<Record>, raw: string, K: nat, i: nat, j: nat)
    requires 0 < K && SortedBy(rs, raw)
    requires i < |rs| && j < |rs|
    ensures rs[i][raw].x < rs[j][raw].x ==> QuantileClass(i, |rs| / K, K) <= QuantileClass(j, |rs| / K, K)
  {
    if i <= j {
      QuantileMonotone(i, j, |rs| / K, K);
    }
  }

  /** With no more records than classes, every record is a class of its own. */
  lemma FewRecords(N: nat, K: nat, i: nat)
    requires 0 < K && N <= K && i < N
    ensures QuantileClass(i, N / K, K) == i + 1
  {
    if N == K {
      DivUnique(N, K, 1, 0);
    } else {
      DivUnique(N, K, 0, N);
    }
  }

  /** How many records carry value v in column f. */
  function CountValue(rs: seq<Record>, f: string, v: Value): (n: nat)
    ensures n <= |rs|
  {
    if rs == [] then 0
    else CountValue(rs[..|rs| - 1], f, v) + if f in rs[|rs| - 1] && rs[|rs| - 1][f] == v then 1 else 0
  }

  /** When exactly the positions lo .. hi-1 carry v, the first p records hold their share of them. */
  lemma {:induction false} BlockCount(ws: seq<Record>, f: string, v: Value, lo: nat, hi: nat, p: nat)
    requires lo <= hi <= |ws| && p <= |ws|
    requires forall i :: 0 <= i < |ws| ==> (f in ws[i] && ws[i][f] == v <==> lo <= i < hi)
    ensures CountValue(ws[..p], f, v) == if p <= lo then 0 else if p <= hi then p - lo else hi - lo
  {
    if p > 0 {
      BlockCount(ws, f, v, lo, hi, p - 1);
      assert ws[..p][..p - 1] == ws[..p - 1];
    }
  }

  /** Classes below K are blocks of g positions; class K is everything from block K on. */
  lemma ClassBlock(i: nat, g: nat, K: nat, c: nat)
    requires 0 < g && 0 < K && 1 <= c
    ensures c < K ==> (QuantileClass(i, g, K) == c <==> (c - 1) * g <= i < (c - 1) * g + g)
    ensures QuantileClass(i, g, K) == K <==> (K - 1) * g <= i
  {
    DivBlock(i, g, c - 1);
    DivAtLeast(i, g, K - 1);
  }

  /** The positions of class c form one interval, of `count div K` positions, or more for class K. */
  lemma ClassInterval(N: nat, K: nat, c: nat) returns (lo: nat, hi: nat)
    requires 0 < K <= N && 1 <= c <= K
    ensures lo <= hi <= N
    ensures hi - lo == if c < K then N / K else N / K + N % K
    ensures forall i :: 0 <= i < N ==> (QuantileClass(i, N / K, K) == c <==> lo <= i < hi)
  {
    var g := N / K;
    DivAtLeast(N, K, 1);
    assert N == K * g + N % K;
    lo := (c - 1) * g;
    MulMonotone(c - 1, K - 1, g);
    assert (K - 1) * g + g == K * g;
    hi := if c < K then lo + g else N;
    forall i | 0 <= i < N
      ensures QuantileClass(i, g, K) == c <==> lo <= i < hi
    {
      ClassBlock(i, g, K, c);
    }
  }

  /**
    With at least as many records as classes, classes 1 .. K-1 hold
    `count div K` records each and class K holds the rest,
    `count div K + count mod K`.
   */
  lemma ClassSizes(rs: seq<Record>, index: string, K: nat, c: nat)
    requires 0 < K <= |rs| && 1 <= c <= K
    ensures CountValue(QuantileRows(rs, index, K), index, Num(c as real)) ==
            if c < K then |rs| / K else |rs| / K + |rs| % K
  {
    var N := |rs|;
    var ws := QuantileRows(rs, index, K);
    var lo, hi := ClassInterval(N, K, c);
    forall i | 0 <= i < N
      ensures index in ws[i] && ws[i][index] == Num(c as real) <==> lo <= i < hi
    {
    }
    BlockCount(ws, index, Num(c as real), lo, hi, N);
    assert ws[..N] == ws;
  }
}
