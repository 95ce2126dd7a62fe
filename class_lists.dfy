/**
  The small integer lists both classification methods build from the
  requested number of classes K before they label any record: the
  countdown K, K-1, ..., 0, its ascending sort, the class labels one
  above it, and the break values of the equal-interval method.
 */
module ClassLists {

  /** The countdown list the loop builds: [K, K-1, ..., 0], and [0, -1] when K is 0. */
  function Countdown(K: nat): (xs: seq<int>)
  {
    if K == 0 then [0, -1] else seq(K + 1, i requires 0 <= i <= K => K - i)
  }

  /** The same numbers in ascending order: [0, 1, ..., K], and [-1, 0] when K is 0. */
  function ClassRange(K: nat): (xs: seq<int>)
  {
    if K == 0 then [-1, 0] else seq(K + 1, i requires 0 <= i <= K => i)
  }

  predicate StrictlyIncreasing(xs: seq<int>) {
    forall i, j :: 0 <= i < j < |xs| ==> xs[i] < xs[j]
  }

  /**
    Appends `n - 1` for every element `n` it walks over, walking over the
    elements it appends too, and stops after the first `n` below 2.
   */
  method CountdownList(K: nat) returns (classNumberList: seq<int>)
    ensures classNumberList == Countdown(K)
  {
    classNumberList := [K];
    var i := 0;
    while true
      invariant K == 0 ==> i == 0
      invariant K > 0 ==> i < K
      invariant |classNumberList| == i + 1
      invariant forall j :: 0 <= j <= i ==> classNumberList[j] == K - j
      decreases K - i
    {
      var n := classNumberList[i];
      classNumberList := classNumberList + [n - 1];
      if n < 2 {
        break;
      }
      i := i + 1;
    }
  }

  /** The list a sort of the countdown yields: ascending and holding the same numbers. */
  lemma ClassRangeSortsCountdown(K: nat)
    ensures StrictlyIncreasing(ClassRange(K))
    ensures multiset(ClassRange(K)) == multiset(Countdown(K))
  {
    var up, down := ClassRange(K), Countdown(K);
    if K == 0 {
      assert down[1..] == [-1];
      assert Reverse(down[1..]) == [-1];
    }
    assert |up| == |down|;
    assert forall i :: 0 <= i < |up| ==> up[i] == down[|down| - 1 - i];
    assert up == Reverse(down);
    ReverseMultiset(down);
  }

  function Reverse(s: seq<int>): (r: seq<int>)
    ensures |r| == |s|
    ensures forall i :: 0 <= i < |s| ==> r[i] == s[|s| - 1 - i]
  {
    if s == [] then [] else Reverse(s[1..]) + [s[0]]
  }

  /** Reversing keeps every number and how often it occurs. */
  lemma {:induction false} ReverseMultiset(s: seq<int>)
    ensures multiset(Reverse(s)) == multiset(s)
  {
    if s != [] {
      ReverseMultiset(s[1..]);
      assert s == [s[0]] + s[1..];
    }
  }

  /**
    An ascending arrangement of a collection of numbers is unique, so the
    sort of the countdown is exactly ClassRange.
   */
  lemma {:induction false} AscendingUnique(a: seq<int>, b: seq<int>)
    requires StrictlyIncreasing(a) && StrictlyIncreasing(b)
    requires multiset(a) == multiset(b)
    ensures a == b
  {
    if a != [] {
      assert b != [] by {
        assert a[0] in multiset(a);
      }
      assert a[0] in multiset(b);
      assert b[0] in multiset(a);
      assert a[0] == b[0] by {
        var i :| 0 <= i < |b| && b[i] == a[0];
        var j :| 0 <= j < |a| && a[j] == b[0];
      }
      assert a == [a[0]] + a[1..];
      assert b == [b[0]] + b[1..];
      assert multiset(a) == multiset{a[0]} + multiset(a[1..]);
      assert multiset(b) == multiset{b[0]} + multiset(b[1..]);
      assert multiset(a[1..]) == multiset(b[1..]) by {
        forall x
          ensures multiset(a[1..])[x] == multiset(b[1..])[x]
        {
          assert multiset(a)[x] == multiset(b)[x];
        }
      }
      AscendingUnique(a[1..], b[1..]);
    } else {
      assert |multiset(b)| == 0;
    }
  }

  /** `[n + 1 for n in ns]`: the loop that turns class numbers into labels. */
  method ShiftedList(ns: seq<int>) returns (indexNumberList: seq<int>)
    ensures |indexNumberList| == |ns|
    ensures forall i :: 0 <= i < |ns| ==> indexNumberList[i] == ns[i] + 1
  {
    indexNumberList := [];
    var i := 0;
    while i < |ns|
      invariant 0 <= i <= |ns|
      invariant |indexNumberList| == i
      invariant forall j :: 0 <= j < i ==> indexNumberList[j] == ns[j] + 1
    {
      indexNumberList := indexNumberList + [ns[i] + 1];
      i := i + 1;
    }
  }

  /** `ns[:-1]`: all but the last element (nothing of an empty list). */
  function DropLast(ns: seq<int>): (r: seq<int>)
    ensures |r| == if ns == [] then 0 else |ns| - 1
    ensures forall i :: 0 <= i < |r| ==> r[i] == ns[i]
  {
    if ns == [] then [] else ns[..|ns| - 1]
  }

  /** `ns[0:-2]`: all but the last two elements (nothing of a shorter list). */
  function DropLastTwo(ns: seq<int>): (r: seq<int>)
    ensures |r| == if |ns| < 2 then 0 else |ns| - 2
    ensures forall i :: 0 <= i < |r| ==> r[i] == ns[i]
  {
    if |ns| < 2 then [] else ns[..|ns| - 2]
  }

  /**
    For K classes the labels 1 .. K+1 (the last one only a sentinel the
    quantile loop never keeps), and K labels once the sentinel is dropped.
   */
  lemma IndexNumbers(K: nat, idx: seq<int>)
    requires 0 < K
    requires |idx| == |ClassRange(K)|
    requires forall i :: 0 <= i < |idx| ==> idx[i] == ClassRange(K)[i] + 1
    ensures idx == seq(K + 1, i requires 0 <= i <= K => i + 1)
    ensures |DropLast(idx)| == K
  {
  }

  /**
    The equal-interval break values: for each class number n of
    `classNumberListFinal`, the minimum plus n + 1 interval widths.
   */
  method BreakValues(classNumberListFinal: seq<int>, groupSize: real, scoreMin: real)
    returns (breakValueList: seq<real>)
    ensures |breakValueList| == |classNumberListFinal|
    ensures forall j :: 0 <= j < |breakValueList| ==>
              breakValueList[j] == scoreMin + groupSize * (classNumberListFinal[j] + 1) as real
  {
    var breakLocationList: seq<real> := [];
    var i := 0;
    while i < |classNumberListFinal|
      invariant 0 <= i <= |classNumberListFinal|
      invariant |breakLocationList| == i
      invariant forall j :: 0 <= j < i ==>
                  breakLocationList[j] == groupSize * (classNumberListFinal[j] + 1) as real
    {
      breakLocationList := breakLocationList + [groupSize * (classNumberListFinal[i] + 1) as real];
      i := i + 1;
    }
    breakValueList := [];
    i := 0;
    while i < |breakLocationList|
      invariant 0 <= i <= |breakLocationList|
      invariant |breakValueList| == i
      invariant forall j :: 0 <= j < i ==> breakValueList[j] == scoreMin + breakLocationList[j]
    {
      breakValueList := breakValueList + [scoreMin + breakLocationList[i]];
      i := i + 1;
    }
  }
}
