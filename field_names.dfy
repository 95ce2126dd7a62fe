/**
  The names the index build gives the columns it adds. Every generated
  name carries the period label, and the per-indicator ones also carry the
  indicator's position, so that one table can hold the columns of several
  periods and several indicators side by side.
 */
module FieldNames {
  import opened Decimal

  /** The four per-indicator column kinds. */
  datatype Role = MeanRole | StdvRole | ZScoreRole | ZNegRole

  function RolePrefix(role: Role): (p: string)
    ensures |p| == 4 && p[0] in {'M', 'S', 'Z'}
  {
    match role
    case MeanRole => "MEAN"
    case StdvRole => "STDV"
    case ZScoreRole => "ZSCR"
    case ZNegRole => "ZNEG"
  }

  /** `ROLE + str(i) + "_" + year`, e.g. "ZSCR2_10". */
  function IndicatorField(role: Role, i: nat, year: string): (name: string)
    ensures |name| == 5 + |NatStr(i)| + |year|
    ensures name[..4] == RolePrefix(role) && name[|name| - |year| - 1..] == "_" + year
  {
    RolePrefix(role) + NatStr(i) + "_" + year
  }

  /** `"RAWSCR_" + year`: the period label closes the name. */
  function RawScoreField(year: string): (name: string)
    ensures |name| == 7 + |year| && name[|name| - |year|..] == year
  {
    "RAWSCR_" + year
  }

  /** `"INDEX_" + year`: the period label closes the name. */
  function IndexField(year: string): (name: string)
    ensures |name| == 6 + |year| && name[|name| - |year|..] == year
  {
    "INDEX_" + year
  }

  lemma RolePrefixInjective(r1: Role, r2: Role)
    requires RolePrefix(r1) == RolePrefix(r2)
    ensures r1 == r2
  {
    assert RolePrefix(r1)[0] == RolePrefix(r2)[0] && RolePrefix(r1)[1] == RolePrefix(r2)[1];
  }

  /**
    Two strings of the form digits + "_" + rest are equal only when their
    digit parts and their rests are: the first '_' ends the digits.
   */
  lemma SplitAtUnderscore(a: string, b: string, c: string, d: string)
    requires AllDigits(a) && AllDigits(c)
    requires a + "_" + b == c + "_" + d
    ensures a == c && b == d
  {
    var s := a + "_" + b;
    assert s[|a|] == '_' && (c + "_" + d)[|c|] == '_';
    assert |a| == |c|;
    assert a == s[..|a|];
    assert c == (c + "_" + d)[..|c|];
    assert b == s[|a| + 1..];
    assert d == (c + "_" + d)[|c| + 1..];
  }

  /** Strings that agree and begin with equally long parts agree part by part. */
  lemma SplitAt(a: string, b: string, c: string, d: string)
    requires |a| == |c| && a + b == c + d
    ensures a == c && b == d
  {
    assert a == (a + b)[..|a|];
    assert c == (c + d)[..|c|];
    assert b == (a + b)[|a|..];
    assert d == (c + d)[|c|..];
  }

  /**
    The per-indicator name determines its role, its indicator position and
    its period label: no two indicators, roles or periods share a column.
   */
  lemma IndicatorFieldInjective(r1: Role, i1: nat, y1: string, r2: Role, i2: nat, y2: string)
    requires IndicatorField(r1, i1, y1) == IndicatorField(r2, i2, y2)
    ensures r1 == r2 && i1 == i2 && y1 == y2
  {
    var rest1 := NatStr(i1) + "_" + y1;
    var rest2 := NatStr(i2) + "_" + y2;
    assert IndicatorField(r1, i1, y1) == RolePrefix(r1) + rest1;
    assert IndicatorField(r2, i2, y2) == RolePrefix(r2) + rest2;
    SplitAt(RolePrefix(r1), rest1, RolePrefix(r2), rest2);
    RolePrefixInjective(r1, r2);
    SplitAtUnderscore(NatStr(i1), y1, NatStr(i2), y2);
    NatStrInjective(i1, i2);
  }

  /** The three families of generated names never meet. */
  lemma GeneratedFamiliesDisjoint(role: Role, i: nat, y1: string, y2: string, y3: string)
    ensures IndicatorField(role, i, y1) != RawScoreField(y2)
    ensures IndicatorField(role, i, y1) != IndexField(y3)
    ensures RawScoreField(y2) != IndexField(y3)
  {
    assert IndicatorField(role, i, y1)[0] == RolePrefix(role)[0];
    assert RawScoreField(y2)[0] == 'R';
    assert IndexField(y3)[0] == 'I';
  }

  /** The raw-score and index names of two periods differ when the periods do. */
  lemma PeriodFieldsInjective(y1: string, y2: string)
    requires y1 != y2
    ensures RawScoreField(y1) != RawScoreField(y2)
    ensures IndexField(y1) != IndexField(y2)
  {
    assert RawScoreField(y1)[7..] == y1 && RawScoreField(y2)[7..] == y2;
    assert IndexField(y1)[6..] == y1 && IndexField(y2)[6..] == y2;
  }
}
