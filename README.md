# Neighbourhood-change index: a verified model of its numeric pipeline

Two ArcGIS batch scripts build and compare a composite "neighbourhood change"
index over the attribute table of a shapefile. This project models them
without the GIS platform. A table is a `Tables.Dataset`: a set of declared
fields and an array of records, where each record maps field names to a
value (`Null`, a number or a text). Adding a column, deleting a column and
the update cursor's record-by-record writes change that object in place.

The index build (`nc-pt1.py`) runs five steps:

1. For every indicator it broadcasts the indicator's mean and standard
   deviation onto every record and writes each record's z-score
   (`standardize.dfy`).
2. For each negative indicator it writes the negated z-score, and the list
   of contribution columns swaps the ZSCR name for the ZNEG name
   (`standardize.dfy`, `composite.dfy`).
3. It sums every record's contribution columns into `RAWSCR_<year>`
   (`composite.dfy`).
4. On the table sorted by raw score, it labels every record with its index
   class in `INDEX_<year>`. Labels come from a quantile counter loop
   (`quantile.dfy`) or from equal-interval break values
   (`equal_interval.dfy`). Both build their class lists in
   `class_lists.dfy`, and `classify.dfy` chooses between them.
5. It deletes the MEAN and STDV columns (`classify.dfy`).

The comparison (`nc-pt2.py`, `compare.dfy`) makes three passes:

- `CHNGE_<y1><y2>` gets the change of class.
- `RCLSS_<y1><y2>` gets the direction of that change as -1, 0 or 1.
- `RPRT_<y1><y2>` gets the text `"<class 1> to <class 2>"`.

Other files:

- `field_names.dfy` defines the generated column names and proves that
  different roles, indicators and periods never share one.
- `decimal.dfy` renders numbers as Python's `str` does.

Each cursor pass is a method with a `while` loop over the record array. It
is proved against a function of the rows before the pass. That function
covers the record at which the pass stops and the error it reports. Lemmas
then prove what the scripts promise about those functions:

- the raw score is the sum of the signed z-scores;
- quantile classes are ordered, lie in 1..K and have the promised sizes;
- an equal-interval class is closed below and open above;
- step five spares every column the index needs;
- swapping the two periods negates the change;
- the report reads back to the two classes.

Numbers are exact `real`s. The scripts' integer arithmetic is written out:
`int(count) / int(K)` is Python 2 floor division of naturals.

### Where the documented behaviour and the scripts differ (the model follows the scripts)

- The change report of classes 3 and 5 is `"3.0 to 5.0"`, not `"3 to 5"`.
  The index columns are FLOAT fields, and `str` of a float keeps its `.0`
  (`Compare.ReportExample`).
- Nothing checks the class count K:
  - K = 0 raises a division by zero in both classifiers.
  - K = 1 gives every record class 1 under the quantile method.
  - K ≤ 2 under the equal-interval method writes no label at all, because
    the inner loop runs over an empty list and `INDEX` stays empty.
- For K ≥ 3 the equal-interval loop does implement closed-below,
  open-above bands (`EqualInterval.IntervalBand`). Its last `elif … break`
  can never fire and changes nothing.
- A comparison input without a number in a period column stops the change
  pass with `MissingValue(field, record)`. No separate "malformed input"
  error exists.
- An indicator listed twice reuses the names of its first occurrence, so its
  second round of step one adds columns the table already has. Under the
  duplicate-name rule of `Tables.Dataset.AddField` (see "## Left out"), it
  stops there with `DuplicateField` (`Composite.FirstOccurrenceColumns`).
  Under the missing-name rule of `Classify.DeleteColumn` (see "## Left
  out"), step five likewise fails on a repeated indicator
  (`Classify.DeleteIntermediateFields`).

## Model

| member | source | states |
|---|---|---|
| FieldNames.IndicatorField | nc-pt1.py:127-135 | a per-indicator name opens with its four-letter role prefix and closes with `_` and the period label, with the position's digits between |
| FieldNames.RawScoreField | nc-pt1.py:202 | the raw-score column's name closes with the period label |
| FieldNames.IndexField | nc-pt1.py:254 | the index column's name closes with the period label |
| FieldNames.IndicatorFieldInjective | nc-pt1.py:127-135 | a per-indicator name `ROLE<i>_<year>` determines its role, indicator position and period, so two different ones never share a column |
| FieldNames.GeneratedFamiliesDisjoint | nc-pt1.py:202 | per-indicator names, `RAWSCR_<year>` and `INDEX_<year>` never coincide, whatever the periods |
| FieldNames.PeriodFieldsInjective | nc-pt1.py:254 | two periods get different raw-score and index columns |
| Decimal.NatStr | nc-pt1.py:127 | `str(i)` of a position is one or more decimal digits, a single digit exactly below 10 |
| Decimal.IntStr | nc-pt2.py:117 | `str(i)` of an integer is digits, with a leading `-` exactly for a negative one |
| Decimal.FloatStr | nc-pt2.py:117 | `str(x)` of a float starts with `-` exactly for a negative value, and a whole value ends in `.0` |
| Decimal.NatStrRoundTrip | nc-pt1.py:127 | `str(i)` of an indicator position reads back to `i` |
| Decimal.NatStrInjective | nc-pt1.py:127 | different positions are written differently |
| Decimal.IntStrRoundTrip | nc-pt2.py:117 | `str` of any integer, sign included, reads back to the integer |
| Decimal.IntegralFloatRoundTrip | nc-pt2.py:117 | `str` of a whole float (`"3.0"`) reads back to the float |
| Decimal.FloatStrChars | nc-pt2.py:117 | `str` of a float uses only digits, a sign and a point, never a space |
| Standardize.ZScore | nc-pt1.py:156 | the z-score times the deviation is the value's distance from the mean (its sign and order are `ZScoreOrder`) |
| Standardize.Sum | nc-pt1.py:213 | `sum` of a list as a left fold from 0; its properties are `ScaledSum` and `DeviationsSum` |
| Standardize.ScaledSum | nc-pt1.py:213 | scaling every term of a list by c scales its sum by c |
| Standardize.DeviationsSum | nc-pt1.py:156 | the deviations from `mean` sum to `sum(xs) - mean * len(xs)`, so they cancel exactly when `mean` is the column's mean |
| Standardize.ZScoresSum | nc-pt1.py:156 | the z-scores of a column sum to its total deviation divided by the standard deviation |
| Standardize.ZScoresMeanZero | nc-pt1.py:142-158 | when the broadcast mean is the column's mean and the deviation is non-zero, the z-scores sum to 0: they have mean 0 |
| Standardize.ZScoreColumn | nc-pt1.py:142-158 | on a numeric column with non-zero deviation, the ZSCR column after step one holds the z-scores of the indicator column, record by record |
| Standardize.ZScoreInverse | nc-pt1.py:156 | the z-score `(x - mean) / sd` determines the value: `mean + z * sd == x` |
| Standardize.ZScoreOrder | nc-pt1.py:156 | with a positive deviation z-scores keep the order of the values, and a value above the mean has a positive z-score |
| Standardize.StandardizeColumnsDistinct | nc-pt1.py:127-176 | the MEAN, STDV, ZSCR and ZNEG columns of one indicator are four different names |
| Standardize.Completed | nc-pt1.py:142-158 | the record loop completes every record exactly when the deviation is non-zero and every record holds a number, and stops at the first record when the deviation is zero |
| Standardize.AddColumnsOutcome | nc-pt1.py:127-136 | the three AddField calls succeed exactly when none of the names is in the table, and otherwise report a name the table already has |
| Standardize.WriteOutcome | nc-pt1.py:142-165 | step one's record loop succeeds exactly on a non-empty table with a numeric column and a non-zero deviation, and reports a division by zero exactly when the first record is numeric and the deviation is zero |
| Standardize.StandardizeOutcome | nc-pt1.py:123-165 | step one succeeds exactly when its names are new, the table has records, the indicator is numeric on every record and the deviation is non-zero |
| Standardize.AddStandardizeColumns | nc-pt1.py:127-136 | the three columns are added empty on every record, or the first duplicate name is reported; the table then holds exactly the columns added before the refused one, empty on every record |
| Standardize.WriteZScores | nc-pt1.py:142-158 | the same mean and deviation go onto every record, each completed record gets `(x - mean) / sd`, and the loop stops at the first non-numeric value or zero deviation with the error Python raises there |
| Standardize.AddThenWrite | nc-pt1.py:128-158 | adding the empty columns first does not change what the record loop computes or how it ends |
| Standardize.StandardizeIndicator | nc-pt1.py:123-165 | step one for one indicator: outcome and new table in terms of the table before it, on success and when an AddField call is refused (the columns added before the refused one stay, empty) |
| Standardize.WriteNegated | nc-pt1.py:181-186 | every record's ZNEG value is its ZSCR value times -1 |
| Standardize.NegateIndicator | nc-pt1.py:173-198 | step two adds ZNEG holding the negated z-scores, failing on a duplicate name or an empty table |
| Composite.NamesOfDisjoint | nc-pt1.py:127-176 | two indicator positions never share a column name |
| Composite.NamesOfSeparate | nc-pt1.py:127-202 | the four names of one position differ, and none of them is the raw-score column |
| Composite.NamesForApart | nc-pt1.py:127-202 | the names the script builds for all positions are pairwise apart |
| Composite.IndexOf | nc-pt1.py:127 | `varList.index(v)` is the position of the first occurrence of `v` |
| Composite.RemoveFirst | nc-pt1.py:191 | `list.remove(x)` drops exactly the first occurrence of `x` |
| Composite.RemoveAppended | nc-pt1.py:190-191 | appending ZNEG and then removing ZSCR leaves the list with ZNEG in place of ZSCR |
| Composite.ContributionsExactlyOne | nc-pt1.py:161-191 | `zScoreList` holds one column per indicator in indicator order: ZNEG for a negative indicator, ZSCR otherwise, never both |
| Composite.IndicatorsAppliedFrame | nc-pt1.py:123-198 | steps one and two add exactly the generated columns and change no other field |
| Composite.TermSign | nc-pt1.py:156-184 | with a positive deviation, an indicator raises the raw score exactly when the record lies above its mean (below, if the indicator detracts) |
| Composite.ContributionValue | nc-pt1.py:142-186 | after the indicator loop each contribution column holds the record's signed z-score, which later indicators leave alone |
| Composite.RawScoreIsSignedSum | nc-pt1.py:209-213 | reading the `zScoreList` columns in order gives the signed z-scores, so the raw score is their sum |
| Composite.SumFields | nc-pt1.py:210-213 | the inner loop collects the record's values in list order and sums them |
| Composite.WriteRawScores | nc-pt1.py:209-215 | each record's raw score is the sum of its values in the listed columns, and no other field changes |
| Composite.RawScorePass | nc-pt1.py:202-222 | step three adds `RAWSCR_<year>` with every record's sum, failing on a duplicate name or an empty table |
| Composite.FirstOccurrenceColumns | nc-pt1.py:127-136 | step one's columns are new exactly when the indicator is not listed earlier and its own names are not in the table |
| Composite.StepOneOutcome | nc-pt1.py:123-165 | step one of indicator `j` succeeds exactly when the indicator is listed first there, its names are new, the table has records and the column is numeric with non-zero deviation |
| Composite.IndicatorStep | nc-pt1.py:123-198 | one turn of the loop over `varList` succeeds exactly when that indicator can be standardised, and then extends the table and `zScoreList` by that indicator |
| Composite.StandardizeAll | nc-pt1.py:123-198 | the loop over `varList` succeeds exactly when every indicator does, leaving every generated column and `zScoreList` complete |
| Composite.RawInputs | nc-pt1.py:200-215 | after the loop every listed column exists and is numeric, and the sums step three writes are the signed z-score sums |
| Composite.RawScoreBuild | nc-pt1.py:121-222 | steps one to three succeed exactly under the build's conditions, giving every record its columns and its signed-sum raw score |
| Composite.BuildRawScores | nc-pt1.py:121-222 | steps one to three for one period, with the script's own column names |
| ClassLists.Countdown | nc-pt1.py:243-247 | the countdown the loop builds, `[K, …, 0]` (`[0, -1]` for K = 0); `CountdownList` proves the loop builds it |
| ClassLists.CountdownList | nc-pt1.py:243-247 | the self-extending loop builds `[K, K-1, …, 0]` (and `[0, -1]` for K = 0) and terminates |
| ClassLists.ClassRangeSortsCountdown | nc-pt1.py:250 | `[0, 1, …, K]` is ascending and holds the same numbers as the countdown |
| ClassLists.AscendingUnique | nc-pt1.py:250 | a list has only one ascending arrangement, so the sort yields exactly `[0, …, K]` |
| ClassLists.ShiftedList | nc-pt1.py:261-263 | every class number is raised by one |
| ClassLists.IndexNumbers | nc-pt1.py:261-265 | the quantile labels are `[1, …, K+1]`, and dropping the last leaves K of them |
| ClassLists.DropLast | nc-pt1.py:265 | `xs[:-1]` keeps all but the last element |
| ClassLists.DropLastTwo | nc-pt1.py:322 | `xs[0:-2]` keeps all but the last two elements |
| ClassLists.BreakValues | nc-pt1.py:326-333 | break value j is `min + width * (n_j + 1)` |
| Quantile.DivStep | nc-pt1.py:279-282 | the counter pair `(m, b)` advances as quotient and remainder of the record position |
| Quantile.QuantileClass | nc-pt1.py:274-286 | every quantile label lies in 1..K |
| Quantile.QuantileRows | nc-pt1.py:274-286 | the table after the quantile loop: same records, record i carrying class `QuantileClass(i, N div K, K)` |
| Quantile.AssignQuantileLabels | nc-pt1.py:274-286 | the `b`/`m` counter loop gives the record at sorted position `i` the class `min(i div g + 1, K)` (`i + 1` capped at K when g = 0) |
| Quantile.QuantilePass | nc-pt1.py:232-289 | the quantile step fails on K = 0 before adding INDEX, then on a duplicate name or an empty table, and otherwise labels every record by its position |
| Quantile.QuantileMonotone | nc-pt1.py:274-286 | labels never decrease along the sorted order |
| Quantile.QuantileRespectsOrder | nc-pt1.py:268-286 | a record with a strictly lower raw score never gets a higher class |
| Quantile.FewRecords | nc-pt1.py:274-286 | with no more records than classes, every record gets its own class `i + 1` |
| Quantile.ClassBlock | nc-pt1.py:274-286 | class c < K is exactly the block of positions `[(c-1)g, cg)`, and class K everything from `(K-1)g` on |
| Quantile.ClassInterval | nc-pt1.py:237-286 | each class is one run of consecutive positions, of length N div K, or N div K + N mod K for the last |
| Quantile.ClassSizes | nc-pt1.py:237-286 | with N ≥ K records, classes 1..K-1 hold N div K records each and class K holds N div K + N mod K |
| EqualInterval.ColumnMin | nc-pt1.py:308 | the minimum raw score is at most every record's and is some record's raw score |
| EqualInterval.ColumnMax | nc-pt1.py:299 | the maximum is at least every record's and is some record's raw score, so the range is non-negative |
| EqualInterval.Share | nc-pt1.py:304 | the interval width times K is the range |
| EqualInterval.Breaks | nc-pt1.py:326-333 | the K-1 break values `min + w * (j + 1)` the two loops build; `BreakValues` and `IntervalLists` prove the loops build them |
| EqualInterval.BreaksNonDecreasing | nc-pt1.py:326-333 | the K-1 break values never decrease |
| EqualInterval.CountAtMostSplits | nc-pt1.py:352-368 | the breaks at or below a value are exactly the first ones |
| EqualInterval.IntervalClass | nc-pt1.py:352-368 | the class the inner loop leaves: one more than the breaks at or below the score for K ≥ 3, none for K ≤ 2; its band is stated by `IntervalBand` |
| EqualInterval.IntervalClassRange | nc-pt1.py:352-368 | for K ≥ 3 every record gets a class in 1..K, and for K ≤ 2 none |
| EqualInterval.IntervalBand | nc-pt1.py:352-368 | class c holds exactly the values in `[min + w(c-1), min + wc)`, with class 1 open below and class K open above: boundary values go to the upper class |
| EqualInterval.IntervalMonotone | nc-pt1.py:352-368 | a larger raw score never gets a smaller class |
| EqualInterval.ZeroRangeTopClass | nc-pt1.py:304-368 | when all raw scores are equal every record gets class K |
| EqualInterval.IntervalRowsOrdered | nc-pt1.py:346-368 | along the sorted table the labels never decrease |
| EqualInterval.RecordClass | nc-pt1.py:353-368 | the inner loop, last write winning, leaves the record's class `1 + #breaks ≤ v` for K ≥ 3 and the cell untouched for K ≤ 2 |
| EqualInterval.AssignIntervalLabels | nc-pt1.py:350-368 | every record gets the class of its raw score |
| EqualInterval.IntervalLists | nc-pt1.py:313-344 | the list code yields the K-1 break values, the short class list `[0, …, K-3]` and the top class K |
| EqualInterval.ClassifyByIntervals | nc-pt1.py:337-371 | adds INDEX and labels every record, or reports a duplicate name |
| EqualInterval.EqualIntervalPass | nc-pt1.py:295-371 | the equal-interval step fails on an empty table, then on K = 0, then on a duplicate name, and otherwise labels every record from the column's minimum and range |
| Classify.ClassifyRecords | nc-pt1.py:226-374 | step four labels the sorted table by the chosen method, with that method's outcome, and the table on every path: unchanged after a failure, except that the quantile pass adds INDEX before finding the table empty |
| Classify.StatsColumnsMembers | nc-pt1.py:378-387 | the deleted columns are exactly the MEAN and STDV columns of the listed positions |
| Classify.StatsColumnsSpare | nc-pt1.py:378-387 | step five deletes no z-score, negated z-score, raw-score or index column of any period |
| Classify.DeleteColumn | nc-pt1.py:383 | DeleteField removes the column from the table and every record, and, under the admitted missing-name rule, fails exactly when it is missing |
| Classify.StepNames | nc-pt1.py:382-387 | round j finds its columns exactly when step five stays on course, and they are then the columns of position j |
| Classify.DeleteStatsOf | nc-pt1.py:382-387 | one round deletes MEAN and STDV of the indicator's first occurrence, failing on a missing column |
| Classify.DeleteIntermediateFields | nc-pt1.py:378-387 | step five succeeds exactly when the indicators are distinct and all their MEAN/STDV columns exist, and then removes exactly those columns from the table and every record |
| Tables.FirstNonNumeric | nc-pt1.py:152-156 | the first record whose value is not a number, where Python's arithmetic raises |
| Tables.Dataset.AddField | nc-pt1.py:128 | a new column is empty on every record, and a name the table has is refused without change |
| Tables.Dataset.DeleteField | nc-pt1.py:383 | the column leaves the table and every record |
| Compare.ChangeField | nc-pt2.py:55 | `CHNGE_` followed by the two period labels |
| Compare.ReclassField | nc-pt2.py:78 | `RCLSS_` followed by the two period labels |
| Compare.ReportField | nc-pt2.py:109 | `RPRT_` followed by the two period labels |
| Compare.Sign | nc-pt2.py:87-98 | the if/elif chain's direction of a change; what it means is `SignCases` |
| Compare.SignCases | nc-pt2.py:87-98 | the direction is -1 exactly for a fall in class, 0 exactly for no change and 1 exactly for a rise |
| Compare.ValueStr | nc-pt2.py:119 | `str` of a cell: `"None"` for an empty one, a text as it is, and for a number its rendering, signed exactly when negative |
| Compare.ReportText | nc-pt2.py:119 | `str(v1) + " to " + str(v2)`; that it reads back to the two classes is `ReportRoundTrip` |
| Compare.ComparisonFieldsDistinct | nc-pt2.py:55-109 | CHNGE, RCLSS and RPRT names are pairwise different and never an index, raw-score or per-indicator column |
| Compare.FirstIncomparable | nc-pt2.py:61-65 | the first record where the subtraction meets a non-number |
| Compare.WriteChanges | nc-pt2.py:61-67 | each record up to the first non-numeric one gets year-2 class minus year-1 class |
| Compare.ChangePass | nc-pt2.py:53-73 | step one adds CHNGE, fails on a duplicate name, at the first non-numeric record or on an empty table, and otherwise holds every difference |
| Compare.WriteReclasses | nc-pt2.py:84-98 | every record gets -1, 0 or 1 by the sign of its change |
| Compare.ReclassPass | nc-pt2.py:76-104 | step two adds RCLSS with every record's sign, failing on a duplicate name or an empty table |
| Compare.WriteReports | nc-pt2.py:115-121 | every record gets `str(v1) + " to " + str(v2)` |
| Compare.ReportPass | nc-pt2.py:107-127 | step three adds RPRT with every record's report, failing on a duplicate name, a missing period column or an empty table |
| Compare.CompareSucceeds | nc-pt2.py:53-128 | a comparison succeeds exactly on a non-empty table with two numeric period columns and none of the three new names |
| Compare.ComparedRecord | nc-pt2.py:61-121 | a compared record gains exactly the three fields: the change, -1/0/1 exactly when the class fell/stayed/rose, and the report, with every other field unchanged |
| Compare.SwapNegates | nc-pt2.py:65-98 | comparing the periods the other way round negates both the change and its direction |
| Compare.ReportRoundTrip | nc-pt2.py:117 | the report of two whole classes reads back to the year-1 and year-2 class, in order |
| Compare.ReportExample | nc-pt2.py:117 | classes 3 and 5 are reported as `"3.0 to 5.0"` |
| Compare.ChangeStage | nc-pt2.py:53-73 | a failing change pass fails the comparison with its own error, and after it only the two other names can clash |
| Compare.ChainedRows | nc-pt2.py:61-121 | the three passes one after the other compare every record |
| Compare.ReclassAndReport | nc-pt2.py:76-128 | steps two and three on the completed change column |
| Compare.ComparePasses | nc-pt2.py:53-128 | the three passes in turn stop at the first failure, and on success the table has the three columns and every record its compared values |
| Compare.CompareIndices | nc-pt2.py:53-128 | the comparison for two periods with the script's own column names: outcome, new columns and compared records |

## Left out

- Tool parameters, progress messages and the error report are user interface and logging (nc-pt1.py:44-61, 389-395; nc-pt2.py:37-48, 141-147). A failure is returned as an `Outcome` instead.
- The statistics helpers (nc-pt1.py:64-116) call the platform's statistics tool:
  - the mean and standard deviation of an indicator are parameters (`Composite.Stats`);
  - the record count is the number of records;
  - the minimum and the range are functions of the raw-score column (`EqualInterval.ColumnMin`, `ColumnMax`).
- Composite.BuildRawScores: requires every indicator column to be in the table. A missing column makes the statistics tool fail, which is outside the model.
- Composite.BuildRawScores: does not check that the mean and deviation it is given are those of the column.
- Composite.RawScoreBuild / BuildRawScores: the error and the table after a failed step are not described. Each step method (`StandardizeIndicator`, `NegateIndicator`, `RawScorePass`) describes them for its own step.
- Standardize.WriteZScores: the unit standard deviation of the z-scores is not stated. The zero mean is proved (`ZScoresMeanZero`, with `ZScoreColumn`), under the hypothesis that the mean parameter is the column's mean. The deviation is a parameter, and the nonlinear real arithmetic of the unit-deviation statement is left unproved.
- Classify.DeleteColumn: a name the table does not have is refused, and the table is left as it was. The scripts only call the platform's DeleteField tool, whose behaviour on a missing field is not in the source. The failure of step five on a repeated indicator, and so the iff of `Classify.DeleteIntermediateFields`, rests on this rule.
- Tables.Dataset.AddField: an existing name is refused with `DuplicateField`, and the table is left as it was. The scripts only call the platform's AddField tool, whose behaviour on an existing field is not in the source. The duplicate-indicator outcome of `Composite.FirstOccurrenceColumns` rests on this rule.
- Shapefile (dBASE) field names are limited to 10 characters. Some generated names are longer (`MEAN10_2010`, `CHNGE_20002010`), and whether the platform truncates them is not modelled. The distinctness results (`FieldNames.IndicatorFieldInjective`, `Compare.ComparisonFieldsDistinct` and the like) hold for names stored in full.
- The equal-interval statistics of an empty table are foreign results. The model stops with `EmptyDataset` before using them.
- Copying, sorting and deleting shapefiles are file operations. The temporary and the output shapefile are one table here, and sorting by raw score is a precondition (`SortedBy`) of the classification step. Tie order is left open.
- Because sorting is external, steps one to three (`Composite.BuildRawScores`), step four (`Classify.ClassifyRecords`) and step five (`Classify.DeleteIntermediateFields`) are separate methods, not one chained run.
- Classification method names other than "Quantile" and "Equal Interval" run no classification. The model offers only the two methods.
- The spatial analysis of the comparison (nc-pt2.py:130-139) is a foreign spatial-statistics tool.
- Numbers are exact reals:
  - the floating-point rounding of the arithmetic and of FLOAT(20, 10) storage is not modelled;
  - the square root inside the deviation is not modelled, since the deviation is a parameter.
- Decimal.FloatStr: renders a whole float of magnitude below 10^12 as Python 2 does (`"3.0"`). Python 2's `str` keeps twelve significant digits, so larger whole floats print in exponent form (`1e+12`), which the model does not reproduce. Other floats get up to ten decimals. Only whole numbers, which every index class is, are proved to read back.
- Compare.ReclassPass: requires a numeric CHNGE column, which the change pass guarantees. Python 2's ordering of `None` and strings against numbers is not modelled.
- Compare.CompareIndices: the table after a failed pass is not described. Each pass method (`ChangePass`, `ReclassPass`, `ReportPass`) does describe it.
- Classify.DeleteIntermediateFields: the table after a failed deletion is not described.
- The parsing of the class count from the tool's parameter text (`int(classNumber)`) is left out. K is a natural number.
- The quantile step's count is the number of non-empty raw scores. Under the sorted precondition every raw score is a number, so it is the number of records.
