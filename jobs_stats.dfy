/**
 * The figures of `make_jobs_stats_row`: how many jobs the search returned,
 * how many of them carry a normalised salary, and the mean of those salaries.
 */
module JobsStats {
  import opened Wrappers
  import opened Frames

  const SalaryColumn := "norm_salary"

  /** The three stat cards: total results, results with salary, average salary (None where pandas gives NaN). */
  datatype Stats = Stats(numResults: nat, numWithSalary: nat, averageSalary: Option<real>)

  predicate HasSalaryColumn(rows: seq<Row>) {
    forall i :: 0 <= i < |rows| ==> SalaryColumn in rows[i]
  }

  /** `df['norm_salary'].notnull()`: one flag per row, set where the row has a salary. */
  function SalaryMask(rows: seq<Row>): (mask: seq<bool>)
    requires HasSalaryColumn(rows)
    ensures |mask| == |rows|
    ensures forall i :: 0 <= i < |rows| ==> (mask[i] <==> rows[i][SalaryColumn] != Null)
  {
    seq(|rows|, i requires 0 <= i < |rows| => rows[i][SalaryColumn] != Null)
  }

  /** The positions where a mask is set, each once, in increasing order. */
  function SetPositions(mask: seq<bool>): (p: seq<nat>)
    ensures forall k :: 0 <= k < |p| ==> p[k] < |mask|
    ensures forall k, l :: 0 <= k < l < |p| ==> p[k] < p[l]
    ensures forall i :: 0 <= i < |mask| ==> (mask[i] <==> i in p)
  {
    if mask == [] then []
    else
      var rest := SetPositions(mask[1..]);
      ShiftedPositions(mask, rest, Shift(rest));
      if mask[0] then [0] + Shift(rest) else Shift(rest)
  }

  /** Positions moved up by one, past a leading element. */
  function Shift(p: seq<nat>): (q: seq<nat>)
    ensures |q| == |p| && forall k :: 0 <= k < |p| ==> q[k] == p[k] + 1
  {
    seq(|p|, k requires 0 <= k < |p| => p[k] + 1)
  }

  lemma ShiftedPositions(mask: seq<bool>, rest: seq<nat>, shifted: seq<nat>)
    requires mask != [] && |shifted| == |rest|
    requires forall k :: 0 <= k < |rest| ==> shifted[k] == rest[k] + 1
    requires forall i :: 0 <= i < |mask| - 1 ==> (mask[1..][i] <==> i in rest)
    ensures forall i :: 1 <= i < |mask| ==> (mask[i] <==> i in shifted)
  {
    forall i | 1 <= i < |mask|
      ensures mask[i] <==> i in shifted
    {
      assert mask[1..][i - 1] == mask[i];
      if mask[i] {
        var k :| 0 <= k < |rest| && rest[k] == i - 1;
        assert shifted[k] == i;
      }
      if i in shifted {
        var k :| 0 <= k < |shifted| && shifted[k] == i;
        assert rest[k] == i - 1;
      }
    }
  }

  /** `df[df['norm_salary'].notnull()]`: the rows with a salary, in their original order. */
  function SalaryOnly(rows: seq<Row>): (r: seq<Row>)
    requires HasSalaryColumn(rows)
    ensures |r| <= |rows|
    ensures HasSalaryColumn(r)
  {
    if rows == [] then []
    else
      var rest := SalaryOnly(rows[1..]);
      if rows[0][SalaryColumn] == Null then rest else [rows[0]] + rest
  }

  /**
   * The filter takes exactly the rows at the positions the salary mask
   * sets, in their original order, repeats kept.
   */
  lemma {:induction false} SalaryOnlyTakesMaskedRows(rows: seq<Row>)
    requires HasSalaryColumn(rows)
    ensures |SalaryOnly(rows)| == |SetPositions(SalaryMask(rows))|
    ensures forall k :: 0 <= k < |SalaryOnly(rows)| ==> SalaryOnly(rows)[k] == rows[SetPositions(SalaryMask(rows))[k]]
  {
    if rows != [] {
      var later := rows[1..];
      SalaryOnlyTakesMaskedRows(later);
      SalaryMaskOfLater(rows);
      var mask := SalaryMask(rows);
      var tail := SetPositions(SalaryMask(later));
      SetPositionsStep(mask);
      SelectShifted(rows, SalaryOnly(later), tail, Shift(tail));
      if mask[0] {
        assert SalaryOnly(rows) == [rows[0]] + SalaryOnly(later);
      } else {
        assert SalaryOnly(rows) == SalaryOnly(later);
      }
    }
  }

  lemma SetPositionsStep(mask: seq<bool>)
    requires mask != []
    ensures SetPositions(mask) == if mask[0] then [0] + Shift(SetPositions(mask[1..])) else Shift(SetPositions(mask[1..]))
  {
  }

  lemma SalaryMaskOfLater(rows: seq<Row>)
    requires HasSalaryColumn(rows) && rows != []
    ensures HasSalaryColumn(rows[1..]) && SalaryMask(rows)[1..] == SalaryMask(rows[1..])
  {
  }

  /** Positions into the later rows, moved up by one, select the same rows from the whole. */
  lemma SelectShifted(rows: seq<Row>, picked: seq<Row>, tail: seq<nat>, shifted: seq<nat>)
    requires rows != [] && |picked| == |tail| == |shifted|
    requires forall k :: 0 <= k < |tail| ==> tail[k] < |rows| - 1 && shifted[k] == tail[k] + 1
    requires forall k :: 0 <= k < |picked| ==> picked[k] == rows[1..][tail[k]]
    ensures forall k :: 0 <= k < |picked| ==> picked[k] == rows[shifted[k]]
  {
  }

  /** pandas can average the column: every salary present is a number. */
  predicate NumericSalaries(rows: seq<Row>)
    requires HasSalaryColumn(rows)
  {
    forall i :: 0 <= i < |rows| ==> rows[i][SalaryColumn].Null? || rows[i][SalaryColumn].Int?
  }

  /** The sum of the salaries present (missing ones contribute nothing). */
  function SalarySum(rows: seq<Row>): int
    requires HasSalaryColumn(rows)
  {
    if rows == [] then 0
    else (if rows[0][SalaryColumn].Int? then rows[0][SalaryColumn].number else 0) + SalarySum(rows[1..])
  }

  /**
   * The counting and averaging of `make_jobs_stats_row`. A missing
   * `norm_salary` column raises KeyError and a non-numeric salary makes
   * `mean()` raise; the mean of no salaries is NaN, here None.
   */
  function MakeJobsStats(df: Frame): (r: Result<Stats, Error>)
    requires WellFormed(df)
    ensures SalaryColumn in df.columns ==> HasSalaryColumn(df.rows)
    ensures r.Failure? <==> SalaryColumn !in df.columns || !NumericSalaries(df.rows)
    ensures r.Success? ==>
      && r.value.numResults == |df.rows|
      && r.value.numWithSalary == |SalaryOnly(df.rows)| == |SetPositions(SalaryMask(df.rows))|
      && r.value.numWithSalary <= r.value.numResults
      && (r.value.averageSalary.Some? <==> r.value.numWithSalary > 0)
      && r.value.averageSalary == Mean(SalarySum(df.rows), r.value.numWithSalary)
  {
    if SalaryColumn !in df.columns then Failure(MissingColumns([SalaryColumn]))
    else
      SalaryColumnInRows(df);
      if !NumericSalaries(df.rows) then Failure(NotNumeric(SalaryColumn))
      else
        var salaried := SalaryOnly(df.rows);
        SalaryOnlyTakesMaskedRows(df.rows);
        Success(Stats(|df.rows|, |salaried|, Mean(SalarySum(df.rows), |salaried|)))
  }

  lemma SalaryColumnInRows(df: Frame)
    requires WellFormed(df) && SalaryColumn in df.columns
    ensures HasSalaryColumn(df.rows)
  {
  }

  /** The mean of `n` values summing to `sum`; None (pandas' NaN) for no values. */
  function Mean(sum: int, n: nat): (r: Option<real>)
    ensures r.Some? <==> n > 0
    ensures r.Some? ==> r.value * n as real == sum as real
  {
    if n == 0 then None else (MeanTimesCount(sum, n); Some(sum as real / n as real))
  }

  lemma MeanTimesCount(sum: int, n: nat)
    requires n > 0
    ensures (sum as real / n as real) * n as real == sum as real
  {
  }

  lemma MeanBetween(sum: int, n: nat, lo: int, hi: int)
    requires n > 0 && lo * n <= sum <= hi * n
    ensures lo as real <= sum as real / n as real <= hi as real
  {
  }

  /** Summing only the rows with a salary gives the same sum: the mean is over that subset. */
  lemma {:induction false} SalarySumOfSalaryOnly(rows: seq<Row>)
    requires HasSalaryColumn(rows)
    ensures SalarySum(SalaryOnly(rows)) == SalarySum(rows)
  {
    if rows != [] {
      SalarySumOfSalaryOnly(rows[1..]);
      var rest := SalaryOnly(rows[1..]);
      if rows[0][SalaryColumn] != Null {
        assert ([rows[0]] + rest)[1..] == rest;
      }
    }
  }

  /** Bounds on the salaries bound their sum. */
  lemma {:induction false} SalarySumBounds(rows: seq<Row>, lo: int, hi: int)
    requires HasSalaryColumn(rows) && NumericSalaries(rows)
    requires forall i :: 0 <= i < |rows| && rows[i][SalaryColumn].Int? ==> lo <= rows[i][SalaryColumn].number <= hi
    ensures lo * |SalaryOnly(rows)| <= SalarySum(rows) <= hi * |SalaryOnly(rows)|
  {
    if rows != [] {
      var tail := rows[1..];
      assert forall i :: 0 <= i < |tail| ==> tail[i] == rows[i + 1];
      SalarySumBounds(tail, lo, hi);
      var k := |SalaryOnly(tail)|;
      var x := rows[0][SalaryColumn];
      if x.Int? {
        assert |SalaryOnly(rows)| == k + 1 && SalarySum(rows) == x.number + SalarySum(tail);
        MulSucc(lo, k);
        MulSucc(hi, k);
      } else {
        assert |SalaryOnly(rows)| == k && SalarySum(rows) == SalarySum(tail);
      }
    }
  }

  lemma MulSucc(a: int, k: nat)
    ensures a * (k + 1) == a * k + a
  {
  }

  /** The average salary lies between the lowest and the highest salary present. */
  lemma AverageWithinBounds(df: Frame, lo: int, hi: int)
    requires WellFormed(df) && MakeJobsStats(df).Success?
    requires forall i :: 0 <= i < |df.rows| && df.rows[i][SalaryColumn].Int? ==> lo <= df.rows[i][SalaryColumn].number <= hi
    ensures MakeJobsStats(df).value.averageSalary.Some? ==>
      lo as real <= MakeJobsStats(df).value.averageSalary.value <= hi as real
  {
    var s := MakeJobsStats(df).value;
    if s.averageSalary.Some? {
      SalarySumBounds(df.rows, lo, hi);
      MeanBetween(SalarySum(df.rows), s.numWithSalary, lo, hi);
      assert s.averageSalary == Mean(SalarySum(df.rows), s.numWithSalary);
    }
  }

  /** A further row without a salary raises the total and leaves the salary figures alone. */
  lemma {:induction false} RowWithoutSalary(rows: seq<Row>, extra: Row)
    requires HasSalaryColumn(rows) && SalaryColumn in extra && extra[SalaryColumn] == Null
    ensures HasSalaryColumn(rows + [extra])
    ensures SalaryOnly(rows + [extra]) == SalaryOnly(rows)
    ensures SalarySum(rows + [extra]) == SalarySum(rows)
  {
    if rows == [] {
      assert ([extra])[1..] == [];
    } else {
      assert (rows + [extra])[1..] == rows[1..] + [extra];
      RowWithoutSalary(rows[1..], extra);
    }
  }

  /** Three jobs with salaries 1000, none and 2000: 3 results, 2 with salary, average 1500. */
  lemma ThreeJobsExample(df: Frame)
    requires WellFormed(df) && SalaryColumn in df.columns && |df.rows| == 3
    requires df.rows[0][SalaryColumn] == Int(1000) && df.rows[1][SalaryColumn] == Null && df.rows[2][SalaryColumn] == Int(2000)
    ensures MakeJobsStats(df) == Success(Stats(3, 2, Some(1500.0)))
  {
    SalaryColumnInRows(df);
    var rows := df.rows;
    assert rows[1..][1..] == [rows[2]] && [rows[2]][1..] == [];
    assert SalaryOnly([rows[2]]) == [rows[2]] && SalarySum([rows[2]]) == 2000;
    assert SalaryOnly(rows[1..]) == [rows[2]] && SalarySum(rows[1..]) == 2000;
    assert SalaryOnly(rows) == [rows[0], rows[2]] && SalarySum(rows) == 3000;
  }
}
