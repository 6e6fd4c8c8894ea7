/**
 The income projection of the inflation calculator: for each calendar year from
 a start year to an end year, the yearly income now and the yearly income the
 same monthly amount becomes after compounding a flat annual inflation rate,
 both rounded to a whole currency unit.
 */
module IncomeProjection {
  import opened JsMath

  /** One row of the projection: the year, its nominal yearly income
      ("Current Income") and its inflation-adjusted yearly income
      ("Inflation-Adjusted Income"). */
  datatype YearRecord = YearRecord(year: int, currentIncome: int, adjustedIncome: int)

  /** The number of loop rounds, `endYear - startYear + 1`, or none when that is not positive. */
  function YearCount(startYear: int, endYear: int): nat
  {
    if endYear - startYear + 1 > 0 then endYear - startYear + 1 else 0
  }

  /** The compounding factor after `offset` years at `inflationRate` percent a year. */
  function Multiplier(inflationRate: real, offset: nat): real
  {
    Pow(1.0 + inflationRate / 100.0, offset)
  }

  /** The unrounded yearly income `offset` years after the start. */
  function AdjustedYearlyIncome(monthlyIncome: real, inflationRate: real, offset: nat): real
  {
    (monthlyIncome * Multiplier(inflationRate, offset)) * 12.0
  }

  /** The row the routine builds in round `offset`. */
  function RecordAt(startYear: int, inflationRate: real, monthlyIncome: real, offset: nat): YearRecord
  {
    YearRecord(
      startYear + offset,
      Round(monthlyIncome * 12.0),
      Round(AdjustedYearlyIncome(monthlyIncome, inflationRate, offset)))
  }

  /** The whole projection as a value: one row per round of the loop, in order. */
  function Projection(startYear: int, endYear: int, inflationRate: real, monthlyIncome: real): seq<YearRecord>
  {
    seq(YearCount(startYear, endYear), i requires 0 <= i => RecordAt(startYear, inflationRate, monthlyIncome, i))
  }

  /** The routine itself: a counted loop that appends one row per year. */
  method CalculateAdjustedIncome(startYear: int, endYear: int, inflationRate: real, monthlyIncome: real)
    returns (data: seq<YearRecord>)
    ensures data == Projection(startYear, endYear, inflationRate, monthlyIncome)
  {
    var years := endYear - startYear + 1;
    data := [];
    var i: nat := 0;
    while i < years
      invariant i <= YearCount(startYear, endYear)
      invariant |data| == i
      invariant forall k :: 0 <= k < i ==> data[k] == RecordAt(startYear, inflationRate, monthlyIncome, k)
    {
      var year := startYear + i;
      var inflationMultiplier := Pow(1.0 + inflationRate / 100.0, i);
      var adjustedMonthlyIncome := monthlyIncome * inflationMultiplier;
      var currentYearlyIncome := monthlyIncome * 12.0;
      var adjustedYearlyIncome := adjustedMonthlyIncome * 12.0;
      data := data + [YearRecord(year, Round(currentYearlyIncome), Round(adjustedYearlyIncome))];
      i := i + 1;
    }
  }

  // Properties of the projection

  /** The projection has `max(0, endYear - startYear + 1)` rows, and none exactly when the end precedes the start. */
  lemma ProjectionLength(startYear: int, endYear: int, inflationRate: real, monthlyIncome: real)
    ensures var p := Projection(startYear, endYear, inflationRate, monthlyIncome);
      |p| == (if endYear - startYear + 1 > 0 then endYear - startYear + 1 else 0)
      && (p == [] <==> endYear < startYear)
  {
  }

  /** Row `i` is for year `startYear + i`: the years ascend by exactly one, without gaps or repeats. */
  lemma ProjectionYears(startYear: int, endYear: int, inflationRate: real, monthlyIncome: real)
    ensures var p := Projection(startYear, endYear, inflationRate, monthlyIncome);
      (forall i :: 0 <= i < |p| ==> p[i].year == startYear + i)
      && (forall i :: 0 <= i < |p| - 1 ==> p[i + 1].year == p[i].year + 1)
      && (forall i, j :: 0 <= i < j < |p| ==> p[i].year < p[j].year)
      && (|p| > 0 ==> p[|p| - 1].year == endYear)
  {
  }

  /** Every row carries the same nominal income, `round(monthlyIncome * 12)`. */
  lemma ProjectionCurrentIncome(startYear: int, endYear: int, inflationRate: real, monthlyIncome: real)
    ensures var p := Projection(startYear, endYear, inflationRate, monthlyIncome);
      forall i :: 0 <= i < |p| ==> p[i].currentIncome == Round(monthlyIncome * 12.0)
  {
  }

  /** Row `i` carries `round(monthlyIncome * (1 + inflationRate/100)^i * 12)`. */
  lemma ProjectionAdjustedIncome(startYear: int, endYear: int, inflationRate: real, monthlyIncome: real, i: nat)
    requires i < YearCount(startYear, endYear)
    ensures Projection(startYear, endYear, inflationRate, monthlyIncome)[i].adjustedIncome
      == Round(monthlyIncome * Pow(1.0 + inflationRate / 100.0, i) * 12.0)
  {
    assert AdjustedYearlyIncome(monthlyIncome, inflationRate, i)
      == monthlyIncome * Pow(1.0 + inflationRate / 100.0, i) * 12.0;
  }

  /** In the first row nothing has compounded yet: adjusted and nominal income agree. */
  lemma ProjectionFirstRecord(startYear: int, endYear: int, inflationRate: real, monthlyIncome: real)
    requires startYear <= endYear
    ensures var p := Projection(startYear, endYear, inflationRate, monthlyIncome);
      |p| > 0 && p[0].year == startYear && p[0].adjustedIncome == p[0].currentIncome
  {
  }

  /** With no inflation the adjusted income equals the nominal income in every row. */
  lemma ProjectionZeroRate(startYear: int, endYear: int, monthlyIncome: real)
    ensures var p := Projection(startYear, endYear, 0.0, monthlyIncome);
      forall i :: 0 <= i < |p| ==> p[i].adjustedIncome == p[i].currentIncome
  {
    var p := Projection(startYear, endYear, 0.0, monthlyIncome);
    forall i | 0 <= i < |p|
      ensures p[i].adjustedIncome == p[i].currentIncome
    {
      PowOfOne(i);
    }
  }

  /** At -100% the multiplier is 0 from the second year on, so the adjusted income collapses to 0. */
  lemma ProjectionCollapse(startYear: int, endYear: int, monthlyIncome: real)
    ensures var p := Projection(startYear, endYear, -100.0, monthlyIncome);
      forall i :: 1 <= i < |p| ==> p[i].adjustedIncome == 0
  {
  }

  /** With a positive rate the exact yearly income of a positive monthly income strictly grows. */
  lemma AdjustedYearlyIncomeIncreasing(monthlyIncome: real, inflationRate: real, m: nat, n: nat)
    requires inflationRate > 0.0 && monthlyIncome > 0.0 && m < n
    ensures AdjustedYearlyIncome(monthlyIncome, inflationRate, m) < AdjustedYearlyIncome(monthlyIncome, inflationRate, n)
  {
    PowStrictlyMonotone(1.0 + inflationRate / 100.0, m, n);
    MulStrictlyMonotone(monthlyIncome, Multiplier(inflationRate, m), Multiplier(inflationRate, n));
  }

  /** With a non-negative rate and a non-negative income the adjusted column never decreases. */
  lemma ProjectionNonDecreasing(startYear: int, endYear: int, inflationRate: real, monthlyIncome: real)
    requires inflationRate >= 0.0 && monthlyIncome >= 0.0
    ensures var p := Projection(startYear, endYear, inflationRate, monthlyIncome);
      forall i, j :: 0 <= i <= j < |p| ==> p[i].adjustedIncome <= p[j].adjustedIncome
  {
    var p := Projection(startYear, endYear, inflationRate, monthlyIncome);
    forall i, j | 0 <= i <= j < |p|
      ensures p[i].adjustedIncome <= p[j].adjustedIncome
    {
      PowMonotone(1.0 + inflationRate / 100.0, i, j);
      MulMonotone(monthlyIncome, Multiplier(inflationRate, i), Multiplier(inflationRate, j));
      RoundMonotone(AdjustedYearlyIncome(monthlyIncome, inflationRate, i), AdjustedYearlyIncome(monthlyIncome, inflationRate, j));
    }
  }

  /** With a rate between -100% and 0 and a non-negative income the adjusted column never increases. */
  lemma ProjectionNonIncreasing(startYear: int, endYear: int, inflationRate: real, monthlyIncome: real)
    requires -100.0 <= inflationRate <= 0.0 && monthlyIncome >= 0.0
    ensures var p := Projection(startYear, endYear, inflationRate, monthlyIncome);
      forall i, j :: 0 <= i <= j < |p| ==> p[j].adjustedIncome <= p[i].adjustedIncome
  {
    var p := Projection(startYear, endYear, inflationRate, monthlyIncome);
    forall i, j | 0 <= i <= j < |p|
      ensures p[j].adjustedIncome <= p[i].adjustedIncome
    {
      PowAntitone(1.0 + inflationRate / 100.0, i, j);
      MulMonotone(monthlyIncome, Multiplier(inflationRate, j), Multiplier(inflationRate, i));
      RoundMonotone(AdjustedYearlyIncome(monthlyIncome, inflationRate, j), AdjustedYearlyIncome(monthlyIncome, inflationRate, i));
    }
  }

  /** With a non-negative rate and a non-positive income the adjusted column never increases. */
  lemma ProjectionNegativeIncomeNonIncreasing(startYear: int, endYear: int, inflationRate: real, monthlyIncome: real)
    requires inflationRate >= 0.0 && monthlyIncome <= 0.0
    ensures var p := Projection(startYear, endYear, inflationRate, monthlyIncome);
      forall i, j :: 0 <= i <= j < |p| ==> p[j].adjustedIncome <= p[i].adjustedIncome
  {
    var p := Projection(startYear, endYear, inflationRate, monthlyIncome);
    forall i, j | 0 <= i <= j < |p|
      ensures p[j].adjustedIncome <= p[i].adjustedIncome
    {
      PowMonotone(1.0 + inflationRate / 100.0, i, j);
      MulMonotone(-monthlyIncome, Multiplier(inflationRate, i), Multiplier(inflationRate, j));
      RoundMonotone(AdjustedYearlyIncome(monthlyIncome, inflationRate, j), AdjustedYearlyIncome(monthlyIncome, inflationRate, i));
    }
  }

  // Concrete projections

  /** 2024 to 2026 at 10% on 1000 a month. */
  lemma ExampleTenPercent()
    ensures Projection(2024, 2026, 10.0, 1000.0) ==
      [YearRecord(2024, 12000, 12000), YearRecord(2025, 12000, 13200), YearRecord(2026, 12000, 14520)]
  {
    var p := Projection(2024, 2026, 10.0, 1000.0);
    assert Pow(1.1, 2) == 1.21;
    RoundOfInteger(12000);
    RoundOfInteger(13200);
    RoundOfInteger(14520);
  }

  /** A single year with no income. */
  lemma ExampleZeroIncome()
    ensures Projection(2024, 2024, 5.0, 0.0) == [YearRecord(2024, 0, 0)]
  {
  }

  /** An end year before the start year gives no rows. */
  lemma ExampleEmptyRange()
    ensures Projection(2025, 2024, 2.5, 5000.0) == []
  {
  }

  /** Rounding hides small growth: at 0.001% on 1 a month the second row equals the first. */
  lemma ExampleRoundedNotStrict()
    ensures var p := Projection(2024, 2025, 0.001, 1.0);
      |p| == 2 && p[0].adjustedIncome == 12 && p[1].adjustedIncome == 12
  {
  }

  /** Below -100% the base is negative and the adjusted column alternates in sign. */
  lemma ExampleBelowMinusHundredOscillates()
    ensures var p := Projection(0, 2, -300.0, 1.0);
      |p| == 3 && p[0].adjustedIncome == 12 && p[1].adjustedIncome == -24 && p[2].adjustedIncome == 48
  {
  }

  /** A negative income reverses the direction: at 10% on -1000 a month the adjusted column decreases. */
  lemma ExampleNegativeIncomeDecreases()
    ensures var p := Projection(0, 2, 10.0, -1000.0);
      |p| == 3 && p[0].adjustedIncome == -12000 && p[1].adjustedIncome == -13200 && p[2].adjustedIncome == -14520
  {
    assert Pow(1.1, 2) == 1.21;
    RoundOfInteger(-12000);
    RoundOfInteger(-13200);
    RoundOfInteger(-14520);
  }
}
