/** One investment scenario's parameters, the checks made when a scenario is
    constructed, and the curve `SubPlot.draw_plot` computes from them: the
    ages `age_started, …, max_age - 1` paired with the future value of the
    initial sum plus the future value of the yearly contributions, compounded
    once a year. Floating point is idealised as exact `real` arithmetic. */
module Curve {
  import opened Wrappers

  /** The five parameters of a scenario, in the order the panel shows them. */
  datatype Params = Params(
    initial: real,       // initial_investment
    yearly: real,        // yearly_investment
    annualReturn: real,  // annual_return, a fraction (0.08 is 8 %)
    ageStarted: int,     // age_started
    maxAge: int          // max_age, excluded from the plotted range
  )

  /** The parameters a new scenario gets when none are given. */
  const Default := Params(5000.0, 0.0, 0.08, 22, 67)

  /** The four assertions of the constructor, in the order they are made. */
  datatype Violation =
    | ReturnOutOfRange   // not 0 < annual_return < 1
    | EmptyAgeRange      // not age_started < max_age
    | NegativeInitial    // initial_investment < 0
    | NegativeYearly     // yearly_investment < 0

  /** The first constructor assertion that `p` fails, if any. */
  function Validate(p: Params): (o: Option<Violation>)
    ensures o.None? <==>
      0.0 < p.annualReturn < 1.0 && p.ageStarted < p.maxAge &&
      p.initial >= 0.0 && p.yearly >= 0.0
    ensures o == Some(ReturnOutOfRange) ==> !(0.0 < p.annualReturn < 1.0)
    ensures o == Some(EmptyAgeRange) ==>
      0.0 < p.annualReturn < 1.0 && p.ageStarted >= p.maxAge
    ensures o == Some(NegativeInitial) ==>
      0.0 < p.annualReturn < 1.0 && p.ageStarted < p.maxAge && p.initial < 0.0
    ensures o == Some(NegativeYearly) ==>
      0.0 < p.annualReturn < 1.0 && p.ageStarted < p.maxAge &&
      p.initial >= 0.0 && p.yearly < 0.0
  {
    if !(0.0 < p.annualReturn < 1.0) then Some(ReturnOutOfRange)
    else if !(p.ageStarted < p.maxAge) then Some(EmptyAgeRange)
    else if !(p.initial >= 0.0) then Some(NegativeInitial)
    else if !(p.yearly >= 0.0) then Some(NegativeYearly)
    else None
  }

  /** Each of the four conditions, failing on its own, is enough for the
      constructor to reject the parameters. */
  lemma EachConditionRejects(p: Params)
    ensures !(0.0 < p.annualReturn < 1.0) ==> Validate(p) == Some(ReturnOutOfRange)
    ensures p.ageStarted >= p.maxAge ==> Validate(p).Some?
    ensures p.initial < 0.0 ==> Validate(p).Some?
    ensures p.yearly < 0.0 ==> Validate(p).Some?
  {
  }

  /** `b ** k` for a natural exponent. */
  function Pow(b: real, k: nat): real {
    if k == 0 then 1.0 else b * Pow(b, k - 1)
  }

  lemma {:induction false} PowPositive(b: real, k: nat)
    requires b > 0.0
    ensures Pow(b, k) > 0.0
  {
    if k > 0 {
      PowPositive(b, k - 1);
      assert b * Pow(b, k - 1) > 0.0;
    }
  }

  /** The value `years` years after the start: the initial sum compounded,
      plus the yearly contributions (paid at each year's end) compounded. */
  function ValueAfter(p: Params, years: nat): real
    requires p.annualReturn != 0.0
  {
    p.initial * Pow(1.0 + p.annualReturn, years) +
    p.yearly * ((Pow(1.0 + p.annualReturn, years) - 1.0) / p.annualReturn)
  }

  /** At the start the value is the initial sum: the annuity term is
      `(1 - 1) / r = 0`. */
  lemma ValueAtStart(p: Params)
    requires p.annualReturn != 0.0
    ensures ValueAfter(p, 0) == p.initial
  {
    assert Pow(1.0 + p.annualReturn, 0) == 1.0;
  }

  /** One more year adds the interest on the current sum, in closed form:
      `(1+r)^k * (P0*r + C)`. */
  lemma ValueStep(p: Params, k: nat)
    requires p.annualReturn != 0.0
    ensures ValueAfter(p, k + 1) ==
      ValueAfter(p, k) + Pow(1.0 + p.annualReturn, k) * (p.initial * p.annualReturn + p.yearly)
  {
    var r, b := p.annualReturn, Pow(1.0 + p.annualReturn, k);
    assert Pow(1.0 + r, k + 1) == (1.0 + r) * b;
    assert ((1.0 + r) * b - 1.0) / r == (b - 1.0) / r + b by {
      assert (1.0 + r) * b - 1.0 == (b - 1.0) + r * b;
      assert (r * b) / r == b;
    }
  }

  /** Money goes in: an initial sum or a yearly contribution is positive. */
  predicate Invests(p: Params) {
    p.initial > 0.0 || p.yearly > 0.0
  }

  /** Under the constructor's invariants the value grows from one year to the
      next when money goes in, and stays put when it does not. */
  lemma ValueGrows(p: Params, k: nat)
    requires Validate(p).None?
    ensures Invests(p) ==> ValueAfter(p, k) < ValueAfter(p, k + 1)
    ensures !Invests(p) ==> ValueAfter(p, k) == ValueAfter(p, k + 1)
  {
    var r, b := p.annualReturn, Pow(1.0 + p.annualReturn, k);
    ValueStep(p, k);
    PowPositive(1.0 + r, k);
    var gain := p.initial * r + p.yearly;
    if Invests(p) {
      assert gain > 0.0 by {
        if p.initial > 0.0 { assert p.initial * r > 0.0; }
      }
      assert b * gain > 0.0;
    } else {
      assert gain == 0.0;
    }
  }

  /** Python's `range(lo, hi)`: the integers from `lo` up to `hi - 1`. */
  function Range(lo: int, hi: int): (xs: seq<int>)
    decreases hi - lo
    ensures |xs| == if lo < hi then hi - lo else 0
    ensures forall i :: 0 <= i < |xs| ==> xs[i] == lo + i
  {
    if lo >= hi then [] else [lo] + Range(lo + 1, hi)
  }

  /** The y values, one per age: the value that many years after the start.
      A non-empty age list needs a non-zero return, since the annuity term
      divides by it. */
  function Values(p: Params, ages: seq<int>): seq<real>
    requires forall i :: 0 <= i < |ages| ==> ages[i] >= p.ageStarted
    requires ages != [] ==> p.annualReturn != 0.0
  {
    seq(|ages|, i requires 0 <= i < |ages| => ValueAfter(p, ages[i] - p.ageStarted))
  }

  /** One plotted curve: x values (ages) and y values (investment value). */
  datatype Series = Series(ages: seq<int>, values: seq<real>)

  /** `draw_plot`'s computation. `None` stands for the `ZeroDivisionError`
      the annuity term raises when the return is zero and there is at least
      one age to evaluate. */
  function Draw(p: Params): (d: Option<Series>)
    ensures d.Some? <==> p.annualReturn != 0.0 || p.maxAge <= p.ageStarted
  {
    if p.annualReturn == 0.0 && p.ageStarted < p.maxAge then None
    else
      var ages := Range(p.ageStarted, p.maxAge);
      Some(Series(ages, Values(p, ages)))
  }

  /** A drawn series has one point per age of `[age_started, max_age)`: the
      i-th point is the age `age_started + i` with the value `i` years after
      the start. */
  lemma DrawnPoints(p: Params)
    requires Draw(p).Some?
    ensures |Draw(p).value.ages| == |Draw(p).value.values| ==
      (if p.ageStarted < p.maxAge then p.maxAge - p.ageStarted else 0)
    ensures forall i :: 0 <= i < |Draw(p).value.ages| ==>
      Draw(p).value.ages[i] == p.ageStarted + i &&
      Draw(p).value.values[i] == ValueAfter(p, i)
  {
  }

  /** The series of a scenario that passed the constructor's checks: it
      exists, has `max_age - age_started` points, starts at `age_started`
      with the initial sum, and never decreases — strictly increasing exactly
      when the initial sum or the contribution is positive. */
  lemma ValidSeries(p: Params)
    requires Validate(p).None?
    ensures Draw(p).Some?
    ensures |Draw(p).value.ages| == p.maxAge - p.ageStarted
    ensures Draw(p).value.ages[0] == p.ageStarted
    ensures Draw(p).value.values[0] == p.initial
    ensures forall i :: 0 <= i < |Draw(p).value.values| - 1 ==>
      Draw(p).value.values[i] <= Draw(p).value.values[i + 1]
    ensures forall i :: 0 <= i < |Draw(p).value.values| - 1 ==>
      (Draw(p).value.values[i] < Draw(p).value.values[i + 1] <==> Invests(p))
  {
    DrawnPoints(p);
    ValueAtStart(p);
    var ys := Draw(p).value.values;
    if Invests(p) {
      forall i | 0 <= i < |ys| - 1
        ensures ys[i] < ys[i + 1]
      {
        ValueGrows(p, i);
      }
    } else {
      forall i | 0 <= i < |ys| - 1
        ensures ys[i] == ys[i + 1]
      {
        ValueGrows(p, i);
      }
    }
  }

  /** Whatever the parameters, the first point of a non-empty series is the
      initial sum at the starting age. */
  lemma FirstPoint(p: Params)
    requires Draw(p).Some? && p.ageStarted < p.maxAge
    ensures Draw(p).value.ages[0] == p.ageStarted
    ensures Draw(p).value.values[0] == p.initial
  {
    DrawnPoints(p);
    ValueAtStart(p);
  }

  /** The default scenario: 45 points from age 22 to 66, starting at 5000. */
  lemma DefaultSeries()
    ensures Validate(Default).None?
    ensures Draw(Default).Some?
    ensures |Draw(Default).value.ages| == 45
    ensures Draw(Default).value.ages[0] == 22 && Draw(Default).value.ages[44] == 66
    ensures Draw(Default).value.values[0] == 5000.0
  {
    ValidSeries(Default);
  }

  /** After one year at 8 % the default scenario is worth 5400. */
  lemma DefaultSecondYear()
    ensures ValueAfter(Default, 1) == 5400.0
  {
    assert Pow(1.08, 1) == 1.08;
  }

  /** A one-year span with contributions: a single point whose value is the
      initial sum, because the annuity term contributes nothing at the start. */
  lemma SingleYearSeries()
    ensures Validate(Params(1000.0, 500.0, 0.05, 30, 31)).None?
    ensures Draw(Params(1000.0, 500.0, 0.05, 30, 31)) == Some(Series([30], [1000.0]))
  {
    var p := Params(1000.0, 500.0, 0.05, 30, 31);
    DrawnPoints(p);
    ValueAtStart(p);
    var d := Draw(p).value;
    assert d.ages == [30];
    assert d.values == [1000.0];
  }
}
