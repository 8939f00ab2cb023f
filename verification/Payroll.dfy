/**
 * Salary deductions: progressive income tax and social security, each rounded to whole francs.
 * Amounts are exact; rounding is that of section 21.3.2.28 of ECMA-262, halves upwards.
 */
module Payroll {
  import opened Arithmetic

  function Round(x: real): int {
    (x + 0.5).Floor
  }

  /** The tax before rounding, branch by branch. */
  function TaxDue(gross: real): real {
    if gross <= 60000.0 then 0.0
    else if gross <= 100000.0 then (gross - 60000.0) * 0.1
    else if gross <= 200000.0 then 40000.0 * 0.1 + (gross - 100000.0) * 0.2
    else 40000.0 * 0.1 + 100000.0 * 0.2 + (gross - 200000.0) * 0.3
  }

  function CalculatePaye(gross: real): int {
    Round(TaxDue(gross))
  }

  datatype Rssb = Rssb(employeePension: int, employerPension: int, employeeMaternity: int, employerMaternity: int)
  {
    function EmployeeDeduction(): int {
      employeePension + employeeMaternity
    }

    function EmployerContribution(): int {
      employerPension + employerMaternity
    }
  }

  function CalculateRssb(gross: real): Rssb {
    Rssb(Round(gross * 0.03), Round(gross * 0.05), Round(gross * 0.003), Round(gross * 0.003))
  }

  datatype Summary = Summary(payeTax: int, employeeRssb: int, employerRssb: int, totalDeductions: int,
      netTakeHome: real)

  function CalculateSummary(gross: real): Summary {
    var paye := CalculatePaye(gross);
    var rssb := CalculateRssb(gross);
    var total := paye + rssb.EmployeeDeduction();
    Summary(paye, rssb.EmployeeDeduction(), rssb.EmployerContribution(), total, gross - total as real)
  }

  // ---- the tax as a sum of marginal slices ----

  /** The part of the salary between two bounds. */
  function Slice(gross: real, low: real, high: real): real {
    if gross <= low then 0.0 else if gross <= high then gross - low else high - low
  }

  function Above(gross: real, low: real): real {
    if gross <= low then 0.0 else gross - low
  }

  /** Each franc is taxed at the rate of the bracket it falls in. */
  lemma PayeIsMarginal(gross: real)
    ensures CalculatePaye(gross) ==
            Round(0.1 * Slice(gross, 60000.0, 100000.0) + 0.2 * Slice(gross, 100000.0, 200000.0)
                + 0.3 * Above(gross, 200000.0))
  {
    assert TaxDue(gross) ==
           0.1 * Slice(gross, 60000.0, 100000.0) + 0.2 * Slice(gross, 100000.0, 200000.0)
               + 0.3 * Above(gross, 200000.0);
  }

  // ---- the published bracket table ----

  /** One published layer: whole-franc bounds, rate, and the tax of all layers below. */
  datatype Layer = Layer(min: int, max: int, rate: real, base: int)

  const NO_MAX := -1

  const LAYERS: seq<Layer> := [
    Layer(0, 60_000, 0.0, 0), Layer(60_001, 100_000, 0.1, 0),
    Layer(100_001, 200_000, 0.2, 4_000), Layer(200_001, NO_MAX, 0.3, 24_000)]

  predicate Falls(gross: int, l: Layer) {
    l.min <= gross && (l.max == NO_MAX || gross <= l.max)
  }

  /** What the table says: the base of the layer plus its rate on what exceeds the layer below. */
  function TableTax(gross: int, l: Layer): real {
    l.base as real + (gross as real - (if l.min == 0 then 0 else l.min - 1) as real) * l.rate
  }

  /** Every whole salary falls in exactly one published layer, and that layer gives the tax that is charged. */
  lemma TableAgrees(gross: int, i: nat)
    requires gross >= 0 && i < |LAYERS|
    ensures exists j :: 0 <= j < |LAYERS| && Falls(gross, LAYERS[j])
    ensures Falls(gross, LAYERS[i]) ==> CalculatePaye(gross as real) == Round(TableTax(gross, LAYERS[i]))
    ensures forall j :: 0 <= j < |LAYERS| && Falls(gross, LAYERS[i]) && Falls(gross, LAYERS[j]) ==> i == j
  {
    var k := if gross <= 60_000 then 0 else if gross <= 100_000 then 1 else if gross <= 200_000 then 2 else 3;
    assert Falls(gross, LAYERS[k]);
    assert i == 0 || i == 1 || i == 2 || i == 3;
    if Falls(gross, LAYERS[i]) {
      assert TableTax(gross, LAYERS[i]) == TaxDue(gross as real);
    }
  }

  /**
   * The summary adds up: net and deductions give the gross back, the deductions are the tax on each slice and 3 and
   * 0.3 per cent, each rounded by itself, and the employer adds 5 and 0.3 per cent on top.
   */
  lemma SummaryAddsUp(gross: real)
    ensures var s := CalculateSummary(gross);
            && s.netTakeHome + s.totalDeductions as real == gross
            && s.totalDeductions == s.payeTax + s.employeeRssb
            && s.payeTax == Round(0.1 * Slice(gross, 60000.0, 100000.0) + 0.2 * Slice(gross, 100000.0, 200000.0)
                                  + 0.3 * Above(gross, 200000.0))
            && SumOfNearest(s.employeeRssb, gross * 3.0 / 100.0, gross * 3.0 / 1000.0)
            && SumOfNearest(s.employerRssb, gross * 5.0 / 100.0, gross * 3.0 / 1000.0)
  {
    PayeIsMarginal(gross);
    hide CalculatePaye;
    NearestIsRound(gross * 0.03);
    NearestIsRound(gross * 0.05);
    NearestIsRound(gross * 0.003);
    hide Round;
  }

  /** The total of two amounts that are rounded each by itself. */
  ghost predicate SumOfNearest(total: int, x: real, y: real) {
    exists m: int, n: int :: Nearest(m, x) && Nearest(n, y) && total == m + n
  }

  /** The whole number nearest to x, the larger one if two are. */
  predicate Nearest(n: int, x: real) {
    -0.5 < n as real - x <= 0.5
  }

  lemma NearestIsRound(x: real)
    ensures Nearest(Round(x), x) && forall n: int :: Nearest(n, x) ==> n == Round(x)
  {
  }

  // ---- bounds ----

  lemma RoundFacts(x: real, y: real)
    ensures x - 0.5 < Round(x) as real <= x + 0.5
    ensures x <= y ==> Round(x) <= Round(y)
    ensures (Round(y) - Round(x)) as real < y - x + 1.0
  {
  }

  lemma TaxRate(low: real, high: real)
    requires low <= high
    ensures 0.0 <= TaxDue(high) - TaxDue(low) <= 0.3 * (high - low)
  {
  }

  /** A higher salary never owes less tax. */
  lemma PayeMonotone(low: real, high: real)
    requires low <= high
    ensures CalculatePaye(low) <= CalculatePaye(high)
  {
    TaxRate(low, high);
    RoundFacts(TaxDue(low), TaxDue(high));
  }

  /** The three roundings together move the deductions by at most one and a half francs. */
  lemma DeductionsNearExact(gross: real)
    ensures var exact := TaxDue(gross) + 0.033 * gross; var total := CalculateSummary(gross).totalDeductions as real;
            exact - 1.5 < total <= exact + 1.5
  {
    RoundFacts(TaxDue(gross), 0.0);
    RoundFacts(gross * 0.03, 0.0);
    RoundFacts(gross * 0.003, 0.0);
  }

  /** Nobody takes home less than nothing. */
  lemma NetNeverNegative(gross: real)
    requires gross >= 0.0
    ensures CalculateSummary(gross).netTakeHome >= 0.0
  {
    DeductionsNearExact(gross);
    TaxRate(0.0, gross);
    if gross < 3.0 {
      assert Round(gross * 0.03) == 0 && Round(gross * 0.003) == 0;
    }
  }

  /** Where a rounded percentage steps up, in thirds of a franc. */
  lemma StepsAt(low: real, high: real)
    requires low <= high <= low + 5.0
    ensures Round(low * 0.03) <= Round(high * 0.03) <= Round(low * 0.03) + 1
    ensures Round(low * 0.003) <= Round(high * 0.003) <= Round(low * 0.003) + 1
    ensures Round(high * 0.03) > Round(low * 0.03) ==> 3.0 * low < (100 * Round(low * 0.03) + 50) as real <= 3.0 * high
    ensures Round(high * 0.003) > Round(low * 0.003) ==>
            3.0 * low < (1000 * Round(low * 0.003) + 500) as real <= 3.0 * high
  {
  }

  /** Pension and maternity never both step up within five francs. */
  lemma RssbStepsOnce(low: real, high: real)
    requires low <= high <= low + 5.0
    ensures Round(high * 0.03) + Round(high * 0.003) <= Round(low * 0.03) + Round(low * 0.003) + 1
  {
    StepsAt(low, high);
    var m, n := Round(low * 0.03), Round(low * 0.003);
    hide Round;
    assert -15 < (100 * m + 50) - (1000 * n + 500) < 15 ==> false by {
      var k := m - 10 * n;
      assert (100 * m + 50) - (1000 * n + 500) == 100 * k - 450;
    }
  }

  /** A raise of more than two francs always shows in the net salary, fractions of a franc included. */
  lemma RaiseShows(low: real, high: real)
    requires high > low + 2.0
    ensures CalculateSummary(high).netTakeHome > CalculateSummary(low).netTakeHome
  {
    TaxRate(low, high);
    RoundFacts(TaxDue(low), TaxDue(high));
    if high <= low + 5.0 {
      RssbStepsOnce(low, high);
    } else {
      RoundFacts(low * 0.03, high * 0.03);
      RoundFacts(low * 0.003, high * 0.003);
    }
    hide Round, TaxDue;
  }

  /** A smaller raise, where it meets two roundings, can even lower the net salary. */
  lemma SmallRaiseMayCost()
    ensures CalculateSummary(60085.0).netTakeHome < CalculateSummary(60083.3).netTakeHome
  {
    assert CalculatePaye(60085.0) == 9 && CalculatePaye(60083.3) == 8;
    assert Round(60085.0 * 0.03) == 1803 && Round(60083.3 * 0.03) == 1802;
    assert Round(60085.0 * 0.003) == 180 && Round(60083.3 * 0.003) == 180;
  }

  // ---- whole-franc salaries ----

  function Net(gross: int): int {
    gross - CalculateSummary(gross as real).totalDeductions
  }

  /** Rounding a fraction in whole numbers. */
  lemma RoundFraction(n: int, d: nat)
    requires d == 10 || d == 100 || d == 1000
    ensures Round(n as real / d as real) == (n + d / 2) / d
  {
    var q := (n + d / 2) / d;
    if d == 10 {
      assert q as real <= n as real / 10.0 + 0.5 < q as real + 1.0;
    } else if d == 100 {
      assert q as real <= n as real / 100.0 + 0.5 < q as real + 1.0;
    } else {
      assert q as real <= n as real / 1000.0 + 0.5 < q as real + 1.0;
    }
  }

  function PayeInFrancs(g: int): int {
    if g <= 60000 then 0
    else if g <= 100000 then (g - 60000 + 5) / 10
    else if g <= 200000 then 4000 + (2 * (g - 100000) + 5) / 10
    else 24000 + (3 * (g - 200000) + 5) / 10
  }

  function RssbInFrancs(g: int): int {
    (3 * g + 50) / 100 + (3 * g + 500) / 1000
  }

  lemma PayeIsPayeInFrancs(g: int)
    ensures CalculatePaye(g as real) == PayeInFrancs(g)
  {
    hide Round;
    var x := g as real;
    if g <= 60000 {
      RoundFraction(0, 10);
    } else if g <= 100000 {
      RoundFraction(g - 60000, 10);
      assert TaxDue(x) == (g - 60000) as real / 10.0;
    } else if g <= 200000 {
      RoundFraction(40000 + 2 * (g - 100000), 10);
      assert TaxDue(x) == (40000 + 2 * (g - 100000)) as real / 10.0;
    } else {
      RoundFraction(240000 + 3 * (g - 200000), 10);
      assert TaxDue(x) == (240000 + 3 * (g - 200000)) as real / 10.0;
    }
  }

  lemma RssbIsRssbInFrancs(g: int)
    ensures CalculateRssb(g as real).EmployeeDeduction() == RssbInFrancs(g)
  {
    hide Round;
    RoundFraction(3 * g, 100);
    RoundFraction(3 * g, 1000);
    assert g as real * 0.03 == (3 * g) as real / 100.0;
    assert g as real * 0.003 == (3 * g) as real / 1000.0;
  }

  /** The net salary in whole-number arithmetic. */
  lemma NetInFrancs(g: int)
    ensures Net(g) == g - PayeInFrancs(g) - RssbInFrancs(g)
  {
    hide Round, TaxDue, PayeInFrancs, RssbInFrancs, CalculatePaye;
    PayeIsPayeInFrancs(g);
    RssbIsRssbInFrancs(g);
  }

  /** The pension and the maternity rounding never step up within the same three francs. */
  lemma RssbSteps(g: int, k: nat)
    requires k <= 3
    ensures RssbInFrancs(g) <= RssbInFrancs(g + k) <= RssbInFrancs(g) + 1
    ensures k == 1 && RssbInFrancs(g + 1) == RssbInFrancs(g) + 1 ==> (3 * g) % 10 >= 7
  {
    Carry(3 * g + 50, 3 * k, 100);
    Carry(3 * g + 500, 3 * k, 1000);
    NotBoth(3 * g, 3 * k);
  }

  lemma NotBoth(n: int, j: nat)
    requires j <= 9
    ensures (n + 500) % 1000 + j < 1000 || (n + 50) % 100 + j < 100
    ensures (n + 500) % 1000 + 3 >= 1000 || (n + 50) % 100 + 3 >= 100 ==> n % 10 >= 7
  {
    LastDigits(n);
  }

  lemma LastDigits(n: int)
    ensures var t := n % 1000;
            && (n + 500) % 1000 == (if t < 500 then t + 500 else t - 500)
            && (n + 50) % 100 == (if n % 100 < 50 then n % 100 + 50 else n % 100 - 50)
            && n % 100 == t % 100 && n % 10 == t % 10 && t % 10 == (t % 100) % 10
  {
    var q, t := n / 1000, n % 1000;
    var h, u := t / 100, t % 100;
    DivUnique(n + 500, 1000, if t < 500 then q else q + 1, if t < 500 then t + 500 else t - 500);
    DivUnique(n, 100, 10 * q + h, u);
    DivUnique(n + 50, 100, if u < 50 then 10 * q + h else 10 * q + h + 1, if u < 50 then u + 50 else u - 50);
    DivUnique(n, 10, 100 * q + 10 * h + u / 10, u % 10);
    DivUnique(t, 10, 10 * h + u / 10, u % 10);
  }

  /** One bracket's rounded tax, for a rate of k tenths. */
  function Tenths(x: int, k: nat): int {
    (k * x + 5) / 10
  }

  lemma TenthsSteps(x: int, k: nat)
    requires 1 <= k <= 3
    ensures Tenths(x, k) <= Tenths(x + 1, k) <= Tenths(x, k) + 1
    ensures Tenths(x + 3, k) <= Tenths(x, k) + 1
    ensures Tenths(x + 1, k) == Tenths(x, k) + 1 ==> (3 * x) % 10 < 7
  {
    Carry(k * x + 5, k, 10);
    Carry(k * x + 5, 3 * k, 10);
    StepDigit(x, k);
  }

  /** Where a bracket's rounded tax can step up, the pension's cannot. */
  lemma StepDigit(x: int, k: nat)
    requires 1 <= k <= 3
    ensures (k * x + 5) % 10 + k >= 10 ==> (3 * x) % 10 < 7
  {
    var q, r := x / 10, x % 10;
    DivUnique(3 * x, 10, 3 * q + 3 * r / 10, 3 * r % 10);
    if k == 1 {
      DivUnique(x + 5, 10, q + (r + 5) / 10, (r + 5) % 10);
    } else if k == 2 {
      DivUnique(2 * x + 5, 10, 2 * q + (2 * r + 5) / 10, (2 * r + 5) % 10);
    } else {
      DivUnique(3 * x + 5, 10, 3 * q + (3 * r + 5) / 10, (3 * r + 5) % 10);
    }
  }

  /** The tax as a rounded line: the line of the bracket that starts at or below g. */
  lemma PayeByBracket(g: int)
    ensures g <= 60000 ==> PayeInFrancs(g) == 0
    ensures 60000 <= g <= 100000 ==> PayeInFrancs(g) == Tenths(g - 60000, 1)
    ensures 100000 <= g <= 200000 ==> PayeInFrancs(g) == 4000 + Tenths(g - 100000, 2)
    ensures 200000 <= g ==> PayeInFrancs(g) == 24000 + Tenths(g - 200000, 3)
  {
  }

  lemma SameLastDigit(n: int, m: int)
    ensures (n + 10 * m) % 10 == n % 10
  {
    DivUnique(n + 10 * m, 10, n / 10 + m, n % 10);
  }

  lemma BracketStep(g: int, c: int, k: nat)
    requires 1 <= k <= 3 && (c == 60000 || c == 100000 || c == 200000)
    ensures Tenths(g - c, k) <= Tenths(g + 1 - c, k) <= Tenths(g - c, k) + 1
    ensures Tenths(g + 3 - c, k) <= Tenths(g - c, k) + 1
    ensures Tenths(g + 1 - c, k) == Tenths(g - c, k) + 1 ==> (3 * g) % 10 < 7
  {
    hide Tenths;
    TenthsSteps(g - c, k);
    SameLastDigit(3 * (g - c), if c == 60000 then 18000 else if c == 100000 then 30000 else 60000);
  }

  lemma PayeSteps(g: int)
    ensures PayeInFrancs(g) <= PayeInFrancs(g + 1) <= PayeInFrancs(g) + 1
    ensures PayeInFrancs(g + 3) <= PayeInFrancs(g) + 1
    ensures PayeInFrancs(g + 1) == PayeInFrancs(g) + 1 ==> (3 * g) % 10 < 7
  {
    PayeByBracket(g);
    PayeByBracket(g + 1);
    PayeByBracket(g + 3);
    BracketStep(g, 60000, 1);
    BracketStep(g, 100000, 2);
    BracketStep(g, 200000, 3);
    Corners();
    hide PayeInFrancs, Tenths;
  }

  /** The three salaries below each bracket bound. */
  lemma Corners()
    ensures forall g :: (59998 <= g <= 60000 || 99998 <= g <= 100000 || 199998 <= g <= 200000) ==>
              PayeInFrancs(g + 3) <= PayeInFrancs(g) + 1
  {
  }

  /** One franc more never lowers the net, and three always raise it: the roundings never all fall together. */
  lemma FrancByFranc(g: int)
    ensures Net(g + 1) >= Net(g) && Net(g + 3) > Net(g)
  {
    hide PayeInFrancs, RssbInFrancs, Net;
    NetInFrancs(g);
    NetInFrancs(g + 1);
    NetInFrancs(g + 3);
    RssbSteps(g, 1);
    RssbSteps(g, 3);
    PayeSteps(g);
  }

  /** For whole-franc salaries more gross is never less net, and a raise of three francs always shows. */
  lemma {:induction false} WholeRaises(low: int, high: int)
    requires low <= high
    ensures Net(low) <= Net(high)
    ensures high >= low + 3 ==> Net(low) < Net(high)
    decreases high - low
  {
    if low < high {
      FrancByFranc(high - 1);
      WholeRaises(low, high - 1);
      FrancByFranc(low);
    }
  }

  /** Two francs are not always enough. */
  lemma TwoFrancsMayVanish()
    ensures Net(60_085) == Net(60_083)
  {
    NetInFrancs(60_083);
    NetInFrancs(60_085);
  }
}
