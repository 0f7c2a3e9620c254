/** The cascading Brazilian import-tax engine: II (import duty) on the CIF value, IPI on CIF + II,
    PIS and COFINS on CIF + II + IPI, and ICMS grossed up "por dentro" over everything before it.
    Decimal amounts are exact reals; nothing is rounded, and negative inputs are not rejected. */
module TaxCalculator {
  import opened Wrappers

  const DefaultIiRate: real := 0.15
  const DefaultIpiRate: real := 0.10
  const DefaultPisRate: real := 0.0165
  const DefaultCofinsRate: real := 0.076
  const DefaultIcmsRate: real := 0.18

  /** The five instance rates of a calculator. */
  datatype Rates = Rates(ii: real, ipi: real, pis: real, cofins: real, icms: real)

  /** A freshly constructed calculator carries the default rates. */
  const Default: Rates := Rates(DefaultIiRate, DefaultIpiRate, DefaultPisRate, DefaultCofinsRate, DefaultIcmsRate)

  /** Rate overrides keyed by tax name ("II", "IPI", "PIS", "COFINS", "ICMS"); a missing dictionary
      behaves as the empty one. */
  type Overrides = map<string, real>

  /** One tax of the breakdown. */
  datatype TaxLine = TaxLine(rate: real, base: real, amount: real)

  datatype Breakdown = Breakdown(
    cifValue: real, freight: real, insurance: real, totalCif: real,
    ii: TaxLine, ipi: TaxLine, pis: TaxLine, cofins: TaxLine, icms: TaxLine,
    totalTaxes: real, totalAmount: real, taxPercentage: real,
    ncmCode: Option<string>, originCountry: Option<string>, destinationState: Option<string>)

  /** The rate used for `key`: the override when present, else the instance default. */
  function RateFor(custom: Overrides, key: string, fallback: real): (r: real)
    ensures key in custom ==> r == custom[key]
    ensures key !in custom ==> r == fallback
  {
    if key in custom then custom[key] else fallback
  }

  /** The rates a calculation actually uses, key by key. */
  function Effective(calculator: Rates, custom: Overrides): (r: Rates)
    ensures r.ii == RateFor(custom, "II", calculator.ii)
    ensures r.ipi == RateFor(custom, "IPI", calculator.ipi)
    ensures r.pis == RateFor(custom, "PIS", calculator.pis)
    ensures r.cofins == RateFor(custom, "COFINS", calculator.cofins)
    ensures r.icms == RateFor(custom, "ICMS", calculator.icms)
  {
    Rates(RateFor(custom, "II", calculator.ii), RateFor(custom, "IPI", calculator.ipi), RateFor(custom, "PIS", calculator.pis),
          RateFor(custom, "COFINS", calculator.cofins), RateFor(custom, "ICMS", calculator.icms))
  }

  /** `calculate_import_taxes`. The only demand is that the effective ICMS rate is not 1, where the
      gross-up would divide by zero. */
  function CalculateImportTaxes(calculator: Rates, cifValue: real, freight: real, insurance: real,
                                ncmCode: Option<string>, originCountry: Option<string>,
                                destinationState: Option<string>, custom: Overrides): (r: Breakdown)
    requires Effective(calculator, custom).icms != 1.0
    // the CIF total and the cascade of bases
    ensures r.totalCif == cifValue + freight + insurance
    ensures r.ii.base == r.totalCif && r.ii.amount == r.ii.base * r.ii.rate
    ensures r.ipi.base == r.totalCif + r.ii.amount && r.ipi.amount == r.ipi.base * r.ipi.rate
    ensures r.pis.base == r.totalCif + r.ii.amount + r.ipi.amount && r.pis.amount == r.pis.base * r.pis.rate
    ensures r.cofins.base == r.pis.base && r.cofins.amount == r.cofins.base * r.cofins.rate
    ensures r.icms.base == r.pis.base + r.pis.amount + r.cofins.amount
    // ICMS is `rate` of the price that already contains it
    ensures r.icms.amount * (1.0 - r.icms.rate) == r.icms.base * r.icms.rate
    ensures r.icms.amount == r.icms.rate * (r.icms.base + r.icms.amount)
    // per-key overrides
    ensures r.ii.rate == RateFor(custom, "II", calculator.ii) && r.ipi.rate == RateFor(custom, "IPI", calculator.ipi)
    ensures r.pis.rate == RateFor(custom, "PIS", calculator.pis) && r.cofins.rate == RateFor(custom, "COFINS", calculator.cofins)
    ensures r.icms.rate == RateFor(custom, "ICMS", calculator.icms)
    // totals
    ensures r.totalTaxes == r.ii.amount + r.ipi.amount + r.pis.amount + r.cofins.amount + r.icms.amount
    ensures r.totalAmount == r.totalCif + r.totalTaxes
    ensures r.totalCif > 0.0 ==> r.taxPercentage * r.totalCif == r.totalTaxes * 100.0
    ensures r.totalCif <= 0.0 ==> r.taxPercentage == 0.0
    // echoed inputs
    ensures r.cifValue == cifValue && r.freight == freight && r.insurance == insurance
    ensures r.ncmCode == ncmCode && r.originCountry == originCountry && r.destinationState == destinationState
  {
    var totalCif := cifValue + freight + insurance;
    var t := Cascade(Effective(calculator, custom), totalCif);
    Breakdown(cifValue, freight, insurance, totalCif, t.ii, t.ipi, t.pis, t.cofins, t.icms,
              t.totalTaxes, totalCif + t.totalTaxes, Percentage(t.totalTaxes, totalCif),
              ncmCode, originCountry, destinationState)
  }

  /** `part / whole * 100` for a positive whole, else 0. */
  function Percentage(part: real, whole: real): (p: real)
    ensures whole > 0.0 ==> p * whole == part * 100.0
    ensures whole <= 0.0 ==> p == 0.0
  {
    if whole > 0.0 then
      var q := part / whole;
      assert q * whole == part;
      assert q * 100.0 * whole == q * whole * 100.0;
      q * 100.0
    else 0.0
  }

  /** The five taxes levied on a CIF total, in the order they are computed. */
  datatype Taxes = Taxes(ii: TaxLine, ipi: TaxLine, pis: TaxLine, cofins: TaxLine, icms: TaxLine, totalTaxes: real)

  /** The cascade itself: each base is the CIF total plus the taxes computed before it, and PIS
      and COFINS share one base rather than stacking on each other. */
  function Cascade(eff: Rates, totalCif: real): (t: Taxes)
    requires eff.icms != 1.0
    ensures t.ii == TaxLine(eff.ii, totalCif, totalCif * eff.ii)
    ensures t.ipi.rate == eff.ipi && t.ipi.base == totalCif + t.ii.amount && t.ipi.amount == t.ipi.base * eff.ipi
    ensures t.pis.rate == eff.pis && t.pis.base == totalCif + t.ii.amount + t.ipi.amount
    ensures t.pis.amount == t.pis.base * eff.pis
    ensures t.cofins.rate == eff.cofins && t.cofins.base == t.pis.base && t.cofins.amount == t.pis.base * eff.cofins
    ensures t.icms.rate == eff.icms && t.icms.base == t.pis.base + t.pis.amount + t.cofins.amount
    ensures t.icms.amount * (1.0 - eff.icms) == t.icms.base * eff.icms
    ensures t.icms.amount == eff.icms * (t.icms.base + t.icms.amount)
    ensures t.totalTaxes == t.ii.amount + t.ipi.amount + t.pis.amount + t.cofins.amount + t.icms.amount
  {
    var iiAmount := totalCif * eff.ii;
    var ipiBase := totalCif + iiAmount;
    var ipiAmount := ipiBase * eff.ipi;
    var pisBase := totalCif + iiAmount + ipiAmount;
    var pisAmount := pisBase * eff.pis;
    var cofinsBase := totalCif + iiAmount + ipiAmount;
    var cofinsAmount := cofinsBase * eff.cofins;
    var icmsBase := totalCif + iiAmount + ipiAmount + pisAmount + cofinsAmount;
    var icmsAmount := icmsBase / (1.0 - eff.icms) - icmsBase;
    GrossUp(icmsBase, eff.icms);
    Taxes(TaxLine(eff.ii, totalCif, iiAmount), TaxLine(eff.ipi, ipiBase, ipiAmount),
          TaxLine(eff.pis, pisBase, pisAmount), TaxLine(eff.cofins, cofinsBase, cofinsAmount),
          TaxLine(eff.icms, icmsBase, icmsAmount),
          iiAmount + ipiAmount + pisAmount + cofinsAmount + icmsAmount)
  }

  /** The algebra of `base / (1 - rate) - base`. */
  lemma GrossUp(base: real, rate: real)
    requires rate != 1.0
    ensures (base / (1.0 - rate) - base) * (1.0 - rate) == base * rate
    ensures base / (1.0 - rate) - base == rate * (base + (base / (1.0 - rate) - base))
  {
    var q := base / (1.0 - rate);
    assert q * (1.0 - rate) == base;
    assert (q - base) * (1.0 - rate) == q * (1.0 - rate) - base * (1.0 - rate);
  }

  /** The gross-up equation determines the ICMS amount: no other value satisfies it. */
  lemma {:induction false} IcmsUnique(r: Breakdown, x: real)
    requires r.icms.rate != 1.0
    requires r.icms.amount * (1.0 - r.icms.rate) == r.icms.base * r.icms.rate
    requires x * (1.0 - r.icms.rate) == r.icms.base * r.icms.rate
    ensures x == r.icms.amount
  {
    var d := 1.0 - r.icms.rate;
    assert (x - r.icms.amount) * d == x * d - r.icms.amount * d;
    ZeroFactor(x - r.icms.amount, d);
  }

  /** A product with a non-zero factor is zero only when the other factor is. */
  lemma ZeroFactor(e: real, d: real)
    requires d != 0.0 && e * d == 0.0
    ensures e == 0.0
  {
  }

  /** Closed form of the cascade: with CIF total T and effective rates a, b, p, c, i,
      the ICMS base is T(1+a)(1+b)(1+p+c) and the amount to pay is that base over (1-i). */
  lemma ClosedForm(calculator: Rates, cifValue: real, freight: real, insurance: real,
                   ncmCode: Option<string>, originCountry: Option<string>,
                   destinationState: Option<string>, custom: Overrides)
    requires Effective(calculator, custom).icms != 1.0
    ensures var e := Effective(calculator, custom);
            var r := CalculateImportTaxes(calculator, cifValue, freight, insurance, ncmCode, originCountry, destinationState, custom);
            r.icms.base == (cifValue + freight + insurance) * (1.0 + e.ii) * (1.0 + e.ipi) * (1.0 + e.pis + e.cofins)
            && r.totalAmount * (1.0 - e.icms) == r.icms.base
  {
    var e := Effective(calculator, custom);
    var r := CalculateImportTaxes(calculator, cifValue, freight, insurance, ncmCode, originCountry, destinationState, custom);
    var t := cifValue + freight + insurance;
    assert r.ipi.base == t * (1.0 + e.ii);
    assert r.pis.base == t * (1.0 + e.ii) * (1.0 + e.ipi);
    assert r.icms.base == r.pis.base * (1.0 + e.pis + e.cofins);
    assert r.totalAmount == r.icms.base + r.icms.amount;
  }

  /** With non-negative money, rates in [0, 1) for ICMS and non-negative other rates, every
      amount is non-negative and the total to pay is at least the CIF total. */
  lemma NonNegativeTaxes(calculator: Rates, cifValue: real, freight: real, insurance: real, custom: Overrides)
    requires cifValue >= 0.0 && freight >= 0.0 && insurance >= 0.0
    requires var e := Effective(calculator, custom);
             e.ii >= 0.0 && e.ipi >= 0.0 && e.pis >= 0.0 && e.cofins >= 0.0 && 0.0 <= e.icms < 1.0
    ensures var r := CalculateImportTaxes(calculator, cifValue, freight, insurance, None, None, None, custom);
            r.ii.amount >= 0.0 && r.ipi.amount >= 0.0 && r.pis.amount >= 0.0 && r.cofins.amount >= 0.0
            && r.icms.amount >= 0.0 && r.totalTaxes >= 0.0 && r.totalAmount >= r.totalCif
            && 0.0 <= r.taxPercentage
  {
    var e := Effective(calculator, custom);
    var totalCif := cifValue + freight + insurance;
    var t := Cascade(e, totalCif);
    CascadeNonNegative(e, totalCif);
    var r := CalculateImportTaxes(calculator, cifValue, freight, insurance, None, None, None, custom);
    assert r.ii == t.ii && r.ipi == t.ipi && r.pis == t.pis && r.cofins == t.cofins && r.icms == t.icms;
    assert r.totalTaxes == t.totalTaxes && r.totalCif == totalCif;
    assert r.taxPercentage == Percentage(t.totalTaxes, totalCif);
    PercentageNonNegative(t.totalTaxes, totalCif);
  }

  /** Every line of the cascade is non-negative for a non-negative CIF total and rates, the ICMS
      rate below one. */
  lemma CascadeNonNegative(eff: Rates, totalCif: real)
    requires totalCif >= 0.0
    requires eff.ii >= 0.0 && eff.ipi >= 0.0 && eff.pis >= 0.0 && eff.cofins >= 0.0 && 0.0 <= eff.icms < 1.0
    ensures var t := Cascade(eff, totalCif);
            t.ii.amount >= 0.0 && t.ipi.amount >= 0.0 && t.pis.amount >= 0.0 && t.cofins.amount >= 0.0
            && t.icms.amount >= 0.0 && t.totalTaxes >= 0.0
  {
    var t := Cascade(eff, totalCif);
    LineNonNegative(t.ii);
    LineNonNegative(t.ipi);
    LineNonNegative(t.pis);
    LineNonNegative(t.cofins);
    GrossUpNonNegative(t.icms);
  }

  lemma LineNonNegative(line: TaxLine)
    requires line.base >= 0.0 && line.rate >= 0.0 && line.amount == line.base * line.rate
    ensures line.amount >= 0.0
  {
  }

  lemma GrossUpNonNegative(line: TaxLine)
    requires line.base >= 0.0 && 0.0 <= line.rate < 1.0
    requires line.amount * (1.0 - line.rate) == line.base * line.rate
    ensures line.amount >= 0.0
  {
    ProductSign(line.base, line.rate);
    ProductSign(line.amount, 1.0 - line.rate);
  }

  lemma PercentageNonNegative(part: real, whole: real)
    requires part >= 0.0
    ensures Percentage(part, whole) >= 0.0
  {
    var p := Percentage(part, whole);
    ProductSign(p, whole);
    ProductSign(part, 100.0);
  }

  /** Sign rules for a product of reals. */
  lemma ProductSign(a: real, b: real)
    ensures a >= 0.0 && b >= 0.0 ==> a * b >= 0.0
    ensures a < 0.0 && b > 0.0 ==> a * b < 0.0
  {
  }

  /** The total to pay in closed form: the CIF total times the cascade factor, grossed up by the
      ICMS rate. */
  function TotalToPay(calculator: Rates, cifValue: real, freight: real, insurance: real, custom: Overrides): (a: real)
    requires Effective(calculator, custom).icms != 1.0
    ensures var e := Effective(calculator, custom);
            a * (1.0 - e.icms) == (cifValue + freight + insurance) * CascadeFactor(e)
  {
    var e := Effective(calculator, custom);
    (cifValue + freight + insurance) * CascadeFactor(e) / (1.0 - e.icms)
  }

  /** The closed form is the total `calculate_import_taxes` reports. */
  lemma TotalToPayIsTotal(calculator: Rates, cifValue: real, freight: real, insurance: real,
                          ncmCode: Option<string>, originCountry: Option<string>,
                          destinationState: Option<string>, custom: Overrides)
    requires Effective(calculator, custom).icms != 1.0
    ensures CalculateImportTaxes(calculator, cifValue, freight, insurance, ncmCode, originCountry, destinationState, custom).totalAmount
            == TotalToPay(calculator, cifValue, freight, insurance, custom)
  {
    TotalSolvesGrossUp(calculator, cifValue, freight, insurance, ncmCode, originCountry, destinationState, custom);
    GrossUpUnique(CalculateImportTaxes(calculator, cifValue, freight, insurance, ncmCode, originCountry, destinationState, custom).totalAmount,
                  TotalToPay(calculator, cifValue, freight, insurance, custom), Effective(calculator, custom).icms);
  }

  /** The reported total solves the gross-up equation on the CIF total times the cascade factor. */
  lemma TotalSolvesGrossUp(calculator: Rates, cifValue: real, freight: real, insurance: real,
                           ncmCode: Option<string>, originCountry: Option<string>,
                           destinationState: Option<string>, custom: Overrides)
    requires Effective(calculator, custom).icms != 1.0
    ensures var e := Effective(calculator, custom);
            CalculateImportTaxes(calculator, cifValue, freight, insurance, ncmCode, originCountry, destinationState, custom).totalAmount
              * (1.0 - e.icms) == (cifValue + freight + insurance) * CascadeFactor(e)
  {
    var e := Effective(calculator, custom);
    var r := CalculateImportTaxes(calculator, cifValue, freight, insurance, ncmCode, originCountry, destinationState, custom);
    ClosedForm(calculator, cifValue, freight, insurance, ncmCode, originCountry, destinationState, custom);
    ScaledBase(r.icms.base, cifValue + freight + insurance, e);
    assert r.totalAmount * (1.0 - e.icms) == r.icms.base;
  }

  lemma ScaledBase(x: real, t: real, e: Rates)
    requires x == t * (1.0 + e.ii) * (1.0 + e.ipi) * (1.0 + e.pis + e.cofins)
    ensures x == t * CascadeFactor(e)
  {
    FactorOut(t, e);
  }

  /** `t·(1 − i)` determines `t` when `i` is not 1. */
  lemma GrossUpUnique(t1: real, t2: real, i: real)
    requires i != 1.0 && t1 * (1.0 - i) == t2 * (1.0 - i)
    ensures t1 == t2
  {
    var d := 1.0 - i;
    assert (t1 - t2) * d == t1 * d - t2 * d;
    ZeroFactor(t1 - t2, d);
  }

  /** Raising the CIF total (the value, the freight or the insurance) never lowers the total to
      pay, for non-negative rates and an ICMS rate in [0, 1). */
  lemma TotalMonotoneInCif(calculator: Rates, custom: Overrides,
                           cif1: real, freight1: real, insurance1: real,
                           cif2: real, freight2: real, insurance2: real)
    requires var e := Effective(calculator, custom);
             e.ii >= 0.0 && e.ipi >= 0.0 && e.pis >= 0.0 && e.cofins >= 0.0 && 0.0 <= e.icms < 1.0
    requires cif1 + freight1 + insurance1 <= cif2 + freight2 + insurance2
    ensures TotalToPay(calculator, cif1, freight1, insurance1, custom) <= TotalToPay(calculator, cif2, freight2, insurance2, custom)
  {
    var e := Effective(calculator, custom);
    CascadeFactorGrows(e, e);
    GrossUpOrdered(TotalToPay(calculator, cif1, freight1, insurance1, custom), cif1 + freight1 + insurance1, CascadeFactor(e), e.icms,
                   TotalToPay(calculator, cif2, freight2, insurance2, custom), cif2 + freight2 + insurance2, CascadeFactor(e), e.icms);
  }

  /** Raising any effective rate, the others fixed or raised too, never lowers the total to pay
      on a non-negative CIF total. */
  lemma TotalMonotoneInRates(calculator1: Rates, custom1: Overrides, calculator2: Rates, custom2: Overrides,
                             cifValue: real, freight: real, insurance: real)
    requires var e1 := Effective(calculator1, custom1);
             var e2 := Effective(calculator2, custom2);
             && 0.0 <= e1.ii <= e2.ii && 0.0 <= e1.ipi <= e2.ipi && 0.0 <= e1.pis <= e2.pis
             && 0.0 <= e1.cofins <= e2.cofins && 0.0 <= e1.icms <= e2.icms < 1.0
    requires cifValue + freight + insurance >= 0.0
    ensures TotalToPay(calculator1, cifValue, freight, insurance, custom1) <= TotalToPay(calculator2, cifValue, freight, insurance, custom2)
  {
    var e1 := Effective(calculator1, custom1);
    var e2 := Effective(calculator2, custom2);
    CascadeFactorGrows(e1, e2);
    var t := cifValue + freight + insurance;
    GrossUpOrdered(TotalToPay(calculator1, cifValue, freight, insurance, custom1), t, CascadeFactor(e1), e1.icms,
                   TotalToPay(calculator2, cifValue, freight, insurance, custom2), t, CascadeFactor(e2), e2.icms);
  }

  /** Two totals solving `a·(1 − i) = t·k` are ordered when the CIF totals, the factors and the
      ICMS rates are: with equal rates and factors for any CIF totals, and otherwise for
      non-negative ones. */
  lemma GrossUpOrdered(a1: real, t1: real, k1: real, i1: real, a2: real, t2: real, k2: real, i2: real)
    requires a1 * (1.0 - i1) == t1 * k1 && a2 * (1.0 - i2) == t2 * k2
    requires t1 <= t2 && 0.0 <= k1 <= k2 && 0.0 <= i1 <= i2 < 1.0
    requires (k1 < k2 || i1 < i2) ==> 0.0 <= t1
    ensures a1 <= a2
  {
    if k1 < k2 || i1 < i2 {
      ProductGrows(t1, t2, k1, k2);
    } else {
      ScaleGrows(t1, t2, k1);
    }
    GrossUpGrows(a1, t1 * k1, i1, a2, t2 * k2, i2);
  }

  /** `calculate_import_taxes` is monotone: raising the CIF value, the freight, the insurance or
      any effective rate never lowers `total_amount`, for non-negative money, non-negative rates
      and ICMS rates below 1. */
  lemma TotalAmountMonotone(calculator1: Rates, custom1: Overrides, cif1: real, freight1: real, insurance1: real,
                            calculator2: Rates, custom2: Overrides, cif2: real, freight2: real, insurance2: real)
    requires var e1 := Effective(calculator1, custom1);
             var e2 := Effective(calculator2, custom2);
             && 0.0 <= e1.ii <= e2.ii && 0.0 <= e1.ipi <= e2.ipi && 0.0 <= e1.pis <= e2.pis
             && 0.0 <= e1.cofins <= e2.cofins && 0.0 <= e1.icms <= e2.icms < 1.0
    requires 0.0 <= cif1 + freight1 + insurance1 <= cif2 + freight2 + insurance2
    ensures CalculateImportTaxes(calculator1, cif1, freight1, insurance1, None, None, None, custom1).totalAmount
            <= CalculateImportTaxes(calculator2, cif2, freight2, insurance2, None, None, None, custom2).totalAmount
  {
    TotalToPayIsTotal(calculator1, cif1, freight1, insurance1, None, None, None, custom1);
    TotalToPayIsTotal(calculator2, cif2, freight2, insurance2, None, None, None, custom2);
    TotalMonotoneInRates(calculator1, custom1, calculator2, custom2, cif1, freight1, insurance1);
    TotalMonotoneInCif(calculator2, custom2, cif1, freight1, insurance1, cif2, freight2, insurance2);
  }

  /** The factor the cascade multiplies the CIF total by before ICMS. */
  function CascadeFactor(e: Rates): real {
    (1.0 + e.ii) * (1.0 + e.ipi) * (1.0 + e.pis + e.cofins)
  }

  lemma CascadeFactorGrows(e1: Rates, e2: Rates)
    requires 0.0 <= e1.ii <= e2.ii && 0.0 <= e1.ipi <= e2.ipi && 0.0 <= e1.pis <= e2.pis && 0.0 <= e1.cofins <= e2.cofins
    ensures 0.0 <= CascadeFactor(e1) <= CascadeFactor(e2)
  {
    ProductGrows(1.0 + e1.ii, 1.0 + e2.ii, 1.0 + e1.ipi, 1.0 + e2.ipi);
    ProductGrows((1.0 + e1.ii) * (1.0 + e1.ipi), (1.0 + e2.ii) * (1.0 + e2.ipi), 1.0 + e1.pis + e1.cofins, 1.0 + e2.pis + e2.cofins);
  }

  /** A product of non-negative reals grows with each factor. */
  lemma ProductGrows(a1: real, a2: real, b1: real, b2: real)
    requires 0.0 <= a1 <= a2 && 0.0 <= b1 <= b2
    ensures 0.0 <= a1 * b1 <= a2 * b2
  {
    assert (a2 - a1) * b1 >= 0.0;
    assert a2 * (b2 - b1) >= 0.0;
  }

  /** Scaling by a non-negative factor keeps the order. */
  lemma ScaleGrows(x1: real, x2: real, k: real)
    requires x1 <= x2 && k >= 0.0
    ensures x1 * k <= x2 * k
  {
    assert (x2 - x1) * k >= 0.0;
  }

  /** A total `t` solving `t·(1 − i) = base` grows with the base and with the rate. */
  lemma GrossUpGrows(t1: real, base1: real, i1: real, t2: real, base2: real, i2: real)
    requires base1 <= base2 && 0.0 <= i1 <= i2 < 1.0 && (i1 < i2 ==> base1 >= 0.0)
    requires t1 * (1.0 - i1) == base1 && t2 * (1.0 - i2) == base2
    ensures t1 <= t2
  {
    var d1, d2 := 1.0 - i1, 1.0 - i2;
    assert t1 * d1 == base1;
    assert t2 * d2 == base2;
    if i1 < i2 {
      ProductSign(t2, d2);
      assert t2 >= 0.0;
      ScaleGrows(d2, d1, t2);
      assert t2 * d1 >= t2 * d2;
    } else {
      assert d1 == d2;
      assert t2 * d1 == t2 * d2;
    }
    assert t2 * d1 >= base2 >= base1;
    assert t2 * d1 >= t1 * d1;
    assert (t2 - t1) * d1 == t2 * d1 - t1 * d1;
    ProductSign(t2 - t1, d1);
  }

  /** The closed-form ICMS base is the CIF total times the cascade factor. */
  lemma FactorOut(t: real, e: Rates)
    ensures t * (1.0 + e.ii) * (1.0 + e.ipi) * (1.0 + e.pis + e.cofins) == t * CascadeFactor(e)
  {
  }

  /** The descriptive fields never influence any amount. */
  lemma {:induction false} MetadataIndependent(calculator: Rates, cifValue: real, freight: real, insurance: real,
                                              n1: Option<string>, o1: Option<string>, d1: Option<string>,
                                              n2: Option<string>, o2: Option<string>, d2: Option<string>,
                                              custom: Overrides)
    requires Effective(calculator, custom).icms != 1.0
    ensures var r1 := CalculateImportTaxes(calculator, cifValue, freight, insurance, n1, o1, d1, custom);
            var r2 := CalculateImportTaxes(calculator, cifValue, freight, insurance, n2, o2, d2, custom);
            r1.(ncmCode := None, originCountry := None, destinationState := None)
            == r2.(ncmCode := None, originCountry := None, destinationState := None)
  {
  }

  /** Only the sum CIF + freight + insurance matters: moving value between the three inputs
      changes no tax. */
  lemma FreightFolds(calculator: Rates, cifValue: real, freight: real, insurance: real, custom: Overrides)
    requires Effective(calculator, custom).icms != 1.0
    ensures var r1 := CalculateImportTaxes(calculator, cifValue, freight, insurance, None, None, None, custom);
            var r2 := CalculateImportTaxes(calculator, cifValue + freight + insurance, 0.0, 0.0, None, None, None, custom);
            r1.totalCif == r2.totalCif && r1.ii == r2.ii && r1.ipi == r2.ipi && r1.pis == r2.pis
            && r1.cofins == r2.cofins && r1.icms == r2.icms && r1.totalTaxes == r2.totalTaxes
            && r1.totalAmount == r2.totalAmount && r1.taxPercentage == r2.taxPercentage
  {
  }

  /** Worked example at the default rates: CIF 1000 gives II 150, IPI 115, PIS 20.8725,
      COFINS 96.14, an ICMS base of 1382.0125 and ICMS of 18% of the grossed-up price. */
  lemma DefaultScenario()
    ensures var r := CalculateImportTaxes(Default, 1000.0, 0.0, 0.0, None, None, None, map[]);
            r.ii.amount == 150.0 && r.ipi.amount == 115.0 && r.pis.amount == 20.8725
            && r.cofins.amount == 96.14 && r.icms.base == 1382.0125
            && r.icms.amount * 0.82 == 248.76225 && r.totalAmount * 0.82 == 1382.0125
  {
    var r := CalculateImportTaxes(Default, 1000.0, 0.0, 0.0, None, None, None, map[]);
    assert r.icms.rate == 0.18;
    assert r.totalAmount == r.icms.base + r.icms.amount;
  }

  /** A single tax: `amount = base * rate`, echoing the name, base and rate. */
  datatype SimpleTax = SimpleTax(name: string, base: real, rate: real, amount: real)

  function CalculateSimpleTax(baseValue: real, taxRate: real, taxName: string): (r: SimpleTax)
    ensures r.name == taxName && r.base == baseValue && r.rate == taxRate
    ensures r.amount == baseValue * taxRate
  {
    SimpleTax(taxName, baseValue, taxRate, baseValue * taxRate)
  }

  /** The four proportional taxes of the cascade are each a simple tax on their own base. */
  lemma CascadeIsSimpleTaxes(calculator: Rates, cifValue: real, freight: real, insurance: real, custom: Overrides)
    requires Effective(calculator, custom).icms != 1.0
    ensures var r := CalculateImportTaxes(calculator, cifValue, freight, insurance, None, None, None, custom);
            CalculateSimpleTax(r.ii.base, r.ii.rate, "II").amount == r.ii.amount
            && CalculateSimpleTax(r.ipi.base, r.ipi.rate, "IPI").amount == r.ipi.amount
            && CalculateSimpleTax(r.pis.base, r.pis.rate, "PIS").amount == r.pis.amount
            && CalculateSimpleTax(r.cofins.base, r.cofins.rate, "COFINS").amount == r.cofins.amount
  {
  }

  /** The NCM table: chapter-heading prefixes with a specific import-duty rate. */
  const NcmTable: map<string, real> := map["8471" := 0.16, "8517" := 0.14, "8703" := 0.35]

  /** `get_ncm_rate`: look up the first four characters of a non-empty code; an empty or absent
      code, or an unlisted prefix, yields the default II rate. It never fails. */
  function NcmRate(ncmCode: Option<string>): (r: real)
    ensures r == 0.16 <==> ncmCode.Some? && |ncmCode.value| >= 4 && ncmCode.value[..4] == "8471"
    ensures r == 0.14 <==> ncmCode.Some? && |ncmCode.value| >= 4 && ncmCode.value[..4] == "8517"
    ensures r == 0.35 <==> ncmCode.Some? && |ncmCode.value| >= 4 && ncmCode.value[..4] == "8703"
    ensures r == DefaultIiRate <==> r !in {0.16, 0.14, 0.35}
  {
    match ncmCode
    case None => DefaultIiRate
    case Some(code) =>
      if code == [] then DefaultIiRate
      else
        var prefix := if |code| <= 4 then code else code[..4];
        assert |code| >= 4 ==> prefix == code[..4];
        assert |"8471"| == |"8517"| == |"8703"| == 4;
        if prefix in NcmTable then NcmTable[prefix] else DefaultIiRate
  }

  /** Codes sharing their first four characters get the same rate. */
  lemma NcmRatePrefixOnly(a: string, b: string)
    requires |a| >= 4 && |b| >= 4 && a[..4] == b[..4]
    ensures NcmRate(Some(a)) == NcmRate(Some(b))
  {
  }

  /** Landed-cost estimate in BRL. */
  datatype Estimate = Estimate(
    productValue: real, freight: real, insurance: real, cifForeign: real, exchangeRate: real,
    cifBrl: real, taxesBrl: real, totalCostBrl: real, breakdown: Breakdown)

  /** The II rate an estimate uses: the NCM table rate for a non-empty code, the instance rate otherwise. */
  function EstimateIiRate(calculator: Rates, ncmCode: Option<string>): (r: real)
    ensures ncmCode.Some? && ncmCode.value != [] ==> r == NcmRate(ncmCode)
    ensures ncmCode == None || ncmCode == Some([]) ==> r == calculator.ii
  {
    if ncmCode.Some? && ncmCode.value != [] then NcmRate(ncmCode) else calculator.ii
  }

  /** `estimate_total_cost`: convert product + freight + insurance to BRL, then run the full
      calculation on that CIF with only the II rate overridden. */
  function EstimateTotalCost(calculator: Rates, productValue: real, exchangeRate: real, freight: real,
                             insurance: real, ncmCode: Option<string>): (r: Estimate)
    requires calculator.icms != 1.0
    ensures r.cifForeign == productValue + freight + insurance
    ensures r.cifBrl == (productValue + freight + insurance) * exchangeRate
    ensures r.breakdown.totalCif == r.cifBrl && r.breakdown.freight == 0.0 && r.breakdown.insurance == 0.0
    ensures r.breakdown.ii.rate == EstimateIiRate(calculator, ncmCode)
    ensures r.breakdown.ipi.rate == calculator.ipi && r.breakdown.pis.rate == calculator.pis
    ensures r.breakdown.cofins.rate == calculator.cofins && r.breakdown.icms.rate == calculator.icms
    // the cascade runs on the BRL CIF value
    ensures r.breakdown.ii.base == r.cifBrl && r.breakdown.ii.amount == r.cifBrl * r.breakdown.ii.rate
    ensures r.breakdown.ipi.base == r.cifBrl + r.breakdown.ii.amount
    ensures r.breakdown.ipi.amount == r.breakdown.ipi.base * r.breakdown.ipi.rate
    ensures r.breakdown.pis.base == r.breakdown.ipi.base + r.breakdown.ipi.amount
    ensures r.breakdown.pis.amount == r.breakdown.pis.base * r.breakdown.pis.rate
    ensures r.breakdown.cofins.base == r.breakdown.pis.base
    ensures r.breakdown.cofins.amount == r.breakdown.cofins.base * r.breakdown.cofins.rate
    ensures r.breakdown.icms.base == r.breakdown.pis.base + r.breakdown.pis.amount + r.breakdown.cofins.amount
    ensures r.breakdown.icms.amount == r.breakdown.icms.rate * (r.breakdown.icms.base + r.breakdown.icms.amount)
    ensures r.taxesBrl == r.breakdown.totalTaxes && r.totalCostBrl == r.breakdown.totalAmount
    ensures r.taxesBrl == r.breakdown.ii.amount + r.breakdown.ipi.amount + r.breakdown.pis.amount
                        + r.breakdown.cofins.amount + r.breakdown.icms.amount
    ensures r.totalCostBrl == r.cifBrl + r.taxesBrl
    ensures r.breakdown.ncmCode == ncmCode && r.breakdown.originCountry == None
  {
    var cifForeign := productValue + freight + insurance;
    var cifBrl := cifForeign * exchangeRate;
    var taxes := CalculateImportTaxes(calculator, cifBrl, 0.0, 0.0, ncmCode, None, None,
                                      map["II" := EstimateIiRate(calculator, ncmCode)]);
    Estimate(productValue, freight, insurance, cifForeign, exchangeRate, cifBrl,
             taxes.totalTaxes, taxes.totalAmount, taxes)
  }

  /** A calculation depends on the calculator and the overrides only through the effective rates. */
  lemma EffectiveRatesDecide(c1: Rates, custom1: Overrides, c2: Rates, custom2: Overrides,
                             cifValue: real, freight: real, insurance: real)
    requires Effective(c1, custom1) == Effective(c2, custom2) && Effective(c1, custom1).icms != 1.0
    ensures CalculateImportTaxes(c1, cifValue, freight, insurance, None, None, None, custom1)
         == CalculateImportTaxes(c2, cifValue, freight, insurance, None, None, None, custom2)
  {
  }

  /** The estimate in BRL is the direct calculation on the converted CIF: estimating a value
      with freight and insurance at exchange rate x yields, line by line, what calculating on
      (value + freight + insurance) * x yields with the same II rate. */
  lemma EstimateMatchesDirect(calculator: Rates, productValue: real, exchangeRate: real, freight: real,
                              insurance: real, ncmCode: Option<string>)
    requires calculator.icms != 1.0
    ensures var e := EstimateTotalCost(calculator, productValue, exchangeRate, freight, insurance, ncmCode);
            var d := CalculateImportTaxes(calculator.(ii := EstimateIiRate(calculator, ncmCode)),
                                          (productValue + freight + insurance) * exchangeRate,
                                          0.0, 0.0, None, None, None, map[]);
            && e.breakdown.ii == d.ii && e.breakdown.ipi == d.ipi && e.breakdown.pis == d.pis
            && e.breakdown.cofins == d.cofins && e.breakdown.icms == d.icms
            && e.breakdown.totalCif == d.totalCif && e.breakdown.taxPercentage == d.taxPercentage
            && e.taxesBrl == d.totalTaxes && e.totalCostBrl == d.totalAmount
  {
    var x := EstimateIiRate(calculator, ncmCode);
    var cif := (productValue + freight + insurance) * exchangeRate;
    var custom := map["II" := x];
    assert Effective(calculator, custom) == Effective(calculator.(ii := x), map[]);
    EffectiveRatesDecide(calculator, custom, calculator.(ii := x), map[], cif, 0.0, 0.0);
    MetadataIndependent(calculator, cif, 0.0, 0.0, ncmCode, None, None, None, None, None, custom);
  }

  /** A computer (NCM 8471...) estimated at the default rates pays 16% duty, not 15%. */
  lemma ComputerEstimate()
    ensures var e := EstimateTotalCost(Default, 100.0, 5.0, 0.0, 0.0, Some("84713012"));
            e.cifBrl == 500.0 && e.breakdown.ii.amount == 80.0 && e.breakdown.ipi.amount == 58.0
  {
    assert "84713012"[..4] == "8471";
  }
}
