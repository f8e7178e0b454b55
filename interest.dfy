// Models app/core/calculators/base_calculator.py (`BaseCalculator`): simple
// late-payment interest and the annual-rate table of the monetary correction.

module Interest {
  import opened Dates

  /** The answer of `calcular_juros_mora`: days late, interest and total. */
  datatype LateInterest = LateInterest(daysLate: int, interest: real, total: real)

  /** The interest for `diasAtraso` days late: simple interest at `taxaMensal`
      per 30 days, nothing when the payment is not late. */
  function InterestForDays(principal: real, diasAtraso: int, taxaMensal: real): (r: LateInterest)
    ensures r.total == principal + r.interest
    ensures diasAtraso <= 0 ==> r == LateInterest(0, 0.0, principal)
    ensures diasAtraso > 0 ==>
      r.daysLate == diasAtraso && r.interest * 30.0 == principal * taxaMensal * (diasAtraso as real)
  {
    if diasAtraso <= 0 then LateInterest(0, 0.0, principal)
    else
      var mesesAtraso := (diasAtraso as real) / 30.0;
      var juros := principal * taxaMensal * mesesAtraso;
      PerThirtyDays(principal * taxaMensal, diasAtraso);
      LateInterest(diasAtraso, juros, principal + juros)
  }

  /** `k` per 30 days, over `d` days. */
  lemma PerThirtyDays(k: real, d: int)
    ensures k * ((d as real) / 30.0) * 30.0 == k * (d as real)
  {
  }

  /** `calcular_juros_mora` with today as a parameter (rate 1% a month by
      default): the interest for the days from the due date to today, which
      `InterestForDays` characterises. */
  function ComputeLateInterest(principal: real, vencimento: CalendarDate, today: CalendarDate,
                               taxaMensal: real := 0.01): (r: LateInterest)
    ensures !Before(vencimento, today) ==> r == LateInterest(0, 0.0, principal)
    ensures Before(vencimento, today) ==> r.daysLate == DaysBetween(vencimento, today) > 0
    ensures r == InterestForDays(principal, r.daysLate, taxaMensal)
  {
    BeforeIsOrdinalOrder(vencimento, today);
    InterestForDays(principal, DaysBetween(vencimento, today), taxaMensal)
  }

  lemma MoreDaysMoreInterest(principal: real, d1: int, d2: int, taxa: real)
    requires principal >= 0.0 && taxa >= 0.0 && d1 <= d2
    ensures InterestForDays(principal, d1, taxa).interest <= InterestForDays(principal, d2, taxa).interest
  {
    var k := principal * taxa;
    assert k >= 0.0;
    if d1 > 0 {
      var m1, m2 := (d1 as real) / 30.0, (d2 as real) / 30.0;
      assert m1 <= m2;
      assert k * m2 - k * m1 == k * (m2 - m1);
      assert k * (m2 - m1) >= 0.0;
    } else if d2 > 0 {
      assert k * ((d2 as real) / 30.0) >= 0.0;
    }
  }

  /** For a non-negative principal and rate, paying later never costs less. */
  lemma LaterPaymentCostsMore(principal: real, vencimento: CalendarDate, t1: CalendarDate, t2: CalendarDate, taxa: real)
    requires principal >= 0.0 && taxa >= 0.0 && !Before(t2, t1)
    ensures ComputeLateInterest(principal, vencimento, t1, taxa).interest <=
            ComputeLateInterest(principal, vencimento, t2, taxa).interest
  {
    BeforeIsOrdinalOrder(t2, t1);
    MoreDaysMoreInterest(principal, DaysBetween(vencimento, t1), DaysBetween(vencimento, t2), taxa);
  }

  /** Interest is proportional to the principal (and so, for
      `ComputeLateInterest`, which delegates to this function). */
  lemma InterestForDaysScales(principal: real, factor: real, d: int, taxa: real)
    ensures InterestForDays(principal * factor, d, taxa).interest == factor * InterestForDays(principal, d, taxa).interest
  {
    if d > 0 {
      var m := (d as real) / 30.0;
      assert principal * factor * taxa * m == factor * (principal * taxa * m);
    }
  }

  /** The annual rate of `aplicar_correcao_monetaria`'s index table; an
      unknown index name gets the INPC rate, 4.5%. */
  function AnnualRate(indice: string): (taxa: real)
    ensures indice == "INPC" ==> taxa == 0.045
    ensures indice == "IPCA" ==> taxa == 0.042
    ensures indice == "SELIC" ==> taxa == 0.105
    ensures indice !in {"INPC", "IPCA", "SELIC"} ==> taxa == 0.045
  {
    var indicesAnuais := map["INPC" := 0.045, "IPCA" := 0.042, "SELIC" := 0.105];
    if indice in indicesAnuais then indicesAnuais[indice] else 0.045
  }

  /** Only IPCA and SELIC differ from the default, and every rate is between 4% and 11%. */
  lemma RatesAgainstDefault(indice: string)
    ensures AnnualRate(indice) != AnnualRate("INPC") <==> indice == "IPCA" || indice == "SELIC"
    ensures 0.04 < AnnualRate(indice) < 0.11
  {
  }
}
