// Models app/core/calculators/processual_calculator.py (`CalculadoraProcessual`):
// the judgment settlement with correction, interest and attorney's fees.

module Settlement {
  import opened Dates
  import Interest

  /** The IPCA rate the correction uses. */
  const IpcaRate: real := 0.045

  /** Python's `(hoje - d).days / 365`, clamped at 0. */
  function YearsElapsed(d: CalendarDate, today: CalendarDate): (anos: real)
    ensures anos >= 0.0
    ensures DaysBetween(d, today) >= 0 ==> anos * 365.0 == DaysBetween(d, today) as real
    ensures DaysBetween(d, today) < 0 ==> anos == 0.0
  {
    var dias := DaysBetween(d, today);
    if dias < 0 then 0.0 else (dias as real) / 365.0
  }

  /** `_aplicar_correcao_ipca`. `growth(taxa, anos)` stands for `(1 + taxa) ** anos`,
      which is real exponentiation and kept opaque. A date on or after today
      gets no correction. */
  function Correction(valor: real, dataInicial: CalendarDate, today: CalendarDate,
                      growth: (real, real) -> real): real
  {
    if !Before(dataInicial, today) then 0.0
    else
      var anosDecorridos := YearsElapsed(dataInicial, today);
      valor * (growth(0.045, anosDecorridos) - 1.0)
  }

  /** The corrected principal is the principal grown by the IPCA factor over
      the years elapsed; a date on or after today leaves it as it is. */
  lemma CorrectedPrincipal(valor: real, dataInicial: CalendarDate, today: CalendarDate,
                           growth: (real, real) -> real)
    ensures !Before(dataInicial, today) ==> valor + Correction(valor, dataInicial, today, growth) == valor
    ensures Before(dataInicial, today) ==>
      valor + Correction(valor, dataInicial, today, growth)
        == valor * growth(IpcaRate, YearsElapsed(dataInicial, today))
  {
  }

  /** `valor * 0.01 * max(0, dias / 30)`. */
  function InterestForDays(valor: real, dias: int): (j: real)
    ensures dias <= 0 ==> j == 0.0
    ensures dias > 0 ==> j * 30.0 == valor * 0.01 * (dias as real)
  {
    var mesesDecorridos := if dias < 0 then 0.0 else (dias as real) / 30.0;
    Interest.PerThirtyDays(valor * 0.01, dias);
    valor * 0.01 * mesesDecorridos
  }

  /** `_calcular_juros_mora`: 1% per 30 days since the date; nothing for a
      date on or after today. */
  function InterestSince(valor: real, dataInicial: CalendarDate, today: CalendarDate): (j: real)
    ensures !Before(dataInicial, today) ==> j == 0.0
    ensures Before(dataInicial, today) ==>
      DaysBetween(dataInicial, today) > 0 &&
      j * 30.0 == valor * 0.01 * (DaysBetween(dataInicial, today) as real)
  {
    BeforeIsOrdinalOrder(dataInicial, today);
    if !Before(dataInicial, today) then 0.0
    else InterestForDays(valor, DaysBetween(dataInicial, today))
  }

  /** The settlement interest is the late-payment interest of `BaseCalculator`
      at its default rate. */
  lemma InterestAgreesWithBaseCalculator(valor: real, dataInicial: CalendarDate, today: CalendarDate)
    ensures InterestSince(valor, dataInicial, today) == Interest.ComputeLateInterest(valor, dataInicial, today).interest
  {
    BeforeIsOrdinalOrder(dataInicial, today);
  }

  /** The answer of `calcular_liquidacao_sentenca`. */
  datatype Liquidation = Liquidation(principal: real, correction: real, interest: real, fees: real, total: real)

  /** The attorney's fee rate on the corrected principal. */
  const FeeRate: real := 0.10

  /** `calcular_liquidacao_sentenca` with today and the growth factor as parameters. */
  function Liquidate(valorPrincipal: real, dataSentenca: CalendarDate, today: CalendarDate,
                     growth: (real, real) -> real, incluirHonorarios: bool := true): (l: Liquidation)
    ensures l.principal == valorPrincipal
    ensures l.correction == Correction(valorPrincipal, dataSentenca, today, growth)
    ensures l.interest == InterestSince(valorPrincipal, dataSentenca, today)
    ensures l.fees == if incluirHonorarios then FeeRate * (valorPrincipal + l.correction) else 0.0
    ensures l.total == l.principal + l.correction + l.interest + l.fees
  {
    var correcao := Correction(valorPrincipal, dataSentenca, today, growth);
    var juros := InterestSince(valorPrincipal, dataSentenca, today);
    var valorCorrigido := valorPrincipal + correcao;
    var honorarios := if incluirHonorarios then valorCorrigido * 0.10 else 0.0;
    Liquidation(valorPrincipal, correcao, juros, honorarios, valorPrincipal + correcao + juros + honorarios)
  }

  /** A judgment dated today or later settles for the principal plus, if
      asked, 10% of it: no correction and no interest. */
  lemma FutureJudgmentIsPrincipalAndFees(valor: real, data: CalendarDate, today: CalendarDate,
                                         growth: (real, real) -> real, incluir: bool)
    requires !Before(data, today)
    ensures Liquidate(valor, data, today, growth, incluir).total == if incluir then 1.1 * valor else valor
  {
  }

  /** Interest never enters the fee base: changing only the interest (here,
      by the date) leaves the fees as the corrected principal decides. */
  lemma FeesIgnoreInterest(valor: real, data: CalendarDate, today: CalendarDate, growth: (real, real) -> real)
    ensures var l := Liquidate(valor, data, today, growth);
      l.total == 1.1 * (l.principal + l.correction) + l.interest
  {
  }
}
