/**
 * The benefit helpers of `CalculadoraPrevidenciaria`: unit normalisation of
 * contribution time, the grace period, hazard-time conversion, the value of
 * a claim and the minimum-contribution (carência) table.
 */
module SocialSecurity {
  import opened Wrappers
  import opened Text
  import opened Dates

  const YearUnits: seq<string> := ["ano", "anos", "year", "years"]
  const MonthUnits: seq<string> := ["mes", "meses", "month", "months"]

  /** `converter_anos_meses`: a count in the given unit, as months.  A unit that is
      neither a year nor a month alias is guessed from the value: above 50 it is
      taken to be months already, otherwise years. */
  function ToMonths(valor: int, unidade: string): (r: int)
    ensures Lower(unidade) in YearUnits ==> r == 12 * valor
    ensures Lower(unidade) !in YearUnits && Lower(unidade) in MonthUnits ==> r == valor
    ensures Lower(unidade) !in YearUnits && Lower(unidade) !in MonthUnits ==>
      r == (if valor > 50 then valor else 12 * valor)
  {
    var u := Lower(unidade);
    if u in YearUnits then valor * 12
    else if u in MonthUnits then valor
    else if valor > 50 then valor else valor * 12
  }

  /** A value stated in years and converted is the same value converted from months
      (for at least 51 years the guess for an unknown unit treats it as months). */
  lemma YearsAndMonthsAgree(anos: int)
    ensures ToMonths(anos, "anos") == ToMonths(12 * anos, "meses")
    ensures 0 <= anos <= 50 ==> ToMonths(anos, "") == ToMonths(anos, "anos")
    ensures anos > 50 ==> ToMonths(anos, "") == anos
  {
    AnosIsLower();
    MesesIsLower();
    assert Lower("") == "";
    assert "anos" in YearUnits;
    assert "meses" !in YearUnits && "meses" in MonthUnits;
    assert "" !in YearUnits && "" !in MonthUnits;
  }

  lemma AnosIsLower()
    ensures Lower("anos") == "anos"
  {
    var a := "anos";
    assert forall i :: 0 <= i < |a| ==> 'a' <= a[i] <= 'z';
    LowerKeepsLowerText(a);
  }

  lemma MesesIsLower()
    ensures Lower("meses") == "meses"
  {
    var m := "meses";
    assert forall i :: 0 <= i < |m| ==> 'a' <= m[i] <= 'z';
    LowerKeepsLowerText(m);
  }

  /** The answer of `calcular_periodo_graca`; `remaining` is absent for "rural_pura". */
  datatype GraceResult = GraceResult(elapsedDays: int, valid: bool, remaining: Option<int>)

  const GraceDays: int := 365

  /** `calcular_periodo_graca`, with today as a parameter. */
  function GracePeriod(tipoSegurado: string, ultimaContribuicao: CalendarDate, today: CalendarDate): (g: GraceResult)
    ensures g.elapsedDays == DaysBetween(ultimaContribuicao, today)
    ensures tipoSegurado == "rural_pura" ==> g.valid && g.remaining.None?
    ensures tipoSegurado != "rural_pura" ==>
      (g.valid <==> g.elapsedDays <= GraceDays) && g.remaining.Some? &&
      g.remaining.value >= 0 && (g.remaining.value == 0 <==> g.elapsedDays >= GraceDays) &&
      (g.remaining.value > 0 ==> g.elapsedDays + g.remaining.value == GraceDays)
  {
    var dias := DaysBetween(ultimaContribuicao, today);
    if tipoSegurado == "rural_pura" then GraceResult(dias, true, None)
    else
      GraceResult(dias, dias <= GraceDays, Some(if GraceDays - dias > 0 then GraceDays - dias else 0))
  }

  /** A grace period that is over leaves no days. */
  lemma ExpiredGraceLeavesNothing(tipoSegurado: string, ultima: CalendarDate, today: CalendarDate)
    requires tipoSegurado != "rural_pura"
    requires !GracePeriod(tipoSegurado, ultima, today).valid
    ensures GracePeriod(tipoSegurado, ultima, today).remaining == Some(0)
  {
  }

  /** The answer of `somar_tempos_contributivos` (all counts in months). */
  datatype TimeSum = TimeSum(rural: int, urban: int, special: int,
                             convertedMale: int, convertedFemale: int,
                             totalMale: int, totalFemale: int,
                             yearsMale: int, yearsFemale: int)

  /** `math.floor(especial * 1.4)`, on the exact decimal factor. */
  function ConvertMale(especial: int): (r: int)
    ensures 10 * r <= 14 * especial < 10 * r + 10
  {
    (especial * 14) / 10
  }

  /** `math.floor(especial * 1.2)`, on the exact decimal factor. */
  function ConvertFemale(especial: int): (r: int)
    ensures 10 * r <= 12 * especial < 10 * r + 10
  {
    (especial * 12) / 10
  }

  /** `somar_tempos_contributivos`: hazard time converted per sex, totals and whole years. */
  function SumContributionTimes(rural: int, urbano: int, especial: int): (t: TimeSum)
    ensures t.rural == rural && t.urban == urbano && t.special == especial
    ensures t.convertedMale == ConvertMale(especial) && t.convertedFemale == ConvertFemale(especial)
    ensures t.totalMale == rural + urbano + t.convertedMale
    ensures t.totalFemale == rural + urbano + t.convertedFemale
    ensures 12 * t.yearsMale <= t.totalMale < 12 * t.yearsMale + 12
    ensures 12 * t.yearsFemale <= t.totalFemale < 12 * t.yearsFemale + 12
  {
    var homem := ConvertMale(especial);
    var mulher := ConvertFemale(especial);
    TimeSum(rural, urbano, especial, homem, mulher,
            rural + urbano + homem, rural + urbano + mulher,
            (rural + urbano + homem) / 12, (rural + urbano + mulher) / 12)
  }

  /** For non-negative hazard time the male conversion is never below the female one,
      and neither is below the time itself. */
  lemma MaleConversionDominates(especial: int)
    requires especial >= 0
    ensures ConvertMale(especial) >= ConvertFemale(especial) >= especial
  {
  }

  /** Both conversions are monotone in the hazard time. */
  lemma ConversionsMonotone(a: int, b: int)
    requires a <= b
    ensures ConvertMale(a) <= ConvertMale(b)
    ensures ConvertFemale(a) <= ConvertFemale(b)
  {
  }

  /** `calcular_valor_causa` before rounding: the overdue instalments plus twelve
      future ones, or the fixed minimum when either input is not positive. */
  function ClaimValue(parcelasVencidas: int, valorMensal: real): (v: real)
    ensures parcelasVencidas <= 0 || valorMensal <= 0.0 ==> v == 1000.0
    ensures parcelasVencidas > 0 && valorMensal > 0.0 ==>
      v == (parcelasVencidas + 12) as real * valorMensal && v > 12.0 * valorMensal
  {
    if parcelasVencidas <= 0 || valorMensal <= 0.0 then 1000.0
    else
      var total := parcelasVencidas as real * valorMensal;
      total + 12.0 * valorMensal
  }

  /** Twelve overdue instalments of 2500 give 60000; none gives the minimum. */
  lemma ClaimValueExamples()
    ensures ClaimValue(12, 2500.0) == 60000.0
    ensures ClaimValue(0, 2500.0) == 1000.0
  {
  }

  /** The minimum number of contributions per benefit type. */
  const CarenciaTable: map<string, int> := map[
    "aposentadoria_invalidez" := 12,
    "aposentadoria_idade" := 180,
    "aposentadoria_tempo" := 180,
    "auxilio_doenca" := 12,
    "salario_maternidade" := 10,
    "pensao_morte" := 0,
    "bpc_loas" := 0
  ]

  datatype CarenciaResult = CarenciaResult(required: int, current: int, met: bool, missing: int)

  /** `validar_carencia_por_beneficio`: the table value, 12 for an unknown type. */
  function CheckCarencia(tipoBeneficio: string, contribuicoes: int): (c: CarenciaResult)
    ensures c.required == (if tipoBeneficio in CarenciaTable then CarenciaTable[tipoBeneficio] else 12)
    ensures c.current == contribuicoes
    ensures c.met <==> contribuicoes >= c.required
    ensures c.missing >= 0 && (c.missing == 0 <==> c.met)
    ensures !c.met ==> contribuicoes + c.missing == c.required
  {
    var necessaria := if tipoBeneficio in CarenciaTable then CarenciaTable[tipoBeneficio] else 12;
    CarenciaResult(necessaria, contribuicoes, contribuicoes >= necessaria,
                   if necessaria - contribuicoes > 0 then necessaria - contribuicoes else 0)
  }

  /** Benefits without a carência are met by any non-negative count. */
  lemma NoCarenciaBenefits(contribuicoes: int)
    requires contribuicoes >= 0
    ensures CheckCarencia("pensao_morte", contribuicoes).met
    ensures CheckCarencia("bpc_loas", contribuicoes).met
  {
  }
}
