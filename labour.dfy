// Models app/core/calculators/trabalhista_calculator.py (`CalculadoraTrabalhista`):
// overtime, the unhealthy-work supplement and FGTS with the termination fine.
// Money is `real`; the two-decimal rounding of the answers is not modelled.

module Labour {
  import opened Text

  // ---------------------------------------------------------- Overtime

  /** The answer of `calcular_horas_extras`. */
  datatype Overtime =
    | NoOvertime
    | Overtime(dailyHours: int, totalHours: int, hourRate: real, overtimeRate: real, total: real)

  /** The CLT's 50% supplement on an overtime hour. */
  const OvertimeFactor: real := 1.5

  /** `calcular_horas_extras`. */
  function ComputeOvertime(jornadaContratual: int, jornadaReal: int, diasTrabalhados: int, valorHora: real): (o: Overtime)
    ensures o.NoOvertime? <==> jornadaReal <= jornadaContratual
    ensures o.Overtime? ==>
      && o.dailyHours == jornadaReal - jornadaContratual > 0
      && o.totalHours == o.dailyHours * diasTrabalhados
      && o.hourRate == valorHora
      && o.overtimeRate == OvertimeFactor * valorHora
      && o.total == (o.totalHours as real) * o.overtimeRate
  {
    if jornadaReal <= jornadaContratual then NoOvertime
    else
      var horasExtrasDiarias := jornadaReal - jornadaContratual;
      var totalHorasExtras := horasExtrasDiarias * diasTrabalhados;
      var valorHoraExtra := valorHora * 1.5;
      Overtime(horasExtrasDiarias, totalHorasExtras, valorHora, valorHoraExtra, (totalHorasExtras as real) * valorHoraExtra)
  }

  /** The `valor_total` of the answer (0 when there is no overtime). */
  function OvertimeValue(o: Overtime): real {
    if o.NoOvertime? then 0.0 else o.total
  }

  /** Each extra hour is paid at one and a half times the normal rate. */
  lemma OvertimeValueFormula(jornadaContratual: int, jornadaReal: int, diasTrabalhados: int, valorHora: real)
    requires jornadaReal > jornadaContratual
    ensures OvertimeValue(ComputeOvertime(jornadaContratual, jornadaReal, diasTrabalhados, valorHora)) ==
            ((jornadaReal - jornadaContratual) * diasTrabalhados) as real * valorHora * 3.0 / 2.0
  {
  }

  /** Working longer days never lowers the overtime pay. */
  lemma OvertimeMonotone(jornadaContratual: int, r1: int, r2: int, diasTrabalhados: int, valorHora: real)
    requires r1 <= r2 && diasTrabalhados >= 0 && valorHora >= 0.0
    ensures OvertimeValue(ComputeOvertime(jornadaContratual, r1, diasTrabalhados, valorHora)) <=
            OvertimeValue(ComputeOvertime(jornadaContratual, r2, diasTrabalhados, valorHora))
  {
    if r2 > jornadaContratual {
      var h2 := (r2 - jornadaContratual) * diasTrabalhados;
      assert h2 >= 0;
      assert (h2 as real) * (valorHora * 1.5) >= 0.0;
      if r1 > jornadaContratual {
        var h1 := (r1 - jornadaContratual) * diasTrabalhados;
        assert h1 <= h2 by {
          assert h2 - h1 == (r2 - r1) * diasTrabalhados;
        }
        assert (h2 - h1) as real * (valorHora * 1.5) >= 0.0;
      }
    }
  }

  // ----------------------------------------------------- Insalubridade

  /** The minimum wage the code uses as the base of the supplement, whatever the employee earns. */
  const MinimumWage: real := 1320.0

  /** `percentuais.get(grau.lower(), 0.20)`. */
  function InsalubrityRate(grau: string): (p: real)
    ensures p == 0.10 || p == 0.20 || p == 0.40
    ensures Lower(grau) == "minimo" <==> p == 0.10
    ensures Lower(grau) == "maximo" <==> p == 0.40
  {
    var g := Lower(grau);
    if g == "minimo" then 0.10
    else if g == "medio" then 0.20
    else if g == "maximo" then 0.40
    else 0.20
  }

  /** The answer of `calcular_adicional_insalubridade`. */
  datatype Insalubrity = Insalubrity(grade: string, rate: real, base: real, monthly: real)

  /** `calcular_adicional_insalubridade` (art. 192 of the CLT). */
  function ComputeInsalubrity(salarioBase: real, grau: string): (r: Insalubrity)
    ensures r.grade == grau && r.base == MinimumWage
    ensures r.rate == InsalubrityRate(grau) && r.monthly == MinimumWage * r.rate
    ensures r.monthly == 132.0 || r.monthly == 264.0 || r.monthly == 528.0
  {
    var percentual := InsalubrityRate(grau);
    Insalubrity(grau, percentual, 1320.0, 1320.0 * percentual)
  }

  /** The employee's own salary plays no part in the supplement. */
  lemma InsalubrityIgnoresSalary(s1: real, s2: real, grau: string)
    ensures ComputeInsalubrity(s1, grau) == ComputeInsalubrity(s2, grau)
  {
  }

  /** An unknown grade is paid as the medium grade, 20% of the minimum wage. */
  lemma UnknownGradeIsMedium(salarioBase: real, grau: string)
    requires Lower(grau) != "minimo" && Lower(grau) != "maximo"
    ensures ComputeInsalubrity(salarioBase, grau).monthly == 264.0
  {
  }

  // ---------------------------------------------------------- FGTS

  /** Python's `sum(xs)`. */
  function Sum(xs: seq<real>): real {
    if xs == [] then 0.0 else Sum(xs[..|xs| - 1]) + xs[|xs| - 1]
  }

  lemma {:induction false} SumConcat(a: seq<real>, b: seq<real>)
    ensures Sum(a + b) == Sum(a) + Sum(b)
    decreases |b|
  {
    if b == [] {
      assert a + b == a;
    } else {
      assert (a + b)[..|a + b| - 1] == a + b[..|b| - 1];
      SumConcat(a, b[..|b| - 1]);
    }
  }

  /** The monthly deposit rate, 8% (art. 15 of Lei 8.036/1990). */
  const DepositRate: real := 0.08
  /** The fine on a dismissal without cause, 40% (paragraph 1 of article 18 of Lei 8.036/1990). */
  const FineRate: real := 0.40

  /** The terminations that carry the fine (and, in the full calculator, notice pay). */
  predicate WithoutCause(tipoRescisao: string) {
    tipoRescisao == "sem_justa_causa" || tipoRescisao == "rescisao_indireta"
  }

  /** The answer of `calcular_fgts_multa`; it has no `valor_total` field. */
  datatype Fgts = Fgts(salaries: real, deposits: real, fine: real, total: real)

  /** `calcular_fgts_multa`. */
  function ComputeFgts(salariosPeriodo: seq<real>, tipoRescisao: string): (f: Fgts)
    ensures f.salaries == Sum(salariosPeriodo)
    ensures f.deposits == DepositRate * f.salaries
    ensures WithoutCause(tipoRescisao) ==> f.fine == FineRate * f.deposits
    ensures !WithoutCause(tipoRescisao) ==> f.fine == 0.0
    ensures f.total == f.deposits + f.fine
  {
    var totalSalarios := Sum(salariosPeriodo);
    var fgts := totalSalarios * 0.08;
    var multaPercentual := if tipoRescisao == "sem_justa_causa" then 0.40
                           else if tipoRescisao == "rescisao_indireta" then 0.40
                           else 0.00;
    var multa := fgts * multaPercentual;
    Fgts(totalSalarios, fgts, multa, fgts + multa)
  }

  /** No salaries, no FGTS, no fine. */
  lemma EmptyPeriodOwesNothing(tipoRescisao: string)
    ensures ComputeFgts([], tipoRescisao) == Fgts(0.0, 0.0, 0.0, 0.0)
  {
  }

  /** FGTS and fine over two consecutive periods add up to those over the whole. */
  lemma FgtsAdditive(a: seq<real>, b: seq<real>, tipoRescisao: string)
    ensures ComputeFgts(a + b, tipoRescisao).total ==
            ComputeFgts(a, tipoRescisao).total + ComputeFgts(b, tipoRescisao).total
  {
    SumConcat(a, b);
  }

  /** With the fine the total is 11.2% of the salaries, otherwise 8%. */
  lemma FgtsTotalRate(salariosPeriodo: seq<real>, tipoRescisao: string)
    ensures WithoutCause(tipoRescisao) ==> ComputeFgts(salariosPeriodo, tipoRescisao).total == 0.112 * Sum(salariosPeriodo)
    ensures !WithoutCause(tipoRescisao) ==> ComputeFgts(salariosPeriodo, tipoRescisao).total == 0.08 * Sum(salariosPeriodo)
  {
  }
}
