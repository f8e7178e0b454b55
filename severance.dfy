// Models app/core/calculators/trabalhista_completa_calculator.py
// (`CalculadoraTrabalhistaCompleta`): notice pay, proportional vacation and the
// assembly of all severance entries into one total.

module Severance {
  import opened Wrappers
  import opened Dates
  import Labour

  // ------------------------------------------------------- Notice pay

  /** The answer of `_calcular_aviso_previo`. */
  datatype Notice = NoNotice | Notice(days: int, dailyValue: real, total: real)

  /** The notice days of art. 1 of Lei 12.506/2011: 30, plus 3 per year worked, at most 90. */
  function NoticeDays(anosTrabalhados: int): (dias: int)
    ensures dias <= 90 && dias <= 30 + 3 * anosTrabalhados
    ensures dias == 90 || dias == 30 + 3 * anosTrabalhados
    ensures 30 + 3 * anosTrabalhados >= 90 ==> dias == 90
  {
    if 30 + anosTrabalhados * 3 < 90 then 30 + anosTrabalhados * 3 else 90
  }

  /** A service of at least zero years gets between 30 and 90 days, the cap being reached at 20 years. */
  lemma NoticeDaysRange(anos: int)
    requires anos >= 0
    ensures 30 <= NoticeDays(anos) <= 90
    ensures NoticeDays(anos) == 90 <==> anos >= 20
  {
  }

  /** Longer service never shortens the notice. */
  lemma NoticeDaysMonotone(a: int, b: int)
    requires a <= b
    ensures NoticeDays(a) <= NoticeDays(b)
  {
  }

  /** `_calcular_aviso_previo`. */
  function ComputeNotice(salario: real, anosTrabalhados: int, tipoRescisao: string): (n: Notice)
    ensures n.NoNotice? <==> !Labour.WithoutCause(tipoRescisao)
    ensures n.Notice? ==> n.days == NoticeDays(anosTrabalhados) && n.dailyValue == salario / 30.0
    ensures n.Notice? ==> n.total * 30.0 == salario * (n.days as real)
  {
    if tipoRescisao !in ["sem_justa_causa", "rescisao_indireta"] then NoNotice
    else
      var diasAviso := NoticeDays(anosTrabalhados);
      Notice(diasAviso, salario / 30.0, (salario / 30.0) * (diasAviso as real))
  }

  /** The `valor_total` of the notice answer. */
  function NoticeValue(n: Notice): real {
    if n.NoNotice? then 0.0 else n.total
  }

  /** From 20 years of service on, the notice pays three monthly salaries. */
  lemma LongServiceNoticeIsThreeSalaries(salario: real, anos: int, tipoRescisao: string)
    requires anos >= 20 && Labour.WithoutCause(tipoRescisao)
    ensures NoticeValue(ComputeNotice(salario, anos, tipoRescisao)) == 3.0 * salario
  {
  }

  // ------------------------------------------------------------ Vacation

  /** The answer of `_calcular_ferias_proporcionais`. */
  datatype Vacation = Vacation(months: int, proportional: real, third: real, total: real)

  /** Proportional vacation for `meses` whole months: 1/12 of the salary per
      month, plus the constitutional third. */
  function VacationForMonths(salario: real, meses: int): (v: Vacation)
    ensures v.months == meses
    ensures v.proportional * 12.0 == salario * (meses as real)
    ensures v.third * 3.0 == v.proportional
    ensures v.total == v.proportional + v.third
  {
    var feriasProporcionais := (salario / 12.0) * (meses as real);
    var umTerco := feriasProporcionais / 3.0;
    Vacation(meses, feriasProporcionais, umTerco, feriasProporcionais + umTerco)
  }

  /** `_calcular_ferias_proporcionais`: the whole 30-day months since
      admission, priced by `VacationForMonths`. */
  function ComputeVacation(salario: real, dataAdmissao: CalendarDate, dataRescisao: CalendarDate): (v: Vacation)
    ensures 30 * v.months <= DaysBetween(dataAdmissao, dataRescisao) < 30 * v.months + 30
    ensures v == VacationForMonths(salario, v.months)
  {
    var mesesPeriodoAtual := DaysBetween(dataAdmissao, dataRescisao) / 30;
    VacationForMonths(salario, mesesPeriodoAtual)
  }

  /** With the third added, each month of service is worth 1/9 of the salary. */
  lemma VacationIsANinthPerMonth(salario: real, meses: int)
    ensures VacationForMonths(salario, meses).total * 9.0 == salario * (meses as real)
  {
  }

  // --------------------------------------------------- All entries and total

  /** One value of the `verbas` dict: a dict, with or without a `valor_total`
      key, or something else, which the total skips. */
  datatype Entry = Record(valorTotal: Option<real>) | NotARecord

  /** `verba.get("valor_total", 0)` for a dict, nothing for anything else. */
  function Contribution(e: Entry): real {
    match e
    case Record(v) => v.GetOr(0.0)
    case NotARecord => 0.0
  }

  /** The sum of the contributions of `entries`. */
  function Total(entries: seq<Entry>): real {
    if entries == [] then 0.0 else Total(entries[..|entries| - 1]) + Contribution(entries[|entries| - 1])
  }

  /** The service time computed by `_calcular_tempo_servico`. */
  datatype ServiceTime = ServiceTime(years: int, months: int)

  /** The answer of `calcular_verbas_rescisorias_completas`. */
  datatype Severance = Severance(keys: seq<string>, entries: seq<Entry>, fgts: Labour.Fgts,
                                 service: ServiceTime, total: real, terminationType: string)

  const EntryKeys: seq<string> := ["saldo_salario", "aviso_previo", "decimo_terceiro", "ferias", "fgts", "seguro_desemprego"]

  /** `[salario] * n`: empty for n <= 0. */
  function Repeat(salario: real, n: int): (r: seq<real>)
    ensures |r| == if n <= 0 then 0 else n
    ensures forall i :: 0 <= i < |r| ==> r[i] == salario
  {
    if n <= 0 then [] else seq(n, _ => salario)
  }

  lemma {:induction false} SumRepeat(salario: real, n: nat)
    ensures Labour.Sum(Repeat(salario, n)) == (n as real) * salario
  {
    if n > 0 {
      assert Repeat(salario, n)[..n - 1] == Repeat(salario, n - 1);
      SumRepeat(salario, n - 1);
    }
  }

  /** `calcular_verbas_rescisorias_completas`. The helpers whose code is not
      part of this model (`_calcular_tempo_servico`, `_calcular_saldo_salario`,
      `_calcular_decimo_terceiro`, `_calcular_seguro_desemprego`) are given as
      their results. A missing salary counts as 0 and a missing termination
      type as "sem_justa_causa". */
  method ComputeSeverance(salarioDado: Option<real>, tipoDado: Option<string>,
                          dataAdmissao: CalendarDate, dataRescisao: CalendarDate,
                          tempoServico: ServiceTime, saldoSalario: Entry,
                          decimoTerceiro: Entry, seguroDesemprego: Entry)
    returns (r: Severance)
    ensures var salario, tipo := salarioDado.GetOr(0.0), tipoDado.GetOr("sem_justa_causa");
      && r.keys == EntryKeys && |r.entries| == |EntryKeys|
      && r.entries[0] == saldoSalario
      && r.entries[1] == Record(Some(NoticeValue(ComputeNotice(salario, tempoServico.years, tipo))))
      && r.entries[2] == decimoTerceiro
      && r.entries[3] == Record(Some(ComputeVacation(salario, dataAdmissao, dataRescisao).total))
      && r.entries[4] == Record(None)
      && r.entries[5] == seguroDesemprego
      && r.fgts == Labour.ComputeFgts(Repeat(salario, tempoServico.months), tipo)
      && r.total == Total(r.entries)
      && r.total == Contribution(saldoSalario) + NoticeValue(ComputeNotice(salario, tempoServico.years, tipo))
                    + Contribution(decimoTerceiro) + ComputeVacation(salario, dataAdmissao, dataRescisao).total
                    + Contribution(seguroDesemprego)
      && r.service == tempoServico && r.terminationType == tipo
  {
    var salario := salarioDado.GetOr(0.0);
    var tipoRescisao := tipoDado.GetOr("sem_justa_causa");
    var keys: seq<string> := [];
    var verbas: seq<Entry> := [];
    keys, verbas := keys + ["saldo_salario"], verbas + [saldoSalario];
    keys, verbas := keys + ["aviso_previo"], verbas + [Record(Some(NoticeValue(ComputeNotice(salario, tempoServico.years, tipoRescisao))))];
    keys, verbas := keys + ["decimo_terceiro"], verbas + [decimoTerceiro];
    keys, verbas := keys + ["ferias"], verbas + [Record(Some(ComputeVacation(salario, dataAdmissao, dataRescisao).total))];
    var fgts := Labour.ComputeFgts(Repeat(salario, tempoServico.months), tipoRescisao);
    // the FGTS answer carries `total_fgts_multa`, not `valor_total`
    keys, verbas := keys + ["fgts"], verbas + [Record(None)];
    keys, verbas := keys + ["seguro_desemprego"], verbas + [seguroDesemprego];

    var totalVerbas := 0.0;
    var i := 0;
    while i < |verbas|
      invariant 0 <= i <= |verbas|
      invariant totalVerbas == Total(verbas[..i])
    {
      assert verbas[..i + 1][..i] == verbas[..i];
      totalVerbas := totalVerbas + Contribution(verbas[i]);
      i := i + 1;
    }
    assert verbas[..i] == verbas;
    TotalLeavesOutFgts(verbas);
    r := Severance(keys, verbas, fgts, tempoServico, totalVerbas, tipoRescisao);
  }

  /** The total is saldo + notice + 13th + vacation + unemployment insurance:
      the FGTS deposits and the 40% fine never enter it. */
  lemma TotalLeavesOutFgts(entries: seq<Entry>)
    requires |entries| == 6 && entries[4] == Record(None)
    ensures Total(entries) == Contribution(entries[0]) + Contribution(entries[1]) + Contribution(entries[2])
                              + Contribution(entries[3]) + Contribution(entries[5])
  {
    assert entries[..6] == entries;
    assert entries[..5][..4] == entries[..4];
    assert entries[..4][..3] == entries[..3];
    assert entries[..3][..2] == entries[..2];
    assert entries[..2][..1] == entries[..1];
    assert entries[..1][..0] == [];
    assert Total(entries[..1]) == Contribution(entries[0]);
    assert Total(entries[..2]) == Total(entries[..1]) + Contribution(entries[1]);
    assert Total(entries[..3]) == Total(entries[..2]) + Contribution(entries[2]);
    assert Total(entries[..4]) == Total(entries[..3]) + Contribution(entries[3]);
    assert Total(entries[..5]) == Total(entries[..4]);
    assert Total(entries) == Total(entries[..5]) + Contribution(entries[5]);
  }

  /** The FGTS entry is computed over one salary per month of service. */
  lemma FgtsOverMonthsOfService(salario: real, meses: int, tipoRescisao: string)
    requires meses >= 0
    ensures Labour.ComputeFgts(Repeat(salario, meses), tipoRescisao).deposits == 0.08 * (meses as real) * salario
  {
    SumRepeat(salario, meses);
  }
}
