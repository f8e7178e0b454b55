// Models app/core/validators/juridico_validator.py (`ValidadorJuridico`):
// date ordering against a birth event, the grace-period test, the special-time
// unit heuristic, the rural/urban classifier and the document check.

module LegalValidation {
  import opened Wrappers
  import opened Text
  import opened Dates
  import SocialSecurity

  /** The longest distance, in days, allowed between the DIB and a birth. */
  const BirthTolerance: int := 1

  /** `validar_datas`. The `data_parto` entry of `eventos` is absent, a date,
      or text to be parsed; text that does not parse makes the answer false. */
  function ValidateDates(dib: CalendarDate, der: CalendarDate, dataParto: DateField,
                         parse: string -> Option<CalendarDate>): (ok: bool)
    ensures Before(der, dib) ==> !ok
    ensures !Before(der, dib) && dataParto.Absent? ==> ok
    ensures !Before(der, dib) && !dataParto.Absent? ==>
      (ok <==> Resolve(dataParto, parse).Found? &&
               -BirthTolerance <= DaysBetween(Resolve(dataParto, parse).date, dib) <= BirthTolerance)
  {
    if Before(der, dib) then false
    else match Resolve(dataParto, parse)
      case Missing => true
      case Unparsable => false
      case Found(parto) =>
        var dias := DaysBetween(parto, dib);
        !(dias > BirthTolerance || -dias > BirthTolerance)
  }

  /** `validar_datas` rejects a DIB after the DER, while
      `validar_consistencia_datas_previdenciarias` flags a DER after the DIB:
      for distinct dates and no birth event, the first accepts exactly the
      pairs that the second flags. */
  lemma DateOrderChecksAreOpposite(dib: CalendarDate, der: CalendarDate, parse: string -> Option<CalendarDate>)
    requires dib != der
    ensures ValidateDates(dib, der, Absent, parse) <==> Before(dib, der)
  {
  }

  /** `calcular_periodo_graca`: still in the grace period unless more than
      365 days separate the last activity from the event. */
  function GracePeriodHolds(ultimaAtividade: CalendarDate, evento: CalendarDate): (ok: bool)
    ensures ok <==> DaysBetween(ultimaAtividade, evento) <= SocialSecurity.GraceDays
  {
    !(DaysBetween(ultimaAtividade, evento) > 365)
  }

  /** The two grace-period calculators agree on every insured type other than
      "rural_pura"; an event exactly 365 days later is still inside. */
  lemma GracePeriodsAgree(tipoSegurado: string, ultima: CalendarDate, evento: CalendarDate)
    requires tipoSegurado != "rural_pura"
    ensures GracePeriodHolds(ultima, evento) == SocialSecurity.GracePeriod(tipoSegurado, ultima, evento).valid
    ensures DaysBetween(ultima, evento) == 365 ==> GracePeriodHolds(ultima, evento)
  {
  }

  /** `converter_tempo_especial`: a value above 100 is taken to be months already. */
  function ConvertSpecialTime(anos: int): (meses: int)
    ensures anos > 100 ==> meses == anos
    ensures anos <= 100 ==> meses == 12 * anos
  {
    if anos > 100 then anos else anos * 12
  }

  /** This heuristic and `converter_anos_meses` (threshold 50) disagree exactly
      on 51..100 for a unit that is neither years nor months. */
  lemma UnitHeuristicsDisagree(valor: int, unidade: string)
    requires Lower(unidade) !in SocialSecurity.YearUnits && Lower(unidade) !in SocialSecurity.MonthUnits
    ensures ConvertSpecialTime(valor) != SocialSecurity.ToMonths(valor, unidade) <==> 51 <= valor <= 100
  {
  }

  const UrbanTerms: seq<string> := ["carteira", "clt", "empresa", "salário", "contribuição"]
  const RuralTerms: seq<string> := ["rural", "agricultura", "fazenda", "roça", "campo"]

  /** `classificar_segurado`. */
  function ClassifyInsured(historico: string): (tipo: string)
    ensures tipo in ["hibrida", "rural_pura", "urbano"]
    ensures tipo == "hibrida" <==> ContainsAny(Lower(historico), RuralTerms) && ContainsAny(Lower(historico), UrbanTerms)
    ensures tipo == "rural_pura" <==> ContainsAny(Lower(historico), RuralTerms) && !ContainsAny(Lower(historico), UrbanTerms)
    ensures tipo == "urbano" <==> !ContainsAny(Lower(historico), RuralTerms)
  {
    var historicoLower := Lower(historico);
    var temUrbano := ContainsAny(historicoLower, UrbanTerms);
    var temRural := ContainsAny(historicoLower, RuralTerms);
    if temRural && temUrbano then "hibrida"
    else if temRural then "rural_pura"
    else "urbano"
  }

  /** The classification ignores letter case. */
  lemma ClassificationIgnoresCase(historico: string)
    ensures ClassifyInsured(Lower(historico)) == ClassifyInsured(historico)
  {
    LowerIdempotent(historico);
  }

  lemma ContainsAnyExtends(a: string, b: string, terms: seq<string>)
    requires ContainsAny(a, terms)
    ensures ContainsAny(a + b, terms)
  {
    var i :| 0 <= i < |terms| && Contains(a, terms[i]);
    ContainsExtends(a, b, terms[i]);
  }

  /** More history never loses a term already found: a rural history stays
      rural, and a mixed one stays mixed. */
  lemma LongerHistoryKeepsTerms(historico: string, mais: string)
    ensures ClassifyInsured(historico) != "urbano" ==> ClassifyInsured(historico + mais) != "urbano"
    ensures ClassifyInsured(historico) == "hibrida" ==> ClassifyInsured(historico + mais) == "hibrida"
  {
    LowerConcat(historico, mais);
    if ContainsAny(Lower(historico), RuralTerms) {
      ContainsAnyExtends(Lower(historico), Lower(mais), RuralTerms);
    }
    if ContainsAny(Lower(historico), UrbanTerms) {
      ContainsAnyExtends(Lower(historico), Lower(mais), UrbanTerms);
    }
  }

  /** Some document mentions the CNIS, in any letter case. */
  predicate MentionsCnis(documentos: seq<string>) {
    exists i :: 0 <= i < |documentos| && Contains(Lower(documentos[i]), "cnis")
  }

  /** `validar_documentos_por_tipo_segurado`. */
  function DocumentsAccepted(tipoSegurado: string, documentos: seq<string>): (ok: bool)
    ensures !ok <==> tipoSegurado == "rural_pura" && MentionsCnis(documentos)
  {
    !(tipoSegurado == "rural_pura" && MentionsCnis(documentos))
  }

  /** A list of documents is accepted exactly when each part of it is. */
  lemma DocumentsAcceptedPiecewise(tipoSegurado: string, a: seq<string>, b: seq<string>)
    ensures DocumentsAccepted(tipoSegurado, a + b) <==>
              DocumentsAccepted(tipoSegurado, a) && DocumentsAccepted(tipoSegurado, b)
  {
    if MentionsCnis(a) {
      var i :| 0 <= i < |a| && Contains(Lower(a[i]), "cnis");
      assert (a + b)[i] == a[i];
    }
    if MentionsCnis(b) {
      var i :| 0 <= i < |b| && Contains(Lower(b[i]), "cnis");
      assert (a + b)[|a| + i] == b[i];
    }
    if MentionsCnis(a + b) {
      var i :| 0 <= i < |a + b| && Contains(Lower((a + b)[i]), "cnis");
      if i < |a| {
        assert a[i] == (a + b)[i];
      } else {
        assert b[i - |a|] == (a + b)[i];
      }
    }
  }
}
