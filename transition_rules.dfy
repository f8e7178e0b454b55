/**
 * The transition rules of Constitutional Amendment 103/2019 for retirement
 * (`CalculadoraPrevidenciariaEC103`): four independent evaluators over
 * (sex, age, contribution time now, contribution time on 13/11/2019) and
 * the selector that picks the rule to report.  The constants and the
 * arithmetic are the calculator's own: points are age plus contribution
 * time with no unit conversion, the general rule asks 20 for both sexes,
 * and `ceil(x * 0.5)` on a non-negative integer is `(x + 1) / 2`.
 */
module TransitionRules {
  import opened Wrappers
  import opened Text

  /** `sexo.lower() == "masculino"`; any other text selects the female constants. */
  predicate IsMale(sexo: string) {
    Lower(sexo) == "masculino"
  }

  datatype TollKind = Half | Full

  /** One rule's result dictionary; each field is the entry of the same meaning. */
  datatype Verdict =
    | Points(eligible: bool, currentPoints: int, requiredPoints: int, missingPoints: int,
             minimumTime: int, currentTime: int)
    | General(eligible: bool, currentAge: int, minimumAge: int, missingAge: int,
              currentTime: int, minimumTime: int, missingTime: int)
    | Toll(kind: TollKind, eligible: bool, currentAge: int, minimumAge: int, currentTime: int,
           time2019: int, missing2019: int, toll: int, totalRequired: int, stillMissing: int)

  /** Art. 15: the points rule. */
  function PointsRule(sexo: string, idade: int, tempo: int): (v: Verdict)
    ensures v.Points? && v.currentPoints == idade + tempo && v.currentTime == tempo
    ensures v.requiredPoints == (if IsMale(sexo) then 99 else 89)
    ensures v.minimumTime == (if IsMale(sexo) then 35 else 30)
    ensures v.eligible <==> idade + tempo >= v.requiredPoints
    ensures v.missingPoints >= 0 && (v.missingPoints == 0 <==> v.eligible)
    ensures !v.eligible ==> v.currentPoints + v.missingPoints == v.requiredPoints
  {
    var pontos := idade + tempo;
    var exigidos := if IsMale(sexo) then 99 else 89;
    Points(pontos >= exigidos, pontos, exigidos, Max(0, exigidos - pontos),
           if IsMale(sexo) then 35 else 30, tempo)
  }

  /** Art. 19: the general rule (minimum age, and 20 of contribution for both sexes). */
  function GeneralRule(sexo: string, idade: int, tempo: int): (v: Verdict)
    ensures v.General? && v.currentAge == idade && v.currentTime == tempo
    ensures v.minimumAge == (if IsMale(sexo) then 65 else 62) && v.minimumTime == 20
    ensures v.eligible <==> idade >= v.minimumAge && tempo >= 20
    ensures v.missingAge >= 0 && (v.missingAge == 0 <==> idade >= v.minimumAge)
    ensures v.missingTime >= 0 && (v.missingTime == 0 <==> tempo >= 20)
    ensures v.eligible <==> v.missingAge == 0 && v.missingTime == 0
    ensures v.missingAge > 0 ==> idade + v.missingAge == v.minimumAge
    ensures v.missingTime > 0 ==> tempo + v.missingTime == 20
  {
    var idadeMinima := if IsMale(sexo) then 65 else 62;
    General(idade >= idadeMinima && tempo >= 20, idade, idadeMinima, Max(0, idadeMinima - idade),
            tempo, 20, Max(0, 20 - tempo))
  }

  /** The pre-reform contribution requirement both toll rules start from. */
  function OldRequirement(sexo: string): int {
    if IsMale(sexo) then 35 else 30
  }

  /** A toll rule: the time missing on 13/11/2019, the toll on it, and the verdict. */
  function TollRule(kind: TollKind, sexo: string, idade: int, tempo: int, tempo2019: int): (v: Verdict)
    ensures v.Toll? && v.kind == kind && v.currentAge == idade && v.currentTime == tempo && v.time2019 == tempo2019
    ensures v.minimumAge == (if kind == Half then (if IsMale(sexo) then 65 else 62)
                                             else (if IsMale(sexo) then 60 else 57))
    ensures v.missing2019 >= 0 && (v.missing2019 == 0 <==> tempo2019 >= OldRequirement(sexo))
    ensures v.missing2019 > 0 ==> tempo2019 + v.missing2019 == OldRequirement(sexo)
    ensures kind == Full ==> v.toll == v.missing2019
    ensures kind == Half ==> 2 * v.toll >= v.missing2019 > 2 * v.toll - 2
    ensures v.totalRequired == OldRequirement(sexo) + v.toll
    ensures v.eligible <==> idade >= v.minimumAge && tempo >= v.totalRequired && tempo2019 > 0
    ensures v.stillMissing >= 0 && (v.stillMissing == 0 <==> tempo >= v.totalRequired)
    ensures v.stillMissing > 0 ==> tempo + v.stillMissing == v.totalRequired
  {
    var idadeMinima := if kind == Half then (if IsMale(sexo) then 65 else 62)
                       else (if IsMale(sexo) then 60 else 57);
    var antigo := OldRequirement(sexo);
    var faltante := Max(0, antigo - tempo2019);
    var pedagio := if kind == Half then (faltante + 1) / 2 else faltante;
    var total := antigo + pedagio;
    Toll(kind, idade >= idadeMinima && tempo >= total && tempo2019 > 0, idade, idadeMinima, tempo,
         tempo2019, faltante, pedagio, total, Max(0, total - tempo))
  }

  function Max(a: int, b: int): int {
    if a >= b then a else b
  }

  /** Art. 17: the 50% toll rule. */
  function Toll50Rule(sexo: string, idade: int, tempo: int, tempo2019: int): Verdict {
    TollRule(Half, sexo, idade, tempo, tempo2019)
  }

  /** Art. 20: the 100% toll rule. */
  function Toll100Rule(sexo: string, idade: int, tempo: int, tempo2019: int): Verdict {
    TollRule(Full, sexo, idade, tempo, tempo2019)
  }

  /** The four verdicts in evaluation order. */
  function AllRules(sexo: string, idade: int, tempo: int, tempo2019: int): seq<Verdict> {
    [PointsRule(sexo, idade, tempo), GeneralRule(sexo, idade, tempo),
     Toll50Rule(sexo, idade, tempo, tempo2019), Toll100Rule(sexo, idade, tempo, tempo2019)]
  }

  /** `[r for r in rules if r["elegivel"]]`: the eligible verdicts, in their order. */
  function EligibleOnly(rules: seq<Verdict>): seq<Verdict>
  {
    if rules == [] then []
    else
      var last := rules[|rules| - 1];
      EligibleOnly(rules[..|rules| - 1]) + (if last.eligible then [last] else [])
  }

  /** The filtered list holds exactly the eligible verdicts of the list, is no longer
      than it, and is the whole list when every verdict is eligible. */
  lemma {:induction false} EligibleOnlyMembers(rules: seq<Verdict>)
    ensures |EligibleOnly(rules)| <= |rules|
    ensures forall v :: v in EligibleOnly(rules) <==> v in rules && v.eligible
    ensures (forall v :: v in rules ==> v.eligible) ==> EligibleOnly(rules) == rules
  {
    if rules != [] {
      var init, last := rules[..|rules| - 1], rules[|rules| - 1];
      EligibleOnlyMembers(init);
      assert rules == init + [last];
      assert EligibleOnly(rules) == EligibleOnly(init) + (if last.eligible then [last] else []);
      if forall v :: v in rules ==> v.eligible {
        assert forall v :: v in init ==> v in rules;
        assert last in rules;
      }
    }
  }

  /** With no eligible verdict the filtered list is empty. */
  lemma {:induction false} EligibleOnlyNone(rules: seq<Verdict>)
    requires forall v :: v in rules ==> !v.eligible
    ensures EligibleOnly(rules) == []
  {
    if rules != [] {
      var init := rules[..|rules| - 1];
      assert forall v :: v in init ==> v in rules;
      EligibleOnlyNone(init);
      assert rules[|rules| - 1] in rules;
    }
  }

  /** Filtering a list extended by one verdict extends the filtered list by that verdict when it is eligible. */
  lemma EligibleOnlyAppend(rules: seq<Verdict>, v: Verdict)
    ensures EligibleOnly(rules + [v]) == EligibleOnly(rules) + (if v.eligible then [v] else [])
  {
    assert (rules + [v])[..|rules|] == rules;
  }

  /** `x.get(key, dflt)` for the three shortfall keys the selector reads. */
  function StillMissingEntry(v: Verdict): Option<int> {
    if v.Toll? then Some(v.stillMissing) else None
  }
  function MissingAgeEntry(v: Verdict): Option<int> {
    if v.General? then Some(v.missingAge) else None
  }
  function MissingPointsEntry(v: Verdict): Option<int> {
    if v.Points? then Some(v.missingPoints) else None
  }

  /** The one shortfall field a verdict carries among the three the selector reads
      (`tempo_faltante` of the general rule is not among them). */
  function SelectorShortfall(v: Verdict): int {
    match v
    case Points(_, _, _, m, _, _) => m
    case General(_, _, _, m, _, _, _) => m
    case Toll(_, _, _, _, _, _, _, _, _, m) => m
  }

  /** The selector's key: the three `get`s with a default, summed. */
  function SelectorKey(v: Verdict, dflt: int): (k: int)
    ensures k == 2 * dflt + SelectorShortfall(v)
  {
    StillMissingEntry(v).GetOr(dflt) + MissingAgeEntry(v).GetOr(dflt) + MissingPointsEntry(v).GetOr(dflt)
  }

  /** Python's `min(s, key=...)`: the first position holding the smallest key. */
  function FirstMinIndex(s: seq<Verdict>, dflt: int): (i: nat)
    requires |s| > 0
    ensures i < |s|
    ensures forall j :: 0 <= j < |s| ==> SelectorKey(s[i], dflt) <= SelectorKey(s[j], dflt)
    ensures forall j :: 0 <= j < i ==> SelectorKey(s[j], dflt) > SelectorKey(s[i], dflt)
  {
    if |s| == 1 then 0
    else
      var k := FirstMinIndex(s[..|s| - 1], dflt);
      if SelectorKey(s[|s| - 1], dflt) < SelectorKey(s[k], dflt) then |s| - 1 else k
  }

  /** The selector's answer: nothing for an empty list, else the chosen verdict,
      flagged `status = "mais_proxima"` when it was chosen among ineligible ones. */
  datatype Best = NoRuleFound | Chosen(verdict: Verdict, closest: bool)

  /** `_encontrar_melhor_regra`. */
  function BestRule(rules: seq<Verdict>): (b: Best)
    ensures b.NoRuleFound? <==> rules == []
    ensures b.Chosen? ==> b.verdict in rules
    ensures b.Chosen? ==> (b.closest <==> forall v :: v in rules ==> !v.eligible)
    ensures b.Chosen? && !b.closest ==> b.verdict.eligible
  {
    if rules == [] then NoRuleFound
    else
      EligibleOnlyMembers(rules);
      var elegiveis := EligibleOnly(rules);
      if elegiveis != [] then
        Chosen(elegiveis[FirstMinIndex(elegiveis, 0)], false)
      else
        Chosen(rules[FirstMinIndex(rules, 999)], true)
  }

  /** The whole answer of `calcular_regra_transicao`. */
  datatype Report = Report(best: Best, all: seq<Verdict>, eligible: seq<Verdict>,
                           totalEligible: nat, totalAnalysed: nat)

  /** `calcular_regra_transicao`: evaluate the four rules in order, collecting
      every verdict and the eligible ones, then select. */
  method EvaluateTransitionRules(sexo: string, idade: int, tempo: int, tempo2019: int)
    returns (report: Report)
    ensures report.all == AllRules(sexo, idade, tempo, tempo2019)
    ensures report.totalAnalysed == 4
    ensures report.eligible == EligibleOnly(report.all)
    ensures report.totalEligible == |report.eligible|
    ensures report.best == BestRule(report.all)
  {
    var todas: seq<Verdict> := [];
    var elegiveis: seq<Verdict> := [];
    var pontos := PointsRule(sexo, idade, tempo);
    todas, elegiveis := Append(todas, elegiveis, pontos);
    var geral := GeneralRule(sexo, idade, tempo);
    todas, elegiveis := Append(todas, elegiveis, geral);
    var pedagio50 := Toll50Rule(sexo, idade, tempo, tempo2019);
    todas, elegiveis := Append(todas, elegiveis, pedagio50);
    var pedagio100 := Toll100Rule(sexo, idade, tempo, tempo2019);
    todas, elegiveis := Append(todas, elegiveis, pedagio100);
    assert todas == [pontos, geral, pedagio50, pedagio100];
    report := Report(BestRule(todas), todas, elegiveis, |elegiveis|, |todas|);
  }

  /** One step of `calcular_regra_transicao`: append the verdict to `todas_regras`,
      and to `regras_elegiveis` when it is eligible. */
  method Append(todas: seq<Verdict>, elegiveis: seq<Verdict>, v: Verdict)
    returns (todas': seq<Verdict>, elegiveis': seq<Verdict>)
    requires elegiveis == EligibleOnly(todas)
    ensures todas' == todas + [v]
    ensures elegiveis' == EligibleOnly(todas')
  {
    EligibleOnlyAppend(todas, v);
    todas' := todas + [v];
    elegiveis' := if v.eligible then elegiveis + [v] else elegiveis;
  }

  /** An evaluated verdict that is eligible has nothing missing, so its key is 0. */
  lemma EligibleKeyIsZero(sexo: string, idade: int, tempo: int, tempo2019: int)
    ensures forall v :: v in AllRules(sexo, idade, tempo, tempo2019) && v.eligible ==> SelectorKey(v, 0) == 0
  {
  }

  /** The filtered list starts with the first eligible verdict. */
  lemma {:induction false} EligibleOnlyStartsWithFirst(rules: seq<Verdict>, k: int)
    requires 0 <= k < |rules| && rules[k].eligible
    requires forall j :: 0 <= j < k ==> !rules[j].eligible
    ensures EligibleOnly(rules) != [] && EligibleOnly(rules)[0] == rules[k]
  {
    var init := rules[..|rules| - 1];
    if k < |rules| - 1 {
      EligibleOnlyStartsWithFirst(init, k);
    } else {
      assert forall v :: v in init ==> !v.eligible;
      EligibleOnlyNone(init);
    }
  }

  /** When some rule is eligible the selector returns the first eligible one in evaluation order. */
  lemma BestIsFirstEligible(sexo: string, idade: int, tempo: int, tempo2019: int, k: int)
    requires var rules := AllRules(sexo, idade, tempo, tempo2019);
      0 <= k < 4 && rules[k].eligible && forall j :: 0 <= j < k ==> !rules[j].eligible
    ensures BestRule(AllRules(sexo, idade, tempo, tempo2019)) ==
            Chosen(AllRules(sexo, idade, tempo, tempo2019)[k], false)
  {
    var rules := AllRules(sexo, idade, tempo, tempo2019);
    var e := EligibleOnly(rules);
    EligibleKeyIsZero(sexo, idade, tempo, tempo2019);
    EligibleOnlyMembers(rules);
    EligibleOnlyStartsWithFirst(rules, k);
    var i := FirstMinIndex(e, 0);
    assert SelectorKey(e[0], 0) == 0 == SelectorKey(e[i], 0);
  }

  /** When no rule is eligible, the selector returns, flagged as the closest,
      the first verdict whose single shortfall field is smallest: each key is 1998 plus it. */
  lemma ClosestRuleHasSmallestShortfall(rules: seq<Verdict>)
    requires rules != [] && forall v :: v in rules ==> !v.eligible
    ensures BestRule(rules).closest
    ensures exists i :: (0 <= i < |rules| && BestRule(rules).verdict == rules[i] &&
      (forall j :: 0 <= j < |rules| ==> SelectorShortfall(rules[i]) <= SelectorShortfall(rules[j])) &&
      (forall j :: 0 <= j < i ==> SelectorShortfall(rules[j]) > SelectorShortfall(rules[i])))
  {
    var i := FirstMinIndex(rules, 999);
    assert BestRule(rules).verdict == rules[i];
  }

  /** For the same profile the 100% toll never asks for less total time than the 50% toll. */
  lemma FullTollNeedsAtLeastHalfToll(sexo: string, idade: int, tempo: int, tempo2019: int)
    ensures Toll100Rule(sexo, idade, tempo, tempo2019).totalRequired >=
            Toll50Rule(sexo, idade, tempo, tempo2019).totalRequired
  {
  }

  /** Without contribution time on 13/11/2019 neither toll rule is ever eligible. */
  lemma NoTimeIn2019MeansNoToll(sexo: string, idade: int, tempo: int)
    ensures !Toll50Rule(sexo, idade, tempo, 0).eligible
    ensures !Toll100Rule(sexo, idade, tempo, 0).eligible
  {
  }

  /** The text "masculino" selects the male constants. */
  lemma MasculinoIsMale()
    ensures IsMale("masculino")
  {
    var m := "masculino";
    assert forall i :: 0 <= i < |m| ==> 'a' <= m[i] <= 'z';
    LowerKeepsLowerText(m);
  }

  /** A man (`sexo` is "masculino" in any letter case, see `MasculinoIsMale`)
      aged 65 with 240 of contribution and none on 13/11/2019: the general rule
      is eligible and both tolls are not, but the points rule (65 + 240 >= 99)
      is eligible too and comes first, so it is the one selected. */
  lemma MaleAt65With240(sexo: string)
    requires IsMale(sexo)
    ensures var rules := AllRules(sexo, 65, 240, 0);
      rules[1].eligible && !rules[2].eligible && !rules[3].eligible &&
      BestRule(rules) == Chosen(PointsRule(sexo, 65, 240), false)
  {
    var p := PointsRule(sexo, 65, 240);
    var g := GeneralRule(sexo, 65, 240);
    assert p.eligible && g.eligible;
    NoTimeIn2019MeansNoToll(sexo, 65, 240);
    BestIsFirstEligible(sexo, 65, 240, 0, 0);
  }
}
