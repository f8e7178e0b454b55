// Models app/services/feedback_service.py (`FeedbackService`): the in-memory
// log of lawyers' corrections, the patterns extracted from it, the approval
// rate and the quality report with its ranked recommendations.

module Feedback {
  import opened Wrappers

  // ------------------------------------------------------------ Log

  /** One element of a `correcoes` list: a dict, whose "tipo" and "sugestao"
      keys may be missing, or a value of another kind, on which `.get` raises. */
  datatype Correction = Record(tipo: Option<string>, sugestao: Option<string>) | NotARecord

  /** One entry of `feedback_data`. `approved` stands for a truthy "aprovado"
      key; entries without the key (all those `registrar_correcao` makes) are
      not approved. A missing "correcoes" key is an empty list. */
  datatype FeedbackEntry = FeedbackEntry(peticaoId: int, timestamp: string,
                                         correcoes: seq<Correction>, tipo: string, approved: bool)

  /** Every correction of the log, entry by entry, in order. */
  function AllCorrections(log: seq<FeedbackEntry>): seq<Correction> {
    if log == [] then [] else AllCorrections(log[..|log| - 1]) + log[|log| - 1].correcoes
  }

  lemma AllCorrectionsStep(log: seq<FeedbackEntry>, i: int)
    requires 0 <= i < |log|
    ensures AllCorrections(log[..i + 1]) == AllCorrections(log[..i]) + log[i].correcoes
  {
    assert log[..i + 1][..i] == log[..i];
  }

  /** The corrections of the first `i` entries come first. */
  lemma {:induction false} AllCorrectionsPrefix(log: seq<FeedbackEntry>, i: int)
    requires 0 <= i <= |log|
    ensures |AllCorrections(log[..i])| <= |AllCorrections(log)|
    ensures AllCorrections(log[..i]) == AllCorrections(log)[..|AllCorrections(log[..i])|]
    decreases |log|
  {
    if i < |log| {
      var n := |log| - 1;
      assert log[..n][..i] == log[..i];
      AllCorrectionsPrefix(log[..n], i);
    } else {
      assert log[..i] == log;
    }
  }

  /** All corrections are dicts, so none of the `.get` calls raises. */
  predicate AllRecords(cs: seq<Correction>) {
    forall k :: 0 <= k < |cs| ==> cs[k].Record?
  }

  /** A correction that is not a dict, in any entry, spoils the whole log. */
  lemma NonRecordSpoilsLog(log: seq<FeedbackEntry>, i: int, j: int)
    requires 0 <= i < |log| && 0 <= j < |log[i].correcoes| && log[i].correcoes[j].NotARecord?
    ensures !AllRecords(AllCorrections(log))
  {
    AllCorrectionsStep(log, i);
    AllCorrectionsPrefix(log, i + 1);
    var done := AllCorrections(log[..i]);
    assert AllCorrections(log[..i + 1])[|done| + j] == log[i].correcoes[j];
    assert AllCorrections(log)[|done| + j] == log[i].correcoes[j];
  }

  // ------------------------------------------------------------ Patterns

  /** One element of the list `_analisar_padroes_correcao` returns. */
  datatype Pattern = Pattern(errorType: string, frequency: int, suggestion: string)

  /** The pattern of one correction dict (the argument is always a dict where it is used). */
  function PatternOf(c: Correction): Pattern {
    match c
    case Record(tipo, sugestao) => Pattern(tipo.GetOr("indefinido"), 1, sugestao.GetOr(""))
    case NotARecord => Pattern("indefinido", 1, "")
  }

  /** The answer of `treinar_modelo`. */
  datatype Training = Trained(patternCount: int, suggested: seq<Pattern>) | TrainingFailed

  function Min(a: int, b: int): int {
    if a < b then a else b
  }

  // ---------------------------------------------------------- Approval rate

  /** The number of approved entries. */
  function ApprovedCount(log: seq<FeedbackEntry>): (n: int)
    ensures 0 <= n <= |log|
  {
    if log == [] then 0
    else ApprovedCount(log[..|log| - 1]) + (if log[|log| - 1].approved then 1 else 0)
  }

  /** `_calcular_taxa_aprovacao` over a log (before its two-decimal rounding). */
  function Rate(log: seq<FeedbackEntry>): real {
    if log == [] then 0.0 else 100.0 * (ApprovedCount(log) as real) / (|log| as real)
  }

  /** The approval rate is a percentage. */
  lemma RateIsPercentage(log: seq<FeedbackEntry>)
    ensures 0.0 <= Rate(log) <= 100.0
  {
    if log != [] {
      var a, n := ApprovedCount(log) as real, |log| as real;
      assert 0.0 <= a <= n && n > 0.0;
      assert 100.0 * a / n <= 100.0 * n / n;
    }
  }

  /** A log without approved entries, such as one built only by
      `registrar_correcao`, has rate 0. */
  lemma {:induction false} UnapprovedLogRateIsZero(log: seq<FeedbackEntry>)
    requires forall k :: 0 <= k < |log| ==> !log[k].approved
    ensures ApprovedCount(log) == 0 && Rate(log) == 0.0
  {
    if log != [] {
      UnapprovedLogRateIsZero(log[..|log| - 1]);
    }
  }

  // ------------------------------------------------------- Counting types

  /** The "tipo" of a correction dict, "outros" when missing. */
  function TipoOf(c: Correction): string {
    if c.Record? then c.tipo.GetOr("outros") else "outros"
  }

  function TiposOf(cs: seq<Correction>): (ts: seq<string>)
    ensures |ts| == |cs|
  {
    if cs == [] then [] else TiposOf(cs[..|cs| - 1]) + [TipoOf(cs[|cs| - 1])]
  }

  lemma TiposOfStep(cs: seq<Correction>, c: Correction)
    ensures TiposOf(cs + [c]) == TiposOf(cs) + [TipoOf(c)]
  {
    assert (cs + [c])[..|cs|] == cs;
  }

  /** The dict `correcoes_por_tipo`: its keys in insertion order and their counts. */
  datatype Counter = Counter(order: seq<string>, count: map<string, int>)

  /** `correcoes_por_tipo[tipo] = correcoes_por_tipo.get(tipo, 0) + 1`. */
  function Bump(c: Counter, t: string): Counter {
    if t in c.count then Counter(c.order, c.count[t := c.count[t] + 1])
    else Counter(c.order + [t], c.count[t := 1])
  }

  /** The counter after counting `ts` into an empty dict. */
  function CounterOf(ts: seq<string>): Counter {
    if ts == [] then Counter([], map[]) else Bump(CounterOf(ts[..|ts| - 1]), ts[|ts| - 1])
  }

  lemma CounterOfStep(ts: seq<string>, t: string)
    ensures CounterOf(ts + [t]) == Bump(CounterOf(ts), t)
  {
    assert (ts + [t])[..|ts|] == ts;
  }

  /** The distinct elements of `ts` in order of first appearance. */
  function FirstSeen(ts: seq<string>): seq<string> {
    if ts == [] then []
    else if ts[|ts| - 1] in ts[..|ts| - 1] then FirstSeen(ts[..|ts| - 1])
    else FirstSeen(ts[..|ts| - 1]) + [ts[|ts| - 1]]
  }

  predicate Distinct(s: seq<string>) {
    forall i, j :: 0 <= i < j < |s| ==> s[i] != s[j]
  }

  /** Membership in a sequence grown by one element. */
  lemma InSnoc(p: seq<string>, t: string, k: string)
    ensures k in p + [t] <==> k in p || k == t
  {
    if k in p + [t] {
      var i :| 0 <= i < |p + [t]| && (p + [t])[i] == k;
      if i < |p| { assert p[i] == k; }
    }
    if k in p {
      var i :| 0 <= i < |p| && p[i] == k;
      assert (p + [t])[i] == k;
    }
  }

  /** The keys of the counter are the types met, listed in order of first appearance. */
  lemma {:induction false} CounterOfKeys(ts: seq<string>)
    ensures CounterOf(ts).order == FirstSeen(ts)
    ensures forall k :: k in CounterOf(ts).count <==> k in ts
  {
    if ts != [] {
      var p, t := ts[..|ts| - 1], ts[|ts| - 1];
      CounterOfKeys(p);
      assert ts == p + [t];
      forall k
        ensures k in ts <==> k in p || k == t
      {
        InSnoc(p, t, k);
      }
    }
  }

  /** First appearances are distinct and cover every type met. */
  lemma {:induction false} FirstSeenIsDistinct(ts: seq<string>)
    ensures Distinct(FirstSeen(ts))
    ensures forall k :: k in FirstSeen(ts) <==> k in ts
  {
    if ts != [] {
      var p, t := ts[..|ts| - 1], ts[|ts| - 1];
      FirstSeenIsDistinct(p);
      assert ts == p + [t];
      forall k
        ensures k in ts <==> k in p || k == t
      {
        InSnoc(p, t, k);
      }
    }
  }

  /** Each count is the number of occurrences of its type. */
  lemma {:induction false} CounterOfMultiplicity(ts: seq<string>)
    ensures forall k :: k in CounterOf(ts).count ==> CounterOf(ts).count[k] == multiset(ts)[k]
  {
    if ts != [] {
      var p, t := ts[..|ts| - 1], ts[|ts| - 1];
      CounterOfMultiplicity(p);
      CounterOfKeys(p);
      assert ts == p + [t];
      assert multiset(ts) == multiset(p) + multiset{t};
      if t !in CounterOf(p).count {
        assert t !in p;
        assert multiset(p)[t] == 0;
      }
    }
  }

  /** The keys of `correcoes_por_tipo` are the types met, once each, in order of
      first appearance, and each count is the number of corrections of that type. */
  lemma CounterOfCounts(ts: seq<string>)
    ensures CounterOf(ts).order == FirstSeen(ts)
    ensures Distinct(CounterOf(ts).order)
    ensures forall k :: k in CounterOf(ts).count <==> k in ts
    ensures forall k :: k in CounterOf(ts).order <==> k in ts
    ensures forall k :: k in CounterOf(ts).count ==> CounterOf(ts).count[k] == multiset(ts)[k]
  {
    CounterOfKeys(ts);
    FirstSeenIsDistinct(ts);
    CounterOfMultiplicity(ts);
  }

  lemma CountStep(done: seq<Correction>, cs: seq<Correction>, j: int)
    requires 0 <= j < |cs|
    ensures CounterOf(TiposOf(done + cs[..j + 1])) == Bump(CounterOf(TiposOf(done + cs[..j])), TipoOf(cs[j]))
  {
    assert done + cs[..j + 1] == (done + cs[..j]) + [cs[j]];
    TiposOfStep(done + cs[..j], cs[j]);
    CounterOfStep(TiposOf(done + cs[..j]), TipoOf(cs[j]));
  }

  /** `correcoes_por_tipo.items()`, in key order. */
  function Items(c: Counter): (items: seq<(string, int)>)
    ensures |items| == |c.order|
    ensures forall i :: 0 <= i < |items| ==> items[i].0 == c.order[i]
  {
    seq(|c.order|, i requires 0 <= i < |c.order| =>
      (c.order[i], if c.order[i] in c.count then c.count[c.order[i]] else 0))
  }

  // --------------------------------------------------- Ranking by frequency

  /** Insert `x` before the first element of `t` whose frequency is not above
      its own. */
  function Insert(x: (string, int), t: seq<(string, int)>): (r: seq<(string, int)>)
    ensures |r| == |t| + 1
  {
    if t == [] || x.1 >= t[0].1 then [x] + t
    else [t[0]] + Insert(x, t[1..])
  }

  /** Insertion adds `x` and loses nothing. */
  lemma {:induction false} InsertPermutes(x: (string, int), t: seq<(string, int)>)
    ensures multiset(Insert(x, t)) == multiset(t) + multiset{x}
  {
    if t != [] && x.1 < t[0].1 {
      InsertPermutes(x, t[1..]);
      assert t == [t[0]] + t[1..];
    }
  }

  /** `sorted(items, key=lambda x: x[1], reverse=True)`: a stable sort by
      descending frequency. */
  function SortByFrequency(items: seq<(string, int)>): (r: seq<(string, int)>)
    ensures |r| == |items|
  {
    if items == [] then []
    else Insert(items[0], SortByFrequency(items[1..]))
  }

  /** The ranking holds the same items, each as often. */
  lemma {:induction false} SortPermutes(items: seq<(string, int)>)
    ensures multiset(SortByFrequency(items)) == multiset(items)
  {
    if items != [] {
      SortPermutes(items[1..]);
      InsertPermutes(items[0], SortByFrequency(items[1..]));
      assert items == [items[0]] + items[1..];
    }
  }

  predicate Descending(t: seq<(string, int)>) {
    forall i, j :: 0 <= i < j < |t| ==> t[i].1 >= t[j].1
  }

  /** A bound on the frequencies of `t` and of `x` bounds those of the insertion. */
  lemma {:induction false} InsertBounded(x: (string, int), t: seq<(string, int)>, b: int)
    requires x.1 <= b
    requires forall i :: 0 <= i < |t| ==> t[i].1 <= b
    ensures forall i :: 0 <= i < |Insert(x, t)| ==> Insert(x, t)[i].1 <= b
  {
    if t != [] && x.1 < t[0].1 {
      InsertBounded(x, t[1..], b);
    }
  }

  lemma {:induction false} InsertKeepsDescending(x: (string, int), t: seq<(string, int)>)
    requires Descending(t)
    ensures Descending(Insert(x, t))
  {
    if t != [] && x.1 < t[0].1 {
      var y, rest := t[0], t[1..];
      InsertKeepsDescending(x, rest);
      InsertBounded(x, rest, y.1);
      var r := Insert(x, rest);
      assert Insert(x, t) == [y] + r;
      forall i, j | 0 <= i < j < |r| + 1
        ensures ([y] + r)[i].1 >= ([y] + r)[j].1
      {
        if i > 0 {
          assert ([y] + r)[i] == r[i - 1];
        }
        assert ([y] + r)[j] == r[j - 1];
      }
    }
  }

  /** The ranking is in descending frequency. */
  lemma {:induction false} SortIsDescending(items: seq<(string, int)>)
    ensures Descending(SortByFrequency(items))
  {
    if items != [] {
      SortIsDescending(items[1..]);
      InsertKeepsDescending(items[0], SortByFrequency(items[1..]));
    }
  }

  /** `[y]` when `y` has frequency `f`, `[]` otherwise. */
  function Pick(y: (string, int), f: int): seq<(string, int)> {
    if y.1 == f then [y] else []
  }

  /** The elements of `t` with frequency `f`, in order. */
  function WithFrequency(t: seq<(string, int)>, f: int): seq<(string, int)> {
    if t == [] then [] else Pick(t[0], f) + WithFrequency(t[1..], f)
  }

  lemma WithFrequencyCons(x: (string, int), t: seq<(string, int)>, f: int)
    ensures WithFrequency([x] + t, f) == Pick(x, f) + WithFrequency(t, f)
  {
    assert ([x] + t)[1..] == t;
  }

  /** Passing `x` over a head of higher frequency gives the same elements of
      frequency `f`: at most one of the two has it. */
  lemma SwapPicks(x: (string, int), y: (string, int), w: seq<(string, int)>, f: int)
    requires x.1 < y.1
    ensures Pick(y, f) + (Pick(x, f) + w) == Pick(x, f) + (Pick(y, f) + w)
  {
    if x.1 == f {
      assert Pick(y, f) == [];
    } else {
      assert Pick(x, f) == [];
    }
  }

  /** Inserting `x` passes over frequencies above its own only, so the
      elements of any one frequency keep their order. */
  lemma {:induction false} InsertIsStable(x: (string, int), t: seq<(string, int)>, f: int)
    ensures WithFrequency(Insert(x, t), f) == WithFrequency([x] + t, f)
  {
    if t != [] && x.1 < t[0].1 {
      var y, rest := t[0], t[1..];
      var w := WithFrequency(rest, f);
      InsertIsStable(x, rest, f);
      assert Insert(x, t) == [y] + Insert(x, rest);
      WithFrequencyCons(y, Insert(x, rest), f);
      WithFrequencyCons(x, rest, f);
      assert WithFrequency(Insert(x, t), f) == Pick(y, f) + (Pick(x, f) + w);
      assert t == [y] + rest;
      WithFrequencyCons(y, rest, f);
      WithFrequencyCons(x, t, f);
      assert WithFrequency([x] + t, f) == Pick(x, f) + (Pick(y, f) + w);
      SwapPicks(x, y, w, f);
    }
  }

  /** Types of equal frequency keep their order: the sort is stable. */
  lemma {:induction false} SortIsStable(items: seq<(string, int)>, f: int)
    ensures WithFrequency(SortByFrequency(items), f) == WithFrequency(items, f)
  {
    if items != [] {
      var x, rest := items[0], items[1..];
      var sortedRest := SortByFrequency(rest);
      assert SortByFrequency(items) == Insert(x, sortedRest);
      SortIsStable(rest, f);
      InsertIsStable(x, sortedRest, f);
      WithFrequencyCons(x, sortedRest, f);
      assert items == [x] + rest;
      WithFrequencyCons(x, rest, f);
      assert WithFrequency(SortByFrequency(items), f)
          == Pick(x, f) + WithFrequency(sortedRest, f)
          == Pick(x, f) + WithFrequency(rest, f);
    }
  }

  /** The recommendation for one type of error. */
  function Recommendation(tipoErro: string): string {
    if tipoErro == "data_inconsistente" then "Implementar validação automática de datas"
    else if tipoErro == "calculo_incorreto" then "Melhorar calculadora previdenciária"
    else if tipoErro == "jurisprudencia_generica" then "Expandir base de jurisprudência específica"
    else "Revisar processo para: " + tipoErro
  }

  /** The recommendations for the (at most) three most frequent types. */
  function RecommendationsFor(items: seq<(string, int)>): (recs: seq<string>)
    ensures |recs| == Min(3, |items|)
  {
    var top := SortByFrequency(items);
    seq(Min(3, |items|), i requires 0 <= i < Min(3, |items|) => Recommendation(top[i].0))
  }

  /** A recommendation names the type of error it is for. */
  lemma RecommendationsFollowRanking(items: seq<(string, int)>)
    ensures forall i :: 0 <= i < |RecommendationsFor(items)| ==>
      RecommendationsFor(items)[i] == Recommendation(SortByFrequency(items)[i].0)
    ensures forall i, j :: 0 <= i < Min(3, |items|) <= j < |items| ==>
      SortByFrequency(items)[i].1 >= SortByFrequency(items)[j].1
  {
    SortIsDescending(items);
  }

  // ------------------------------------------------------------ Report

  const AwaitingData: string := "Aguardando mais dados para análise"

  /** The answer of `gerar_relatorio_qualidade`; the empty-log report has no
      `correcoes_por_tipo` key, shown here as an empty list. */
  datatype QualityReport =
    | Report(total: int, rate: real, mainErrors: seq<string>, counts: seq<(string, int)>, recommendations: seq<string>)
    | ReportError

  // ------------------------------------------------------------ Service

  class FeedbackService {
    /** `self.feedback_data`. */
    var feedback: seq<FeedbackEntry>

    constructor()
      ensures feedback == []
    {
      feedback := [];
    }

    /** `registrar_correcao`, with the timestamp as a parameter. */
    method RegisterCorrection(peticaoId: int, correcoes: seq<Correction>, now: string) returns (ok: bool)
      modifies this
      ensures feedback == old(feedback) + [FeedbackEntry(peticaoId, now, correcoes, "correcao_humana", false)]
      ensures ok
      ensures (forall k :: 0 <= k < |old(feedback)| ==> !old(feedback)[k].approved) ==> ApprovalRate() == 0.0
    {
      var entry := FeedbackEntry(peticaoId, now, correcoes, "correcao_humana", false);
      feedback := feedback + [entry];
      ok := true;
      if forall k :: 0 <= k < |old(feedback)| ==> !old(feedback)[k].approved {
        UnapprovedLogRateIsZero(feedback);
      }
    }

    /** `_analisar_padroes_correcao`: one pattern per correction, in order;
      nothing when some correction is not a dict (the call raises). */
    method AnalysePatterns(log: seq<FeedbackEntry>) returns (r: Option<seq<Pattern>>)
      ensures r.None? <==> !AllRecords(AllCorrections(log))
      ensures r.Some? ==>
        && |r.value| == |AllCorrections(log)|
        && forall k :: 0 <= k < |r.value| ==> r.value[k] == PatternOf(AllCorrections(log)[k])
    {
      var padroes: seq<Pattern> := [];
      var i := 0;
      while i < |log|
        invariant 0 <= i <= |log|
        invariant AllRecords(AllCorrections(log[..i]))
        invariant |padroes| == |AllCorrections(log[..i])|
        invariant forall k :: 0 <= k < |padroes| ==> padroes[k] == PatternOf(AllCorrections(log[..i])[k])
      {
        var cs := log[i].correcoes;
        ghost var done := AllCorrections(log[..i]);
        var j := 0;
        assert done + cs[..j] == done;
        while j < |cs|
          invariant 0 <= j <= |cs|
          invariant AllRecords(done + cs[..j])
          invariant |padroes| == |done| + j
          invariant forall k :: 0 <= k < |padroes| ==> padroes[k] == PatternOf((done + cs[..j])[k])
        {
          if cs[j].NotARecord? {
            NonRecordSpoilsLog(log, i, j);
            return None;
          }
          assert done + cs[..j + 1] == (done + cs[..j]) + [cs[j]];
          padroes := padroes + [PatternOf(cs[j])];
          j := j + 1;
        }
        assert cs[..j] == cs;
        AllCorrectionsStep(log, i);
        i := i + 1;
      }
      assert log[..i] == log;
      r := Some(padroes);
    }

    /** `treinar_modelo`: the number of patterns and the first five of them. */
    method TrainModel(log: seq<FeedbackEntry>) returns (t: Training)
      ensures t.TrainingFailed? <==> !AllRecords(AllCorrections(log))
      ensures t.Trained? ==>
        && t.patternCount == |AllCorrections(log)|
        && |t.suggested| == Min(5, t.patternCount)
        && forall k :: 0 <= k < |t.suggested| ==> t.suggested[k] == PatternOf(AllCorrections(log)[k])
    {
      var padroes := AnalysePatterns(log);
      if padroes.None? {
        return TrainingFailed;
      }
      var ps := padroes.value;
      t := Trained(|ps|, if |ps| <= 5 then ps else ps[..5]);
    }

    /** `_calcular_taxa_aprovacao`. */
    function ApprovalRate(): (r: real)
      reads this
      ensures r == Rate(feedback)
      ensures 0.0 <= r <= 100.0
      ensures feedback == [] ==> r == 0.0
    {
      RateIsPercentage(feedback);
      Rate(feedback)
    }

    /** `_gerar_recomendacoes`. */
    method GenerateRecommendations(items: seq<(string, int)>) returns (recs: seq<string>)
      ensures recs == RecommendationsFor(items)
    {
      var ranked := SortByFrequency(items);
      var top := if |ranked| <= 3 then ranked else ranked[..3];
      ghost var expected := RecommendationsFor(items);
      assert |top| == |expected|;
      recs := [];
      var i := 0;
      while i < |top|
        invariant 0 <= i <= |top|
        invariant recs == expected[..i]
      {
        assert expected[i] == Recommendation(top[i].0);
        assert expected[..i + 1] == expected[..i] + [expected[i]];
        recs := recs + [Recommendation(top[i].0)];
        i := i + 1;
      }
      assert expected[..i] == expected;
    }

    /** The counting loop of `gerar_relatorio_qualidade`: the corrections of
      the log counted by type; nothing when some correction is not a dict. */
    method CountByType(log: seq<FeedbackEntry>) returns (r: Option<Counter>)
      ensures r.None? <==> !AllRecords(AllCorrections(log))
      ensures r.Some? ==> r.value == CounterOf(TiposOf(AllCorrections(log)))
    {
      var counter := Counter([], map[]);
      var i := 0;
      while i < |log|
        invariant 0 <= i <= |log|
        invariant AllRecords(AllCorrections(log[..i]))
        invariant counter == CounterOf(TiposOf(AllCorrections(log[..i])))
      {
        AllCorrectionsStep(log, i);
        var next := CountEntry(counter, AllCorrections(log[..i]), log[i].correcoes);
        if next.None? {
          var k :| 0 <= k < |log[i].correcoes| && log[i].correcoes[k].NotARecord?;
          NonRecordSpoilsLog(log, i, k);
          return None;
        }
        counter := next.value;
        i := i + 1;
      }
      assert log[..i] == log;
      r := Some(counter);
    }

    /** The inner loop of the count: the corrections `cs` of one entry added to
      `counter`, which holds the count of the corrections `done` before them. */
    method CountEntry(counter: Counter, ghost done: seq<Correction>, cs: seq<Correction>)
      returns (r: Option<Counter>)
      requires counter == CounterOf(TiposOf(done))
      ensures r.None? <==> !AllRecords(cs)
      ensures r.Some? ==> r.value == CounterOf(TiposOf(done + cs))
    {
      var c := counter;
      var j := 0;
      assert done + cs[..j] == done;
      while j < |cs|
        invariant 0 <= j <= |cs|
        invariant AllRecords(cs[..j])
        invariant c == CounterOf(TiposOf(done + cs[..j]))
      {
        if cs[j].NotARecord? {
          return None;
        }
        var tipo := cs[j].tipo.GetOr("outros");
        CountStep(done, cs, j);
        c := Bump(c, tipo);
        assert cs[..j + 1] == cs[..j] + [cs[j]];
        j := j + 1;
      }
      assert cs[..j] == cs;
      r := Some(c);
    }

    /** `gerar_relatorio_qualidade`: counts of corrections by type over the log,
      the first five types met, the approval rate and the recommendations. */
    method MakeQualityReport() returns (r: QualityReport)
      ensures feedback == [] ==> r == Report(0, 0.0, [], [], [AwaitingData])
      ensures feedback != [] && !AllRecords(AllCorrections(feedback)) ==> r == ReportError
      ensures feedback != [] && AllRecords(AllCorrections(feedback)) ==>
        var counter := CounterOf(TiposOf(AllCorrections(feedback)));
        r == Report(|feedback|, Rate(feedback),
                    if |counter.order| <= 5 then counter.order else counter.order[..5],
                    Items(counter), RecommendationsFor(Items(counter)))
    {
      var totalPeticoes := |feedback|;
      if totalPeticoes == 0 {
        return Report(0, 0.0, [], [], [AwaitingData]);
      }
      var counted := CountByType(feedback);
      if counted.None? {
        return ReportError;
      }
      var counter := counted.value;
      var items := Items(counter);
      var recs := GenerateRecommendations(items);
      var principais := if |counter.order| <= 5 then counter.order else counter.order[..5];
      r := Report(totalPeticoes, ApprovalRate(), principais, items, recs);
    }
  }
}
