// Models the pure helpers of app/services/ai_service.py (`AIService`):
// keyword extraction, the truncated `prompt_utilizado`, the system-prompt
// fallback and the keyword filter of the petition context. The calls to the
// language model and to the retrieval service are not part of this model.

module AiHelpers {
  import opened Wrappers
  import opened Text

  // ---------------------------------------------------- Keyword extraction

  /** `palavras_irrelevantes`. */
  const Stopwords: set<string> := {
    "o", "a", "os", "as", "um", "uma", "uns", "umas", "de", "da", "do", "das", "dos",
    "em", "na", "no", "nas", "nos", "para", "por", "com", "sem", "sobre", "entre",
    "e", "ou", "mas", "que", "se", "quando", "onde", "como", "porque", "então"
  }

  /** The largest number of keywords returned. */
  const MaxKeywords: nat := 10

  /** The comprehension's condition: longer than 3 characters and not a stopword. */
  predicate IsKeyword(w: string) {
    |w| > 3 && w !in Stopwords
  }

  /** The words of `ws` that are keywords, in their order. */
  function KeepKeywords(ws: seq<string>): (r: seq<string>)
    ensures |r| <= |ws|
    ensures forall i :: 0 <= i < |r| ==> IsKeyword(r[i]) && r[i] in ws
    ensures forall w :: w in ws && IsKeyword(w) ==> w in r
  {
    if ws == [] then []
    else
      var init := KeepKeywords(ws[..|ws| - 1]);
      var last := ws[|ws| - 1];
      assert ws == ws[..|ws| - 1] + [last];
      if IsKeyword(last) then init + [last] else init
  }

  /** Filtering a concatenation filters each part. */
  lemma {:induction false} KeepKeywordsConcat(a: seq<string>, b: seq<string>)
    ensures KeepKeywords(a + b) == KeepKeywords(a) + KeepKeywords(b)
    decreases |b|
  {
    if b == [] {
      assert a + b == a;
    } else {
      assert (a + b)[..|a + b| - 1] == a + b[..|b| - 1];
      KeepKeywordsConcat(a, b[..|b| - 1]);
    }
  }

  /** `lista[:n]`. */
  function Take<T>(xs: seq<T>, n: nat): (r: seq<T>)
    ensures |r| == if |xs| < n then |xs| else n
    ensures r == xs[..|r|]
  {
    if |xs| <= n then xs else xs[..n]
  }

  /** `_extrair_palavras_chave` on the list `texto.lower().split()`. */
  function KeywordsOfWords(palavras: seq<string>): (r: seq<string>)
    ensures |r| <= MaxKeywords
    ensures forall i :: 0 <= i < |r| ==> IsKeyword(r[i]) && r[i] in palavras
    ensures |r| == if |KeepKeywords(palavras)| < MaxKeywords then |KeepKeywords(palavras)| else MaxKeywords
    ensures r <= KeepKeywords(palavras)
  {
    Take(KeepKeywords(palavras), MaxKeywords)
  }

  /** `_extrair_palavras_chave`. */
  function Keywords(texto: string): (r: seq<string>)
    ensures |r| <= MaxKeywords
    ensures r == KeywordsOfWords(Words(Lower(texto)))
    ensures forall i :: 0 <= i < |r| ==> IsKeyword(r[i]) && IsWord(r[i])
  {
    WordsAreWords(Lower(texto));
    KeywordsOfWords(Words(Lower(texto)))
  }

  /** Further words never displace a keyword already found: the keywords of
      a list are a prefix of those of any longer list. */
  lemma KeywordsOfLongerList(a: seq<string>, b: seq<string>)
    ensures KeywordsOfWords(a) <= KeywordsOfWords(a + b)
    ensures |KeywordsOfWords(a)| == MaxKeywords ==> KeywordsOfWords(a + b) == KeywordsOfWords(a)
  {
    KeepKeywordsConcat(a, b);
    var ka, kab := KeepKeywords(a), KeepKeywords(a + b);
    assert ka <= kab;
    var r1 := KeywordsOfWords(a);
    assert r1 == ka[..|r1|] && |r1| <= |ka|;
    assert kab[..|r1|] == ka[..|r1|];
  }

  /** Every word that passes the filter is kept when fewer than ten do. */
  lemma FewKeywordsAreAllKept(palavras: seq<string>, w: string)
    requires |KeepKeywords(palavras)| <= MaxKeywords
    requires w in palavras && IsKeyword(w)
    ensures w in KeywordsOfWords(palavras)
  {
  }

  // ------------------------------------------------------ Prompt summary

  /** The prompt length kept in `prompt_utilizado`. */
  const SummaryLength: nat := 500

  /** The `prompt_utilizado` entry of `gerar_peticao`'s answer. */
  function PromptSummary(prompt: string): (r: string)
    ensures |prompt| <= SummaryLength ==> r == prompt
    ensures |prompt| > SummaryLength ==> |r| == SummaryLength + 3 && r[..SummaryLength] == prompt[..SummaryLength] && r[SummaryLength..] == "..."
  {
    if |prompt| > 500 then prompt[..500] + "..." else prompt
  }

  /** Summarising a summary changes nothing. */
  lemma SummaryIsIdempotent(prompt: string)
    ensures PromptSummary(PromptSummary(prompt)) == PromptSummary(prompt)
  {
    if |prompt| > SummaryLength {
      var r := PromptSummary(prompt);
      assert r[..SummaryLength] + "..." == r;
    }
  }

  /** Two long prompts with the same first 500 characters are recorded alike. */
  lemma SummaryKeepsOnlyTheStart(p: string, q: string)
    requires |p| > SummaryLength && |q| > SummaryLength
    requires p[..SummaryLength] == q[..SummaryLength]
    ensures PromptSummary(p) == PromptSummary(q)
  {
  }

  // ------------------------------------------------- System prompt choice

  /** The areas that have their own system prompt. */
  const PromptAreas: set<string> := {"previdenciario", "consumidor", "processual_civil"}

  /** `prompts.get(area_juridica, prompts["previdenciario"])`, as the key of
      the prompt chosen. */
  function SystemPromptArea(areaJuridica: string): (key: string)
    ensures key in PromptAreas
    ensures areaJuridica in PromptAreas ==> key == areaJuridica
    ensures areaJuridica !in PromptAreas ==> key == "previdenciario"
  {
    if areaJuridica in PromptAreas then areaJuridica else "previdenciario"
  }

  /** The choice of a chosen area is that area. */
  lemma SystemPromptChoiceIsStable(areaJuridica: string)
    ensures SystemPromptArea(SystemPromptArea(areaJuridica)) == SystemPromptArea(areaJuridica)
  {
  }

  // ------------------------------------------------ Petition context keywords

  /** `p and len(p) > 2` for a value that may be JSON null. */
  predicate Meaningful(p: Option<string>) {
    p.Some? && |p.value| > 2
  }

  /** The values of `ps` that are meaningful, in order. */
  function KeepMeaningful(ps: seq<Option<string>>): (r: seq<string>)
    ensures |r| <= |ps|
    ensures forall i :: 0 <= i < |r| ==> |r[i]| > 2 && Some(r[i]) in ps
    ensures forall p :: p in ps && Meaningful(p) ==> p.value in r
  {
    if ps == [] then []
    else
      var init := KeepMeaningful(ps[..|ps| - 1]);
      var last := ps[|ps| - 1];
      assert ps == ps[..|ps| - 1] + [last];
      if Meaningful(last) then init + [last.value] else init
  }

  /** Filtering a concatenation filters each part, so the values kept keep
      their order and their repetitions. */
  lemma {:induction false} KeepMeaningfulConcat(a: seq<Option<string>>, b: seq<Option<string>>)
    ensures KeepMeaningful(a + b) == KeepMeaningful(a) + KeepMeaningful(b)
    decreases |b|
  {
    if b == [] {
      assert a + b == a;
    } else {
      assert (a + b)[..|a + b| - 1] == a + b[..|b| - 1];
      KeepMeaningfulConcat(a, b[..|b| - 1]);
    }
  }

  /** `dados_especificos.get(chave, "")`. */
  function Field(especificos: map<string, Option<string>>, chave: string): Option<string> {
    if chave in especificos then especificos[chave] else Some("")
  }

  /** The fields each area looks up in `dados_especificos`. */
  function ContextFields(areaJuridica: string): (ks: seq<string>)
    ensures |ks| <= 2
  {
    if areaJuridica == "previdenciario" then ["tipo_beneficio", "motivo_recusa"]
    else if areaJuridica == "consumidor" then ["tipo_problema", "empresa_ré"]
    else []
  }

  /** The values of the area's fields, in the order the fields are listed. */
  function ContextValues(areaJuridica: string, especificos: map<string, Option<string>>): (vs: seq<Option<string>>)
    ensures |vs| == |ContextFields(areaJuridica)|
    ensures forall i :: 0 <= i < |vs| ==> vs[i] == Field(especificos, ContextFields(areaJuridica)[i])
  {
    var ks := ContextFields(areaJuridica);
    seq(|ks|, i requires 0 <= i < |ks| => Field(especificos, ks[i]))
  }

  /** The `palavras_chave` of `_buscar_contexto_para_peticao`. */
  function ContextKeywords(areaJuridica: string, especificos: map<string, Option<string>>): (r: seq<string>)
    ensures r == KeepMeaningful(ContextValues(areaJuridica, especificos))
    ensures |r| <= |ContextFields(areaJuridica)| <= 2
    ensures forall i :: 0 <= i < |r| ==> |r[i]| > 2
    ensures forall i :: 0 <= i < |r| ==>
              exists k :: k in ContextFields(areaJuridica) && Field(especificos, k) == Some(r[i])
    ensures forall k :: k in ContextFields(areaJuridica) && Meaningful(Field(especificos, k)) ==>
              Field(especificos, k).value in r
  {
    var ks := ContextFields(areaJuridica);
    var ps := ContextValues(areaJuridica, especificos);
    var r := KeepMeaningful(ps);
    assert forall i :: 0 <= i < |r| ==> Some(r[i]) in ps;
    forall k | k in ks && Meaningful(Field(especificos, k))
      ensures Field(especificos, k).value in r
    {
      var j :| 0 <= j < |ks| && ks[j] == k;
      assert ps[j] == Field(especificos, k);
    }
    r
  }

  /** The one-element list a meaningful value contributes, or none. */
  function KeptValue(p: Option<string>): seq<string> {
    if Meaningful(p) then [p.value] else []
  }

  /** For the two areas with fields, the keywords are the first field's value
      followed by the second's, each present exactly when it is meaningful:
      the order of the fields is kept and two equal values both stay. */
  lemma ContextKeywordsInFieldOrder(areaJuridica: string, especificos: map<string, Option<string>>)
    requires areaJuridica == "previdenciario" || areaJuridica == "consumidor"
    ensures var ks := ContextFields(areaJuridica);
      ContextKeywords(areaJuridica, especificos)
        == KeptValue(Field(especificos, ks[0])) + KeptValue(Field(especificos, ks[1]))
  {
    var ks := ContextFields(areaJuridica);
    var v0, v1 := Field(especificos, ks[0]), Field(especificos, ks[1]);
    var vs := ContextValues(areaJuridica, especificos);
    assert vs == [v0] + [v1];
    KeepMeaningfulConcat([v0], [v1]);
    assert [v0][..0] == [] && [v1][..0] == [];
  }

  /** Areas other than "previdenciario" and "consumidor" search with no keywords. */
  lemma OtherAreasHaveNoKeywords(areaJuridica: string, especificos: map<string, Option<string>>)
    requires areaJuridica != "previdenciario" && areaJuridica != "consumidor"
    ensures ContextKeywords(areaJuridica, especificos) == []
  {
  }
}
