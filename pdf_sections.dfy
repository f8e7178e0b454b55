// Models the two text helpers of app/services/pdf_service.py (`PDFService`):
// `_dividir_em_secoes`, which cuts a petition's text into titled sections,
// qualification lines and paragraphs, and `_mes_por_extenso`. The reportlab
// layout around them is not part of this model.

module PdfSections {
  import opened Wrappers
  import opened Text

  /** The `tipo` of a section. */
  datatype SectionKind = Titulo | Qualificacao | Paragrafo

  /** One `{'tipo': ..., 'conteudo': ...}` entry. */
  datatype Section = Section(tipo: SectionKind, conteudo: string)

  const TitlePrefixes: seq<string> := ["EXCELENTÍSSIMO", "DOS ", "DA ", "DO "]
  const QualificationTerms: seq<string> := ["cpf", "rg", "endereço", "brasileiro"]

  /** The title test: all in capitals, or one of the opening prefixes. */
  predicate IsTitle(linha: string) {
    IsUpper(linha) || exists i :: 0 <= i < |TitlePrefixes| && StartsWith(linha, TitlePrefixes[i])
  }

  /** The kind given to a stripped, non-empty line; the title test comes first. */
  function Classify(linha: string): (k: SectionKind)
    ensures k == Titulo <==> IsTitle(linha)
    ensures k == Qualificacao <==> !IsTitle(linha) && ContainsAny(Lower(linha), QualificationTerms)
    ensures k == Paragrafo <==> !IsTitle(linha) && !ContainsAny(Lower(linha), QualificationTerms)
  {
    if IsTitle(linha) then Titulo
    else if ContainsAny(Lower(linha), QualificationTerms) then Qualificacao
    else Paragrafo
  }

  /** What one line contributes to the kept lines: itself stripped, or
      nothing when it is blank. */
  function KeptLine(linha: string): (r: seq<string>)
    ensures |r| <= 1
    ensures r == [] <==> Strip(linha) == ""
    ensures r != [] ==> r[0] == Strip(linha) && r[0] == Strip(r[0])
  {
    var l := Strip(linha);
    if l == "" then []
    else
      StripIsIdempotent(linha);
      [l]
  }

  /** The lines that survive: each stripped, the empty ones dropped, in order. */
  function KeptLines(linhas: seq<string>): (r: seq<string>)
    ensures |r| <= |linhas|
    ensures forall i :: 0 <= i < |r| ==> r[i] != "" && r[i] == Strip(r[i])
  {
    if linhas == [] then []
    else KeptLines(linhas[..|linhas| - 1]) + KeptLine(linhas[|linhas| - 1])
  }

  /** What one line contributes to the sections. */
  function SectionOf(linha: string): (r: seq<Section>)
    ensures |r| == |KeptLine(linha)|
    ensures r != [] ==> r[0] == Section(Classify(KeptLine(linha)[0]), KeptLine(linha)[0])
  {
    var l := Strip(linha);
    if l == "" then [] else [Section(Classify(l), l)]
  }

  /** The sections of a list of lines, as the loop builds them. */
  function Sections(linhas: seq<string>): seq<Section> {
    if linhas == [] then []
    else Sections(linhas[..|linhas| - 1]) + SectionOf(linhas[|linhas| - 1])
  }

  lemma SectionsStep(linhas: seq<string>, i: int)
    requires 0 <= i < |linhas|
    ensures Sections(linhas[..i + 1]) == Sections(linhas[..i]) + SectionOf(linhas[i])
    ensures SectionOf(linhas[i]) == if Strip(linhas[i]) == "" then [] else [Section(Classify(Strip(linhas[i])), Strip(linhas[i]))]
  {
    assert linhas[..i + 1][..i] == linhas[..i];
  }

  /** `_dividir_em_secoes`. */
  method SplitSections(texto: string) returns (secoes: seq<Section>)
    ensures secoes == Sections(SplitOn(texto, '\n'))
  {
    var linhas := SplitOn(texto, '\n');
    secoes := [];
    var i := 0;
    while i < |linhas|
      invariant 0 <= i <= |linhas|
      invariant secoes == Sections(linhas[..i])
    {
      SectionsStep(linhas, i);
      var linha := Strip(linhas[i]);
      if linha != "" {
        if IsTitle(linha) {
          secoes := secoes + [Section(Titulo, linha)];
        } else if ContainsAny(Lower(linha), QualificationTerms) {
          secoes := secoes + [Section(Qualificacao, linha)];
        } else {
          secoes := secoes + [Section(Paragrafo, linha)];
        }
      }
      i := i + 1;
    }
    assert linhas[..i] == linhas;
  }

  /** There is exactly one section per kept line, in order, holding that line
      and classified by it. */
  lemma {:induction false} SectionsFollowKeptLines(linhas: seq<string>)
    ensures |Sections(linhas)| == |KeptLines(linhas)|
    ensures forall i :: 0 <= i < |Sections(linhas)| ==>
              Sections(linhas)[i] == Section(Classify(KeptLines(linhas)[i]), KeptLines(linhas)[i])
  {
    if linhas != [] {
      var init, last := linhas[..|linhas| - 1], linhas[|linhas| - 1];
      SectionsFollowKeptLines(init);
      assert Sections(linhas) == Sections(init) + SectionOf(last);
      assert KeptLines(linhas) == KeptLines(init) + KeptLine(last);
    }
  }

  /** Every line that is not blank is kept, stripped. */
  lemma {:induction false} NonBlankLinesAreKept(linhas: seq<string>, j: int)
    requires 0 <= j < |linhas| && Strip(linhas[j]) != ""
    ensures Strip(linhas[j]) in KeptLines(linhas)
  {
    var init, last := linhas[..|linhas| - 1], linhas[|linhas| - 1];
    assert KeptLines(linhas) == KeptLines(init) + KeptLine(last);
    if j < |linhas| - 1 {
      assert init[j] == linhas[j];
      NonBlankLinesAreKept(init, j);
    }
  }

  /** Text made of two parts gives the sections of each part, one after the other. */
  lemma {:induction false} SectionsConcat(a: seq<string>, b: seq<string>)
    ensures Sections(a + b) == Sections(a) + Sections(b)
    decreases |b|
  {
    if b == [] {
      assert a + b == a;
    } else {
      assert (a + b)[..|a + b| - 1] == a + b[..|b| - 1];
      SectionsConcat(a, b[..|b| - 1]);
    }
  }

  /** A line that opens with a lower-case letter is never a title: it is not
      all capitals, and every title prefix opens with a capital. */
  lemma LowerCaseOpeningIsNotTitle(linha: string)
    requires |linha| > 0 && 'a' <= linha[0] <= 'z'
    ensures !IsTitle(linha)
  {
    assert IsLowerLetter(linha[0]);
    forall i | 0 <= i < |TitlePrefixes|
      ensures !StartsWith(linha, TitlePrefixes[i])
    {
      var pre := TitlePrefixes[i];
      assert pre[0] == 'E' || pre[0] == 'D';
      if |pre| <= |linha| {
        assert linha[..|pre|][0] == linha[0] != pre[0];
      }
    }
  }

  lemma OrgaoHasNoCapitals()
    ensures Lower("orgao") == "orgao"
  {
    var linha := "orgao";
    assert forall i :: 0 <= i < |linha| ==> !IsUpperLetter(linha[i]);
    LowerKeepsLowerText(linha);
  }

  lemma OrgaoContainsRg()
    ensures Contains("orgao", "rg")
  {
    var linha := "orgao";
    assert StartsWith(linha[1..], "rg");
  }

  /** "rg" is found inside ordinary words: a line such as "orgao" is taken
      for a qualification line. */
  lemma RgInsideAWordIsQualification()
    ensures Classify("orgao") == Qualificacao
  {
    LowerCaseOpeningIsNotTitle("orgao");
    OrgaoHasNoCapitals();
    OrgaoContainsRg();
    assert Contains(Lower("orgao"), QualificationTerms[1]);
  }

  // ----------------------------------------------------------- Month names

  const MonthNames: seq<string> := ["", "janeiro", "fevereiro", "março", "abril", "maio", "junho",
                                    "julho", "agosto", "setembro", "outubro", "novembro", "dezembro"]

  /** `_mes_por_extenso`: `meses[mes]` with Python's indexing, where a negative
      index counts from the end and anything outside -13..12 raises IndexError
      (None here). */
  function MonthName(mes: int): (r: Option<string>)
    ensures r.Some? <==> -13 <= mes <= 12
    ensures 0 <= mes <= 12 ==> r == Some(MonthNames[mes])
    ensures -13 <= mes < 0 ==> r == Some(MonthNames[mes + 13])
  {
    if 0 <= mes < |MonthNames| then Some(MonthNames[mes])
    else if -|MonthNames| <= mes < 0 then Some(MonthNames[|MonthNames| + mes])
    else None
  }

  /** The months 1..12 have twelve distinct, non-empty names, and 0 has the empty one. */
  lemma MonthNamesAreDistinct(m: int, n: int)
    requires 1 <= m <= 12 && 1 <= n <= 12
    ensures MonthName(m).value != ""
    ensures MonthName(m) == MonthName(n) <==> m == n
    ensures MonthName(0) == Some("")
  {
  }

  /** A negative index names the same month as the index 13 places above it. */
  lemma NegativeMonthWrapsAround(mes: int)
    requires -13 <= mes < 0
    ensures MonthName(mes) == MonthName(mes + 13)
  {
  }
}
