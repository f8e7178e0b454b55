// Models app/core/validators/data_validator.py: the CPF check-digit rule,
// the age computed from a birth date, and the DER/DIB/event consistency check.

module DataValidation {
  import opened Wrappers
  import opened Text
  import opened Dates

  // ---------------------------------------------------------------- CPF

  /** `re.sub(r'[^0-9]', '', s)`: the digits of `s`, in order. */
  function OnlyDigits(s: string): (r: string)
    ensures |r| <= |s|
    ensures forall i :: 0 <= i < |r| ==> IsDigit(r[i])
  {
    if s == [] then []
    else (if IsDigit(s[0]) then [s[0]] else []) + OnlyDigits(s[1..])
  }

  predicate AllDigits(s: string) {
    forall i :: 0 <= i < |s| ==> IsDigit(s[i])
  }

  lemma {:induction false} OnlyDigitsKeepsDigitText(s: string)
    requires AllDigits(s)
    ensures OnlyDigits(s) == s
  {
    if s != [] {
      OnlyDigitsKeepsDigitText(s[1..]);
    }
  }

  lemma {:induction false} OnlyDigitsConcat(a: string, b: string)
    ensures OnlyDigits(a + b) == OnlyDigits(a) + OnlyDigits(b)
  {
    if a == [] {
      assert a + b == b;
    } else {
      var head := if IsDigit(a[0]) then [a[0]] else [];
      assert (a + b)[0] == a[0];
      assert (a + b)[1..] == a[1..] + b;
      OnlyDigitsConcat(a[1..], b);
      calc {
        OnlyDigits(a + b);
        head + OnlyDigits(a[1..] + b);
        head + (OnlyDigits(a[1..]) + OnlyDigits(b));
        (head + OnlyDigits(a[1..])) + OnlyDigits(b);
        OnlyDigits(a) + OnlyDigits(b);
      }
    }
  }

  /** Removing the non-digits a second time changes nothing. */
  lemma OnlyDigitsIdempotent(s: string)
    ensures OnlyDigits(OnlyDigits(s)) == OnlyDigits(s)
  {
    OnlyDigitsKeepsDigitText(OnlyDigits(s));
  }

  /** The sum in `calcular_digito`: the digit at position i of `p` weighted by
      `top - i` (the source calls it with `top = len(p) + 1`). */
  function WeightedSum(p: string, top: int): int
    requires AllDigits(p)
  {
    if p == [] then 0 else DigitValue(p[0]) * top + WeightedSum(p[1..], top - 1)
  }

  /** `calcular_digito`: the modulo-11 check digit of the digits `p`. A remainder
      below 2 gives 0; otherwise the digit completes the weighted sum to a
      multiple of 11. */
  function CheckDigit(p: string): (r: int)
    requires AllDigits(p)
    ensures 0 <= r <= 9
    ensures WeightedSum(p, |p| + 1) % 11 < 2 ==> r == 0
    ensures WeightedSum(p, |p| + 1) % 11 >= 2 ==> 1 <= r && (WeightedSum(p, |p| + 1) + r) % 11 == 0
  {
    var resto := WeightedSum(p, |p| + 1) % 11;
    if resto < 2 then 0 else 11 - resto
  }

  /** `c * n` on a one-character string. */
  function Repeat(c: char, n: nat): (r: string)
    ensures |r| == n && forall i :: 0 <= i < n ==> r[i] == c
  {
    seq(n, _ => c)
  }

  datatype CpfError = WrongLength | RepeatedDigits | FirstCheckDigit | SecondCheckDigit

  /** The answer of `validar_cpf`: the formatted and the bare eleven digits, or the reason. */
  datatype CpfResult = CpfValid(formatted: string, numeric: string) | CpfInvalid(error: CpfError)

  /** Both check digits of an eleven-digit string agree with the modulo-11 rule. */
  predicate CheckDigitsMatch(d: string)
    requires |d| == 11 && AllDigits(d)
  {
    DigitValue(d[9]) == CheckDigit(d[..9]) && DigitValue(d[10]) == CheckDigit(d[..10])
  }

  /** The `XXX.XXX.XXX-XX` layout of eleven digits. */
  function FormatCpf(d: string): (f: string)
    requires |d| == 11
    ensures |f| == 14 && f[3] == '.' && f[7] == '.' && f[11] == '-'
    ensures f[..3] == d[..3] && f[4..7] == d[3..6] && f[8..11] == d[6..9] && f[12..] == d[9..]
  {
    d[..3] + "." + d[3..6] + "." + d[6..9] + "-" + d[9..]
  }

  /** `validar_cpf`. */
  function ValidateCpf(cpf: string): (r: CpfResult)
    ensures var d := OnlyDigits(cpf);
      && (r == CpfInvalid(WrongLength) <==> |d| != 11)
      && (r == CpfInvalid(RepeatedDigits) <==> |d| == 11 && d == Repeat(d[0], 11))
      && (r == CpfInvalid(FirstCheckDigit) <==>
            |d| == 11 && d != Repeat(d[0], 11) && DigitValue(d[9]) != CheckDigit(d[..9]))
      && (r == CpfInvalid(SecondCheckDigit) <==>
            |d| == 11 && d != Repeat(d[0], 11) && DigitValue(d[9]) == CheckDigit(d[..9])
            && DigitValue(d[10]) != CheckDigit(d[..10]))
      && (r.CpfValid? <==> |d| == 11 && d != Repeat(d[0], 11) && CheckDigitsMatch(d))
      && (r.CpfValid? ==> r.numeric == d && r.formatted == FormatCpf(d))
  {
    var d := OnlyDigits(cpf);
    if |d| != 11 then CpfInvalid(WrongLength)
    else if d == Repeat(d[0], 11) then CpfInvalid(RepeatedDigits)
    else if DigitValue(d[9]) != CheckDigit(d[..9]) then CpfInvalid(FirstCheckDigit)
    else if DigitValue(d[10]) != CheckDigit(d[..10]) then CpfInvalid(SecondCheckDigit)
    else CpfValid(FormatCpf(d), d)
  }

  /** Punctuation is removed before any check, so it never changes the answer. */
  lemma PunctuationIsIgnored(cpf: string)
    ensures ValidateCpf(cpf) == ValidateCpf(OnlyDigits(cpf))
  {
    OnlyDigitsIdempotent(cpf);
  }

  /** A separator character contributes no digit. */
  lemma SeparatorHasNoDigits(c: char)
    requires !IsDigit(c)
    ensures OnlyDigits([c]) == []
  {
    assert [c][1..] == [];
  }

  /** `OnlyDigits(x + [c] + y)` for a digit-only `y` and a separator `c`. */
  lemma StripSeparatedPiece(x: string, c: char, y: string)
    requires !IsDigit(c) && AllDigits(y)
    ensures OnlyDigits(x + [c] + y) == OnlyDigits(x) + y
  {
    OnlyDigitsConcat(x + [c], y);
    OnlyDigitsConcat(x, [c]);
    SeparatorHasNoDigits(c);
    OnlyDigitsKeepsDigitText(y);
  }

  /** Removing the punctuation of the `XXX.XXX.XXX-XX` layout gives the digits back. */
  lemma FormatCpfStrips(d: string)
    requires |d| == 11 && AllDigits(d)
    ensures OnlyDigits(FormatCpf(d)) == d
  {
    var a, b, c, e := d[..3], d[3..6], d[6..9], d[9..];
    assert FormatCpf(d) == a + ['.'] + b + ['.'] + c + ['-'] + e;
    OnlyDigitsKeepsDigitText(a);
    StripSeparatedPiece(a, '.', b);
    StripSeparatedPiece(a + ['.'] + b, '.', c);
    StripSeparatedPiece(a + ['.'] + b + ['.'] + c, '-', e);
    assert d == a + b + c + e;
  }

  /** Stripping the punctuation of `cpf_formatado` gives back `cpf_numerico`. */
  lemma FormattedStripsToNumeric(cpf: string)
    requires ValidateCpf(cpf).CpfValid?
    ensures OnlyDigits(ValidateCpf(cpf).formatted) == ValidateCpf(cpf).numeric
  {
    var d := OnlyDigits(cpf);
    assert ValidateCpf(cpf) == CpfValid(FormatCpf(d), d);
    FormatCpfStrips(d);
  }

  /** The sum of the weights `top, top - 1, ...` over `k` positions. */
  function WeightTotal(k: nat, top: int): int {
    if k == 0 then 0 else top + WeightTotal(k - 1, top - 1)
  }

  lemma {:induction false} RepeatedWeightedSum(c: char, k: nat, top: int)
    requires IsDigit(c)
    ensures AllDigits(Repeat(c, k))
    ensures WeightedSum(Repeat(c, k), top) == DigitValue(c) * WeightTotal(k, top)
  {
    if k > 0 {
      assert Repeat(c, k)[1..] == Repeat(c, k - 1);
      RepeatedWeightedSum(c, k - 1, top - 1);
    }
  }

  /** A weighted sum of `v * (11 q - 1)` leaves the check digit `v`. */
  lemma CheckDigitOfNearMultiple(p: string, v: int, q: int)
    requires AllDigits(p) && 0 <= v <= 9 && q >= 1
    requires WeightedSum(p, |p| + 1) == v * (11 * q - 1)
    ensures CheckDigit(p) == v
  {
    var s := WeightedSum(p, |p| + 1);
    assert s == 11 * (v * q) - v;
    if v > 0 {
      assert s == 11 * (v * q - 1) + (11 - v);
      assert s % 11 == 11 - v;
    } else {
      assert s == 0;
    }
  }

  /** Eleven equal digits satisfy both check-digit equations, and are still rejected. */
  lemma RepeatedDigitsPassTheCheckButAreRejected(c: char)
    requires IsDigit(c)
    ensures AllDigits(Repeat(c, 11)) && CheckDigitsMatch(Repeat(c, 11))
    ensures ValidateCpf(Repeat(c, 11)) == CpfInvalid(RepeatedDigits)
  {
    var d := Repeat(c, 11);
    var v := DigitValue(c);
    assert d[..9] == Repeat(c, 9);
    assert d[..10] == Repeat(c, 10);
    RepeatedWeightedSum(c, 9, 10);
    RepeatedWeightedSum(c, 10, 11);
    assert WeightTotal(9, 10) == 54 == 11 * 5 - 1;
    assert WeightTotal(10, 11) == 65 == 11 * 6 - 1;
    CheckDigitOfNearMultiple(d[..9], v, 5);
    CheckDigitOfNearMultiple(d[..10], v, 6);
    RepeatedWeightedSum(c, 11, 12);
    OnlyDigitsKeepsDigitText(d);
  }

  /** The check digits of the well-known number 529.982.247-25. */
  lemma FirstCheckDigitExample()
    ensures CheckDigit("529982247") == 2
  {
    assert WeightedSum("529982247", 10) == 295;
  }

  lemma SecondCheckDigitExample()
    ensures CheckDigit("5299822472") == 5
  {
    assert WeightedSum("5299822472", 11) == 347;
  }

  // ------------------------------------------------------------- Age

  /** The date `n` years after `b` (possibly a 29 February in a common year;
      only its place in the field-by-field order matters). */
  function Anniversary(b: Date, n: int): Date {
    Date(b.year + n, b.month, b.day)
  }

  /** `today` is on or after the `n`-th anniversary of `b` and before the next one. */
  predicate CompletedYears(b: Date, today: Date, n: int) {
    !Before(today, Anniversary(b, n)) && Before(today, Anniversary(b, n + 1))
  }

  /** Completed years are unique. */
  lemma CompletedYearsUnique(b: Date, today: Date, n: int, m: int)
    requires CompletedYears(b, today, n) && CompletedYears(b, today, m)
    ensures n == m
  {
  }

  /** The answer of `validar_data_nascimento`. */
  datatype BirthCheck = BirthValid(age: int, birth: CalendarDate, adult: bool) | BirthInvalid

  /** `validar_data_nascimento` with today as a parameter. An absent date
      (`None.year`) and text that does not parse are both caught and reported. */
  method CheckBirthDate(dataNascimento: DateField, today: CalendarDate, parse: string -> Option<CalendarDate>)
    returns (r: BirthCheck)
    ensures r.BirthInvalid? <==> !Resolve(dataNascimento, parse).Found?
    ensures r.BirthValid? ==> r.birth == Resolve(dataNascimento, parse).date
    ensures r.BirthValid? ==> CompletedYears(r.birth, today, r.age)
    ensures r.BirthValid? ==> (r.adult <==> r.age >= 18)
  {
    var resolved := Resolve(dataNascimento, parse);
    if !resolved.Found? {
      return BirthInvalid;
    }
    var nascimento := resolved.date;
    var idade := today.year - nascimento.year;
    if today.month < nascimento.month || (today.month == nascimento.month && today.day < nascimento.day) {
      idade := idade - 1;
    }
    r := BirthValid(idade, nascimento, idade >= 18);
  }

  // ----------------------------------------------------- DER / DIB / event

  /** The longest distance, in days, between the DIB and the event (the benefit period). */
  const EventWindow: int := 120

  datatype DateIssue = DerAfterDib | DibFarFromEvent(days: int) | DerInFuture

  /** The answer of `validar_consistencia_datas_previdenciarias`: the checks'
      verdict, or a processing error when some text date does not parse. */
  datatype Consistency =
    | Checked(valid: bool, errors: seq<DateIssue>, der: Option<CalendarDate>, dib: Option<CalendarDate>)
    | Unprocessable

  function Abs(x: int): (r: nat)
    ensures r == x || r == -x
  {
    if x < 0 then -x else x
  }

  /** The order in which the checks run. */
  function Rank(i: DateIssue): int {
    match i
    case DerAfterDib => 0
    case DibFarFromEvent(_) => 1
    case DerInFuture => 2
  }

  function Known(r: Resolved): Option<CalendarDate> {
    if r.Found? then Some(r.date) else None
  }

  /** The first check: a DER after the DIB. */
  function OrderIssues(rDer: Resolved, rDib: Resolved): (e: seq<DateIssue>)
    ensures e == [] || e == [DerAfterDib]
    ensures e == [DerAfterDib] <==> rDer.Found? && rDib.Found? && Before(rDib.date, rDer.date)
  {
    if rDer.Found? && rDib.Found? && Before(rDib.date, rDer.date) then [DerAfterDib] else []
  }

  /** The second check: a DIB more than `EventWindow` days from the event. */
  function EventIssues(rEv: Resolved, rDib: Resolved): (e: seq<DateIssue>)
    ensures e == [] || (|e| == 1 && e[0].DibFarFromEvent?)
    ensures forall n :: DibFarFromEvent(n) in e <==>
      rEv.Found? && rDib.Found? && n == Abs(DaysBetween(rEv.date, rDib.date)) && n > EventWindow
  {
    if rEv.Found? && rDib.Found? && Abs(DaysBetween(rEv.date, rDib.date)) > EventWindow
    then [DibFarFromEvent(Abs(DaysBetween(rEv.date, rDib.date)))]
    else []
  }

  /** The third check: a DER after today. */
  function FutureIssues(rDer: Resolved, today: CalendarDate): (e: seq<DateIssue>)
    ensures e == [] || e == [DerInFuture]
    ensures e == [DerInFuture] <==> rDer.Found? && Before(today, rDer.date)
  {
    if rDer.Found? && Before(today, rDer.date) then [DerInFuture] else []
  }

  /** The three checks' findings, one after the other, are ordered by `Rank`,
      and each kind of issue is in the list exactly when its check found it. */
  lemma IssuesInOrder(a: seq<DateIssue>, b: seq<DateIssue>, c: seq<DateIssue>)
    requires a == [] || a == [DerAfterDib]
    requires b == [] || (|b| == 1 && b[0].DibFarFromEvent?)
    requires c == [] || c == [DerInFuture]
    ensures DerAfterDib in a + b + c <==> a == [DerAfterDib]
    ensures forall n :: DibFarFromEvent(n) in a + b + c <==> DibFarFromEvent(n) in b
    ensures DerInFuture in a + b + c <==> c == [DerInFuture]
    ensures forall i, j :: 0 <= i < j < |a + b + c| ==> Rank((a + b + c)[i]) < Rank((a + b + c)[j])
  {
    var e := a + b + c;
    forall i | 0 <= i < |e|
      ensures Rank(e[i]) == (if i < |a| then 0 else if i < |a| + |b| then 1 else 2)
    {
      if i < |a| {
        assert e[i] == a[i];
      } else if i < |a| + |b| {
        assert e[i] == b[i - |a|];
      } else {
        assert e[i] == c[i - |a| - |b|];
      }
    }
  }

  /** `validar_consistencia_datas_previdenciarias` with today as a parameter. */
  method CheckBenefitDates(der: DateField, dib: DateField, evento: DateField,
                           today: CalendarDate, parse: string -> Option<CalendarDate>)
    returns (c: Consistency)
    ensures var rDer, rDib, rEv := Resolve(der, parse), Resolve(dib, parse), Resolve(evento, parse);
      && (c.Unprocessable? <==> rDer.Unparsable? || rDib.Unparsable? || rEv.Unparsable?)
      && (c.Checked? ==>
            && c.der == Known(rDer) && c.dib == Known(rDib)
            && (c.valid <==> c.errors == [])
            && (DerAfterDib in c.errors <==> rDer.Found? && rDib.Found? && Before(rDib.date, rDer.date))
            && (forall n :: DibFarFromEvent(n) in c.errors <==>
                  rEv.Found? && rDib.Found? && n == Abs(DaysBetween(rEv.date, rDib.date)) && n > EventWindow)
            && (DerInFuture in c.errors <==> rDer.Found? && Before(today, rDer.date))
            && (forall i, j :: 0 <= i < j < |c.errors| ==> Rank(c.errors[i]) < Rank(c.errors[j])))
  {
    var rDer := Resolve(der, parse);
    var rDib := Resolve(dib, parse);
    var rEv := Resolve(evento, parse);
    if rDer.Unparsable? || rDib.Unparsable? || rEv.Unparsable? {
      return Unprocessable;
    }
    var erros: seq<DateIssue> := [];
    if rDer.Found? && rDib.Found? && Before(rDib.date, rDer.date) {
      erros := erros + [DerAfterDib];
    }
    assert erros == OrderIssues(rDer, rDib);
    if rEv.Found? && rDib.Found? {
      var diferenca := Abs(DaysBetween(rEv.date, rDib.date));
      if diferenca > EventWindow {
        erros := erros + [DibFarFromEvent(diferenca)];
      }
    }
    assert erros == OrderIssues(rDer, rDib) + EventIssues(rEv, rDib);
    if rDer.Found? && Before(today, rDer.date) {
      erros := erros + [DerInFuture];
    }
    assert erros == OrderIssues(rDer, rDib) + EventIssues(rEv, rDib) + FutureIssues(rDer, today);
    IssuesInOrder(OrderIssues(rDer, rDib), EventIssues(rEv, rDib), FutureIssues(rDer, today));
    c := Checked(|erros| == 0, erros, Known(rDer), Known(rDib));
  }
}
