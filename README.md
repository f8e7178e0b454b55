# Brazilian legal-drafting service: a verified model of its calculators, validators and petition workflow

The service drafts Brazilian legal petitions with a language model. Around the
model sits a deterministic core, and that core is what this project models in
Dafny:

- the retirement transition rules of Constitutional Amendment 103/2019
  (`CalculadoraPrevidenciariaEC103`): the points rule (art. 15), the general
  rule (art. 19), the 50% toll rule (art. 17), the 100% toll rule (art. 20)
  and the selector of the best rule
- the benefit helpers of `CalculadoraPrevidenciaria`: unit normalisation,
  the grace period, hazard-time conversion, the value of a claim and the
  carência table
- the validators:
  - `DataValidator`: the CPF modulo-11 check digits, the age from a birth
    date, and the DER/DIB/event consistency check
  - `ValidadorJuridico`: the date order, the grace period, the time-unit
    heuristic, the rural/urban classifier and the document check
- the money formulas:
  - overtime, the unhealthy-work supplement (art. 192 of the CLT), and FGTS
    with the 40% fine (paragraph 1 of article 18 of Lei 8.036/1990)
  - notice pay (art. 1 of Lei 12.506/2011), proportional vacation and the
    severance total
  - late-payment interest, the judgment settlement and child support
- `FeedbackService`: the in-memory log of lawyers' corrections, the pattern
  analysis, the approval rate and the quality report with its ranked
  recommendations
- the petition life cycle of the petition routes: draft, background
  generation, human approval or rejection, and deletion, over a table from
  id to row
- the pure helpers of the AI service (keyword extraction, the recorded
  prompt summary, the system-prompt fallback, the context keyword filter)
  and of the PDF service (the line-to-section classifier, the month names)

## Layout

One module per source file, plus three shared modules:

| file | module | models |
|---|---|---|
| `wrappers.dfy` | `Wrappers` | `Option` and `Result` |
| `text.dfy` | `Text` | `str.lower`, `isupper`, `strip`, `split`, `startswith` and `in` on strings |
| `dates.dfy` | `Dates` | `datetime.date`: validity, ordering, `(b - a).days` through proleptic ordinals, and parsing a date argument |
| `transition_rules.dfy` | `TransitionRules` | `previdenciario_ec103_calculator.py` |
| `social_security.dfy` | `SocialSecurity` | `previdenciario_calculator.py` |
| `data_validation.dfy` | `DataValidation` | `data_validator.py` |
| `legal_validation.dfy` | `LegalValidation` | `juridico_validator.py` |
| `labour.dfy` | `Labour` | `trabalhista_calculator.py` |
| `severance.dfy` | `Severance` | `trabalhista_completa_calculator.py` |
| `interest.dfy` | `Interest` | `base_calculator.py` |
| `settlement.dfy` | `Settlement` | `processual_calculator.py` |
| `child_support.dfy` | `ChildSupport` | `familia_calculator.py` |
| `feedback.dfy` | `Feedback` | `feedback_service.py`, as the class `FeedbackService` over its list |
| `petitions.dfy` | `Petitions` | `peticoes.py`, as the class `PetitionStore` over a map from id to row |
| `ai_helpers.dfy` | `AiHelpers` | the pure helpers of `ai_service.py` |
| `pdf_sections.dfy` | `PdfSections` | `_dividir_em_secoes` and `_mes_por_extenso` of `pdf_service.py` |

Conventions:

- The current date and time (`date.today()`, `datetime.now()`, and the
  database clock that stamps an approval) are parameters.
- `date.fromisoformat` is a function parameter that returns `None` where
  Python raises.
- Money is `real`. Integer arithmetic is exact, as in Python.
- A date argument that may be absent, a `date`, or text is a `DateField`.
- A call that raises and is caught becomes an explicit error value.

## Notes on the code

The model follows the code as written. These outcomes of the code are worth
knowing, and each is stated in the model:

- **Points rule:** a fixed 99 points for "masculino" and 89 otherwise (the
  variable is named `pontos_2025`); no yearly progression is applied. Points
  add the age and the contribution time as given, whatever unit the time is in.
- **General rule:** 20 of contribution for both sexes, compared with the time
  as given, with no unit conversion.
- **50% toll rule:** minimum ages 65/62, the same as the general rule, and a
  pre-reform requirement of 35/30 on the scale of the time given.
- **A man aged 65 with 240 of contribution and none on 13/11/2019:** the
  general rule is eligible and both toll rules are not, but the points rule
  (65 + 240 ≥ 99) is eligible too and comes first, so the selector
  returns the points rule. This is proved as `TransitionRules.MaleAt65With240`.
- **Opposite date orders:** `validar_datas` rejects a DIB after the DER,
  while `validar_consistencia_datas_previdenciarias` flags a DER after the
  DIB. This is proved as `LegalValidation.DateOrderChecksAreOpposite`.
- **Severance total:** the FGTS entry has no `valor_total` key, so the
  severance total never includes FGTS or its fine. This is proved as
  `Severance.TotalLeavesOutFgts`.

## Model

| member | source | states |
|---|---|---|
| TransitionRules.PointsRule | app/core/calculators/previdenciario_ec103_calculator.py:57-77 | points are age plus time; 99 are required for "masculino" in any letter case and 89 for any other text; eligible exactly when the points reach the requirement; the shortfall is non-negative, zero exactly when eligible, and otherwise completes the points to the requirement; the 35/30 minimum time is only reported |
| TransitionRules.GeneralRule | app/core/calculators/previdenciario_ec103_calculator.py:79-99 | minimum age 65/62 and 20 of contribution for both sexes; eligible exactly when both are met, which is exactly when both shortfalls are zero; each shortfall is non-negative and completes its value to the minimum |
| TransitionRules.TollRule | app/core/calculators/previdenciario_ec103_calculator.py:101-167 | the time missing on 13/11/2019 is non-negative, zero exactly when the old 35/30 was reached, and otherwise completes it; the 50% toll is the ceiling of half of it and the 100% toll all of it; total = old requirement + toll; eligible exactly when the age (65/62 or 60/57) and the total are reached and there was time in 2019; the time still missing is zero exactly when the total is reached, and otherwise completes the time to the total |
| TransitionRules.EvaluateTransitionRules | app/core/calculators/previdenciario_ec103_calculator.py:9-55 | the four verdicts are evaluated in the order points, general, 50% toll, 100% toll; the eligible list is their order-preserving eligible subsequence; its length and 4 are the counts; the best rule is the selector's answer on the four |
| TransitionRules.Append | app/core/calculators/previdenciario_ec103_calculator.py:19-22 | one evaluation step appends the verdict to `todas_regras` and keeps `regras_elegiveis` equal to the eligible subsequence |
| TransitionRules.EligibleOnlyMembers | app/core/calculators/previdenciario_ec103_calculator.py:175 | the filtered list holds exactly the eligible verdicts, is no longer than the list, and is the whole list when all are eligible |
| TransitionRules.EligibleOnlyNone | app/core/calculators/previdenciario_ec103_calculator.py:175-177 | with no eligible verdict the filtered list is empty, so the selector takes its other branch |
| TransitionRules.EligibleOnlyAppend | app/core/calculators/previdenciario_ec103_calculator.py:20-22 | filtering a list extended by one verdict extends the filtered list by it exactly when it is eligible |
| TransitionRules.SelectorKey | app/core/calculators/previdenciario_ec103_calculator.py:179-189 | the key sums the three `get`s; each verdict carries exactly one of the three fields, so the key is twice the default plus that verdict's shortfall (1998 plus it when the default is 999) |
| TransitionRules.FirstMinIndex | app/core/calculators/previdenciario_ec103_calculator.py:179-189 | `min` with a key returns a position whose key is no larger than any other, and every earlier position has a strictly larger key (the first minimum) |
| TransitionRules.BestRule | app/core/calculators/previdenciario_ec103_calculator.py:169-196 | nothing is found exactly for an empty list; otherwise the answer is one of the verdicts; it is flagged as the closest exactly when no verdict is eligible, and is eligible otherwise |
| TransitionRules.EligibleKeyIsZero | app/core/calculators/previdenciario_ec103_calculator.py:179-182 | every eligible verdict of the four has key 0 under the default 0 |
| TransitionRules.EligibleOnlyStartsWithFirst | app/core/calculators/previdenciario_ec103_calculator.py:175 | the filtered list starts with the first eligible verdict |
| TransitionRules.BestIsFirstEligible | app/core/calculators/previdenciario_ec103_calculator.py:175-183 | when some rule is eligible, the selector returns the first eligible rule in evaluation order, unflagged |
| TransitionRules.ClosestRuleHasSmallestShortfall | app/core/calculators/previdenciario_ec103_calculator.py:184-196 | when none is eligible, the flagged answer is the first verdict whose single shortfall field is smallest |
| TransitionRules.FullTollNeedsAtLeastHalfToll | app/core/calculators/previdenciario_ec103_calculator.py:101-167 | for the same profile the 100% toll never requires less total time than the 50% toll |
| TransitionRules.NoTimeIn2019MeansNoToll | app/core/calculators/previdenciario_ec103_calculator.py:116-118 | with no time on 13/11/2019 neither toll rule is eligible, whatever the age and current time (the same guard is at lines 150-152) |
| TransitionRules.MasculinoIsMale | app/core/calculators/previdenciario_ec103_calculator.py:62 | the text "masculino" selects the male constants |
| TransitionRules.MaleAt65With240 | app/core/calculators/previdenciario_ec103_calculator.py:9-55 | for a man aged 65 with 240 and none on 13/11/2019, the general rule is eligible and both tolls are not, yet the points rule is selected |
| SocialSecurity.ToMonths | app/core/calculators/previdenciario_calculator.py:8-16 | a year alias (any letter case) multiplies by 12; a month alias keeps the value; any other unit keeps a value above 50 and multiplies the rest by 12 |
| SocialSecurity.YearsAndMonthsAgree | app/core/calculators/previdenciario_calculator.py:8-16 | n years and 12n months give the same months; an unknown unit treats 0..50 as years and larger values as months |
| SocialSecurity.GracePeriod | app/core/calculators/previdenciario_calculator.py:18-42 | the elapsed days are today minus the last contribution; "rural_pura" is always valid and has no remaining days; any other type is valid exactly up to 365 days, and its remaining days are non-negative, zero exactly from 365 on, and otherwise complete the elapsed days to 365 |
| SocialSecurity.ExpiredGraceLeavesNothing | app/core/calculators/previdenciario_calculator.py:31-42 | an expired grace period has 0 remaining days |
| SocialSecurity.ConvertMale | app/core/calculators/previdenciario_calculator.py:47 | the male conversion is the floor of 1.4 times the hazard time |
| SocialSecurity.ConvertFemale | app/core/calculators/previdenciario_calculator.py:48 | the female conversion is the floor of 1.2 times the hazard time |
| SocialSecurity.SumContributionTimes | app/core/calculators/previdenciario_calculator.py:44-60 | each total is rural + urban + that sex's conversion, and each year count is the floor of its total over 12 |
| SocialSecurity.MaleConversionDominates | app/core/calculators/previdenciario_calculator.py:47-48 | for non-negative hazard time, male ≥ female ≥ the time itself |
| SocialSecurity.ConversionsMonotone | app/core/calculators/previdenciario_calculator.py:47-48 | both conversions are monotone in the hazard time |
| SocialSecurity.ClaimValue | app/core/calculators/previdenciario_calculator.py:62-72 | 1000 when either input is not positive; otherwise (overdue + 12) instalments, which exceeds twelve instalments |
| SocialSecurity.ClaimValueExamples | app/core/calculators/previdenciario_calculator.py:62-72 | 12 instalments of 2500 give 60000, and none gives 1000 |
| SocialSecurity.CheckCarencia | app/core/calculators/previdenciario_calculator.py:74-94 | the required count is the table value, 12 for an unknown type; met exactly when the contributions reach it; the missing count is non-negative, zero exactly when met, and otherwise completes the contributions |
| SocialSecurity.NoCarenciaBenefits | app/core/calculators/previdenciario_calculator.py:82-83 | "pensao_morte" and "bpc_loas" are met by any non-negative count |
| Dates.BeforeIsOrdinalOrder | app/core/validators/data_validator.py:54 | comparing two dates field by field agrees with comparing their day numbers, and equal day numbers mean equal dates, so `(b - a).days` is positive exactly when a is before b |
| Dates.Resolve | app/core/validators/data_validator.py:46-51 | an absent argument stays absent, a date is kept, and text is parsed, with a parse failure kept as such |
| DataValidation.OnlyDigits | app/core/validators/data_validator.py:83 | the result holds only digits and is no longer than the input |
| DataValidation.OnlyDigitsIdempotent | app/core/validators/data_validator.py:83 | removing non-digits twice is the same as once |
| DataValidation.PunctuationIsIgnored | app/core/validators/data_validator.py:83 | a CPF and its digits alone get the same answer |
| DataValidation.CheckDigit | app/core/validators/data_validator.py:93-97 | the digit is in 0..9; it is 0 when the weighted sum leaves a remainder below 2, and otherwise it completes the sum to a multiple of 11 |
| DataValidation.Repeat | app/core/validators/data_validator.py:89 | `c * n` is n copies of c |
| DataValidation.FormatCpf | app/core/validators/data_validator.py:109 | `XXX.XXX.XXX-XX`: 14 characters, with the separators at 3, 7 and 11 and the digit groups in order |
| DataValidation.ValidateCpf | app/core/validators/data_validator.py:80-111 | the wrong-length error comes exactly when the digits are not 11; the repeated-digit error comes exactly for 11 equal digits; the CPF is valid exactly for 11 digits, not all equal, with both check digits right; a wrong first check digit gives the first-digit error and, with the first right, a wrong second one gives the second-digit error; a valid answer carries the bare digits and their `XXX.XXX.XXX-XX` layout |
| DataValidation.FormatCpfStrips | app/core/validators/data_validator.py:109 | stripping the punctuation of the layout gives the eleven digits back |
| DataValidation.FormattedStripsToNumeric | app/core/validators/data_validator.py:107-111 | for a valid CPF, stripping `cpf_formatado` gives `cpf_numerico` |
| DataValidation.CheckDigitOfNearMultiple | app/core/validators/data_validator.py:93-97 | a weighted sum of v·(11q − 1) yields check digit v |
| DataValidation.RepeatedDigitsPassTheCheckButAreRejected | app/core/validators/data_validator.py:89-90 | eleven equal digits satisfy both check-digit equations, and are rejected anyway |
| DataValidation.FirstCheckDigitExample | app/core/validators/data_validator.py:99-101 | the first check digit of 529.982.247 is 2 |
| DataValidation.SecondCheckDigitExample | app/core/validators/data_validator.py:103-105 | the second check digit of 529.982.247-2 is 5 |
| DataValidation.CompletedYearsUnique | app/core/validators/data_validator.py:14-20 | at most one age puts today on or after that birthday and before the next |
| DataValidation.CheckBirthDate | app/core/validators/data_validator.py:8-34 | invalid exactly when the date is absent or does not parse; otherwise the age is the number of birthdays completed by today, and the adult flag holds exactly from 18 |
| DataValidation.Abs | app/core/validators/data_validator.py:59 | the result is the number or its negation, and never negative |
| DataValidation.OrderIssues | app/core/validators/data_validator.py:53-55 | the DER-after-DIB issue is raised exactly when both dates are known and the DER is later |
| DataValidation.EventIssues | app/core/validators/data_validator.py:57-61 | the far-from-event issue with n days is raised exactly when the event and the DIB are known and n, their distance, exceeds 120 |
| DataValidation.FutureIssues | app/core/validators/data_validator.py:63-65 | the future-DER issue is raised exactly when the DER is known and after today |
| DataValidation.IssuesInOrder | app/core/validators/data_validator.py:53-65 | the three checks' findings appear in check order, and each is present exactly when its check found it |
| DataValidation.CheckBenefitDates | app/core/validators/data_validator.py:36-78 | a date text that does not parse gives the processing error; otherwise each issue is reported exactly when its condition holds, absent dates skip their checks, the issues are in check order, and the answer is valid exactly when there are none |
| LegalValidation.ValidateDates | app/core/validators/juridico_validator.py:8-28 | false for a DIB after the DER; otherwise true without a birth, and with one, true exactly when it parses and lies within one day of the DIB |
| LegalValidation.DateOrderChecksAreOpposite | app/core/validators/juridico_validator.py:11-12 | for distinct dates and no birth, `validar_datas` accepts exactly the pairs with the DIB first, the pairs the consistency check flags |
| LegalValidation.GracePeriodHolds | app/core/validators/juridico_validator.py:30-38 | the grace period holds exactly when at most 365 days separate the dates |
| LegalValidation.GracePeriodsAgree | app/core/validators/juridico_validator.py:30-38 | agrees with `calcular_periodo_graca` of the benefit calculator on every type but "rural_pura", and exactly 365 days is still inside |
| LegalValidation.ConvertSpecialTime | app/core/validators/juridico_validator.py:40-45 | a value above 100 is kept, any other is multiplied by 12 |
| LegalValidation.UnitHeuristicsDisagree | app/core/validators/juridico_validator.py:40-45 | for an unknown unit, this heuristic and `converter_anos_meses` differ exactly on 51..100 |
| LegalValidation.ClassifyInsured | app/core/validators/juridico_validator.py:47-64 | the answer is one of the three types: "hibrida" exactly when rural and urban terms both occur in the lower-cased history, "rural_pura" exactly when only rural ones do, "urbano" exactly when no rural term does |
| LegalValidation.ClassificationIgnoresCase | app/core/validators/juridico_validator.py:49 | a history and its lower-case form are classified alike |
| LegalValidation.LongerHistoryKeepsTerms | app/core/validators/juridico_validator.py:47-64 | extending a history never turns a rural or mixed one into urban, nor a mixed one into anything else |
| LegalValidation.DocumentsAccepted | app/core/validators/juridico_validator.py:66-73 | rejected exactly when the type is "rural_pura" and some document mentions "cnis" in any letter case |
| LegalValidation.DocumentsAcceptedPiecewise | app/core/validators/juridico_validator.py:66-73 | a list of documents is accepted exactly when each of two parts of it is |
| Labour.ComputeOvertime | app/core/calculators/trabalhista_calculator.py:8-32 | no overtime exactly when the real day does not exceed the contract; otherwise the daily excess is positive, the total hours are it times the days, the overtime rate is 1.5 times the hourly rate, and the value is hours times that rate |
| Labour.OvertimeValueFormula | app/core/calculators/trabalhista_calculator.py:18-23 | the value is excess × days × hourly rate × 3/2 |
| Labour.OvertimeMonotone | app/core/calculators/trabalhista_calculator.py:8-23 | a longer real day never lowers the overtime pay |
| Labour.InsalubrityRate | app/core/calculators/trabalhista_calculator.py:36-42 | the rate is 10%, 20% or 40%; 10% exactly for "minimo" and 40% exactly for "maximo", in any letter case |
| Labour.ComputeInsalubrity | app/core/calculators/trabalhista_calculator.py:34-54 | the base is always the minimum wage of 1320, and the supplement is 132, 264 or 528 |
| Labour.InsalubrityIgnoresSalary | app/core/calculators/trabalhista_calculator.py:44-46 | the employee's salary plays no part in the answer |
| Labour.UnknownGradeIsMedium | app/core/calculators/trabalhista_calculator.py:42 | any grade but minimo and maximo pays 264 |
| Labour.ComputeFgts | app/core/calculators/trabalhista_calculator.py:56-78 | the deposits are 8% of the salary sum; the fine is 40% of them for the two terminations without cause and 0 otherwise; the total is deposits plus fine |
| Labour.EmptyPeriodOwesNothing | app/core/calculators/trabalhista_calculator.py:58-59 | no salaries give zero deposits, fine and total |
| Labour.FgtsAdditive | app/core/calculators/trabalhista_calculator.py:56-78 | the totals over two consecutive periods add up to the total over the whole |
| Labour.FgtsTotalRate | app/core/calculators/trabalhista_calculator.py:58-77 | the total is 11.2% of the salaries with the fine and 8% without it |
| Severance.NoticeDays | app/core/calculators/trabalhista_completa_calculator.py:59 | the notice is min(30 + 3·years, 90) days: never above either, equal to one of them, and 90 once 30 + 3·years reaches it |
| Severance.NoticeDaysRange | app/core/calculators/trabalhista_completa_calculator.py:59 | for a non-negative service the notice is 30..90 days, and 90 exactly from 20 years on |
| Severance.NoticeDaysMonotone | app/core/calculators/trabalhista_completa_calculator.py:59 | longer service never shortens the notice |
| Severance.ComputeNotice | app/core/calculators/trabalhista_completa_calculator.py:52-67 | no notice exactly for terminations other than the two without cause; otherwise the daily value is salary/30 and the total is the daily value times the notice days |
| Severance.LongServiceNoticeIsThreeSalaries | app/core/calculators/trabalhista_completa_calculator.py:57-60 | from 20 years on, the notice pays three salaries |
| Severance.VacationForMonths | app/core/calculators/trabalhista_completa_calculator.py:75-81 | the proportional vacation is 1/12 of the salary per month, the third is a third of it, and the total is their sum |
| Severance.ComputeVacation | app/core/calculators/trabalhista_completa_calculator.py:69-89 | the months are the whole 30-day periods since admission, priced as above |
| Severance.VacationIsANinthPerMonth | app/core/calculators/trabalhista_completa_calculator.py:75-81 | with the third, each month is worth 1/9 of the salary |
| Severance.Repeat | app/core/calculators/trabalhista_completa_calculator.py:36 | `[salario] * n` has max(n, 0) copies of the salary |
| Severance.FgtsOverMonthsOfService | app/core/calculators/trabalhista_completa_calculator.py:36 | the FGTS entry's deposits are 8% of the salary times the months of service |
| Severance.ComputeSeverance | app/core/calculators/trabalhista_completa_calculator.py:9-50 | the six entries are in order, with a missing salary taken as 0 and a missing type as "sem_justa_causa"; the FGTS entry is computed over one salary per month; the total is the sum of the `valor_total` of the entries, which is saldo + notice + 13th + vacation + unemployment insurance |
| Severance.TotalLeavesOutFgts | app/core/calculators/trabalhista_completa_calculator.py:41-43 | an entry without `valor_total` in fifth place adds nothing to the total |
| Interest.InterestForDays | app/core/calculators/base_calculator.py:14-30 | nothing is late for zero or fewer days; otherwise the interest is principal × rate × days/30; the total is always principal + interest |
| Interest.ComputeLateInterest | app/core/calculators/base_calculator.py:8-31 | a due date on or after today gives 0 days and 0 interest; otherwise the days late are the positive distance to today, priced per 30 days as above |
| Interest.MoreDaysMoreInterest | app/core/calculators/base_calculator.py:21-22 | for non-negative principal and rate, more days never give less interest |
| Interest.LaterPaymentCostsMore | app/core/calculators/base_calculator.py:11-22 | for non-negative principal and rate, a later today never gives less interest |
| Interest.InterestForDaysScales | app/core/calculators/base_calculator.py:21-22 | the interest is proportional to the principal |
| Interest.AnnualRate | app/core/calculators/base_calculator.py:40-46 | INPC 4.5%, IPCA 4.2%, SELIC 10.5%, and 4.5% for any other index name |
| Interest.RatesAgainstDefault | app/core/calculators/base_calculator.py:40-46 | only IPCA and SELIC differ from the default, and every rate is between 4% and 11% |
| Settlement.YearsElapsed | app/core/calculators/processual_calculator.py:13 | the years elapsed are the days elapsed over 365, and 0 when the date is after today |
| Settlement.CorrectedPrincipal | app/core/calculators/processual_calculator.py:8-16 | specifies `Correction` (`_aplicar_correcao_ipca`): a date on or after today adds no correction; otherwise principal + correction is the principal grown by the IPCA factor over the years elapsed |
| Settlement.InterestForDays | app/core/calculators/processual_calculator.py:23-24 | zero for no days; otherwise 1% of the value per 30 days |
| Settlement.InterestSince | app/core/calculators/processual_calculator.py:18-24 | a date on or after today gives no interest; otherwise the days to today are positive and priced at 1% per 30 days |
| Settlement.InterestAgreesWithBaseCalculator | app/core/calculators/processual_calculator.py:18-24 | equals the late-payment interest of `BaseCalculator` at its default rate |
| Settlement.Liquidate | app/core/calculators/processual_calculator.py:26-46 | the fees are 10% of principal plus correction when asked for, 0 otherwise; the total is principal + correction + interest + fees |
| Settlement.FutureJudgmentIsPrincipalAndFees | app/core/calculators/processual_calculator.py:26-37 | a judgment dated today or later settles for the principal, plus 10% when fees are asked for |
| Settlement.FeesIgnoreInterest | app/core/calculators/processual_calculator.py:34-37 | the total is 1.1 × (principal + correction) + interest: interest never enters the fee base |
| ChildSupport.ComputeSupport | app/core/calculators/familia_calculator.py:7-23 | zero children is a division error; otherwise 70% of the income is available, each child gets the available amount times the percentage divided by the children, and the total is the per-child value times the children |
| ChildSupport.TotalIndependentOfChildren | app/core/calculators/familia_calculator.py:12-21 | the total is income × 0.7 × percentage, whatever the number of children |
| Feedback.FeedbackService.constructor | app/services/feedback_service.py:8-9 | the log starts empty |
| Feedback.FeedbackService.RegisterCorrection | app/services/feedback_service.py:11-29 | exactly one unapproved entry with the given id, corrections, time and "correcao_humana" is appended; earlier entries are untouched; true is answered; a log that had no approvals still has rate 0 |
| Feedback.FeedbackService.AnalysePatterns | app/services/feedback_service.py:84-97 | one pattern per correction of the log, in order, with frequency 1 and defaults "indefinido" and ""; none when some correction is not a dict |
| Feedback.FeedbackService.TrainModel | app/services/feedback_service.py:31-49 | the pattern count is the number of corrections, and the suggestions are the first min(5, count) patterns; an error when the analysis raises |
| Feedback.FeedbackService.ApprovalRate | app/services/feedback_service.py:99-107 | the rate is 100 × approved / total over the log, a percentage in 0..100, and 0 for an empty log |
| Feedback.ApprovedCount | app/services/feedback_service.py:104-105 | the approved entries number between 0 and the length of the log |
| Feedback.RateIsPercentage | app/services/feedback_service.py:99-107 | 100 × approved / total lies in 0..100 |
| Feedback.UnapprovedLogRateIsZero | app/services/feedback_service.py:99-107 | a log without approved entries has rate 0 |
| Feedback.NonRecordSpoilsLog | app/services/feedback_service.py:66-69 | a correction that is not a dict, in any entry, makes the log unprocessable |
| Feedback.TiposOf | app/services/feedback_service.py:68 | one type per correction |
| Feedback.CounterOfKeys | app/services/feedback_service.py:65-74 | the counter's keys are the types met, listed in order of first appearance |
| Feedback.FirstSeenIsDistinct | app/services/feedback_service.py:74 | the keys are distinct and cover every type met |
| Feedback.CounterOfMultiplicity | app/services/feedback_service.py:65-69 | each count is the number of corrections of that type |
| Feedback.CounterOfCounts | app/services/feedback_service.py:65-74 | `correcoes_por_tipo` holds each type met once, in first-seen order, with the number of its corrections |
| Feedback.FeedbackService.CountEntry | app/services/feedback_service.py:67-69 | counting one entry's corrections extends the count of the corrections before them; none when one is not a dict |
| Feedback.FeedbackService.CountByType | app/services/feedback_service.py:65-69 | the loop computes the count of all the log's corrections, or fails exactly when some correction is not a dict |
| Feedback.Items | app/services/feedback_service.py:113 | one item per key of the counter, in insertion order |
| Feedback.Insert | app/services/feedback_service.py:113-114 | insertion adds exactly one element |
| Feedback.InsertPermutes | app/services/feedback_service.py:113-114 | insertion adds the element and loses nothing |
| Feedback.SortByFrequency | app/services/feedback_service.py:113-114 | the ranking has as many items as the counter |
| Feedback.SortPermutes | app/services/feedback_service.py:113-114 | the ranking is a permutation of the items |
| Feedback.InsertKeepsDescending | app/services/feedback_service.py:113-114 | inserting into a descending list keeps it descending |
| Feedback.SortIsDescending | app/services/feedback_service.py:113-114 | the ranking is in descending frequency |
| Feedback.InsertIsStable | app/services/feedback_service.py:113-114 | insertion keeps the order of the items of each frequency |
| Feedback.SortIsStable | app/services/feedback_service.py:113-114 | the sort is stable: items of equal frequency keep their order |
| Feedback.RecommendationsFor | app/services/feedback_service.py:109-124 | at most three recommendations, one per top-ranked type |
| Feedback.RecommendationsFollowRanking | app/services/feedback_service.py:109-124 | the i-th recommendation is the message for the i-th ranked type, and the types chosen are at least as frequent as every type left out |
| Feedback.FeedbackService.GenerateRecommendations | app/services/feedback_service.py:109-124 | the loop produces the recommendations of the top three ranked types, in ranking order |
| Feedback.FeedbackService.MakeQualityReport | app/services/feedback_service.py:51-82 | an empty log gives total 0, rate 0, no errors and the waiting message; a correction that is not a dict gives the error report; otherwise the total, the rate, the first five types met, the counts and their recommendations |
| Petitions.Draft | app/api/routes/peticoes.py:34-40 | a new row is a draft, not approved, with no text, PDF or approval date, holding the form data given |
| Petitions.AfterGeneration | app/api/routes/peticoes.py:83-96 | on success the text, the PDF path and the metadata (defaulting to [], [] and "") are stored and the status becomes GERADA, and every other field is unchanged; on failure only the status goes back to RASCUNHO |
| Petitions.AfterDecision | app/api/routes/peticoes.py:157-160 | the intended decision: the decision and notes are stored; approval sets APROVADA with the approval time, rejection sets RASCUNHO with none; every other field of the row is unchanged |
| Petitions.DecisionAsWritten | app/api/routes/peticoes.py:157-162 | as written, an approval fails with 500 because the session has no `func`; a rejection succeeds with the intended rejected row, RASCUNHO, unapproved and without an approval time |
| Petitions.ApprovalAsWrittenFails | app/api/routes/peticoes.py:160 | the intended approval sets APROVADA, yet as written every approval fails and no successful decision leaves a row APROVADA |
| Petitions.DraftIsWellFormed | app/api/routes/peticoes.py:34-40 | a new draft satisfies the row invariant: an approval date exactly when a human approved it, approval only with human approval, a text on every GERADA or APROVADA row, and never ENVIADA |
| Petitions.GenerationKeepsWellFormed | app/api/routes/peticoes.py:71-96 | generation keeps a row well formed, whatever the services return |
| Petitions.DecisionKeepsWellFormed | app/api/routes/peticoes.py:143-160 | a decision on a generated row keeps it well formed, and an approved row always has its text |
| Petitions.PetitionStore.constructor | app/models/peticao.py:20-23 | the table starts empty, with ids from 1 |
| Petitions.PetitionStore.Create | app/api/routes/peticoes.py:34-53 | a draft is stored under a fresh id; no other row changes |
| Petitions.PetitionStore.Generate | app/api/routes/peticoes.py:62-98 | a missing id changes nothing; otherwise only that row takes the services' outcome (GERADA on success, RASCUNHO on failure) |
| Petitions.PetitionStore.Approve | app/api/routes/peticoes.py:136-167 | the intended handler: an unknown id gives 404 and a row not GERADA gives 400, both with no change; otherwise only that row records the decision and the new status is answered |
| Petitions.PetitionStore.ApproveAsWritten | app/api/routes/peticoes.py:136-167 | the handler as written: 404 and 400 as intended; approving a GERADA row answers 500 and changes nothing; a rejection is recorded; no row becomes APROVADA |
| Petitions.PetitionStore.Delete | app/api/routes/peticoes.py:191-211 | an unknown id gives 404; otherwise exactly that row is removed and every other row is unchanged |
| AiHelpers.KeepKeywords | app/services/ai_service.py:399-402 | the words kept are keywords (longer than 3 and not stopwords) from the list, and every keyword of the list is kept |
| AiHelpers.KeepKeywordsConcat | app/services/ai_service.py:399-402 | filtering a concatenation filters each part |
| AiHelpers.Take | app/services/ai_service.py:404 | `lista[:n]` is the prefix of length min(n, length) |
| AiHelpers.KeywordsOfWords | app/services/ai_service.py:398-404 | at most 10 words, all keywords from the list, a prefix of the filtered words, of length min(10, number that pass), so every occurrence is kept up to the tenth |
| AiHelpers.Keywords | app/services/ai_service.py:389-404 | the keywords of the words of the lower-cased text: at most 10, each a whitespace-free word that passes the filter |
| AiHelpers.KeywordsOfLongerList | app/services/ai_service.py:398-404 | more words never displace a keyword already found, and once 10 are found nothing changes |
| AiHelpers.FewKeywordsAreAllKept | app/services/ai_service.py:399-404 | with at most 10 passing words, every one of them is returned |
| AiHelpers.PromptSummary | app/services/ai_service.py:109 | a prompt of up to 500 characters is kept; a longer one becomes its first 500 characters and "..." |
| AiHelpers.SummaryIsIdempotent | app/services/ai_service.py:109 | summarising a summary changes nothing |
| AiHelpers.SummaryKeepsOnlyTheStart | app/services/ai_service.py:109 | two long prompts with the same first 500 characters are recorded alike |
| AiHelpers.SystemPromptArea | app/services/ai_service.py:112-165 | one of the three prompts is chosen: the area's own, or "previdenciario" for an unknown area |
| AiHelpers.SystemPromptChoiceIsStable | app/services/ai_service.py:165 | the choice for a chosen area is that area |
| AiHelpers.KeepMeaningful | app/services/ai_service.py:269 | only values present and longer than 2 are kept, and each of them is kept |
| AiHelpers.KeepMeaningfulConcat | app/services/ai_service.py:269 | filtering a concatenation filters each part, so the values kept keep their order and repetitions |
| AiHelpers.ContextFields | app/services/ai_service.py:257-266 | each area looks up at most two fields |
| AiHelpers.ContextKeywords | app/services/ai_service.py:255-269 | the meaningful values of the area's fields in field order: at most two keywords; each is longer than 2 and is the value of one of the area's fields; every such meaningful value is kept |
| AiHelpers.ContextKeywordsInFieldOrder | app/services/ai_service.py:258-269 | for "previdenciario" and "consumidor" the keywords are the first field's value then the second's, each present iff it is meaningful, so order and equal values are kept |
| AiHelpers.OtherAreasHaveNoKeywords | app/services/ai_service.py:255-269 | areas other than "previdenciario" and "consumidor" search with no keywords |
| PdfSections.Classify | app/services/pdf_service.py:165-185 | a title exactly when the line is all capitals or opens with one of the four prefixes; a qualification exactly when it is not a title and its lower-case form contains a qualification term; a paragraph otherwise |
| PdfSections.KeptLine | app/services/pdf_service.py:160-163 | a blank line contributes nothing; any other contributes itself stripped |
| PdfSections.KeptLines | app/services/pdf_service.py:157-163 | the kept lines are non-empty and already stripped, and no more numerous than the lines |
| PdfSections.SectionOf | app/services/pdf_service.py:160-185 | a line gives one section exactly when it is kept, classified by its stripped text |
| PdfSections.SplitSections | app/services/pdf_service.py:155-187 | the loop builds the sections of the text's lines split on '\n' |
| PdfSections.SectionsFollowKeptLines | app/services/pdf_service.py:157-187 | there is one section per kept line, in order, holding that line and classified by it |
| PdfSections.NonBlankLinesAreKept | app/services/pdf_service.py:160-163 | every line that is not blank is kept, stripped |
| PdfSections.SectionsConcat | app/services/pdf_service.py:157-187 | two parts of a text give the sections of each part, one after the other |
| PdfSections.LowerCaseOpeningIsNotTitle | app/services/pdf_service.py:166-170 | a line that opens with a lower-case letter is never a title |
| PdfSections.RgInsideAWordIsQualification | app/services/pdf_service.py:176 | "rg" is found inside words: the line "orgao" is taken for a qualification |
| PdfSections.MonthName | app/services/pdf_service.py:212-218 | a name exactly for -13..12; 0..12 index the list, with 0 giving "", and a negative index counts from the end |
| PdfSections.MonthNamesAreDistinct | app/services/pdf_service.py:214-217 | the twelve months have distinct, non-empty names |
| PdfSections.NegativeMonthWrapsAround | app/services/pdf_service.py:218 | a negative index names the month 13 places above it |

## Left out

- Rounding: every `round(x, 2)` and `round(x, 4)` of the answers is left out. Money is exact `real`.
- Floating point: `dias / 30`, `salario / 12` and the other divisions are exact `real` divisions.
- SocialSecurity.ConvertMale: `math.floor(especial * 1.4)` is taken on the exact decimal 1.4. Binary rounding of the product is not modelled. The same holds for ConvertFemale and 1.2.
- Settlement.Correction: `(1 + taxa) ** anos` is real exponentiation. It is a function parameter `growth`, so the correction is stated only relative to it.
- Interest.AnnualRate: only the index table of `aplicar_correcao_monetaria` is modelled. The corrected value needs the same exponentiation.
- `_calcular_tempo_servico`, `_calcular_saldo_salario`, `_calcular_decimo_terceiro` and `_calcular_seguro_desemprego` are not part of this model. `Severance.ComputeSeverance` takes their results as parameters.
- Dates: `date.fromisoformat` is a parameter, so the ISO text format is not modelled. A date argument of any other Python type, such as a number, is not modelled.
- LegalValidation.ValidateDates: a `data_parto` entry that is present but neither text nor a date, such as `None`, makes the code raise `TypeError`. The model does not have that case.
- Text: case mapping and whitespace cover ASCII and Latin-1, which hold every Portuguese letter. `str.lower`, `str.isupper`, `str.strip` and `str.split` on characters beyond Latin-1 (such as the Unicode space separators U+2000..U+200A) are not modelled.
- AiHelpers.ContextKeywords: `dados_especificos` is taken as already defaulted to `{}`. Its values are taken as text or null. A non-text value, on which `len` raises, is not modelled.
- The language-model calls, the retrieval service, the prompt templates and the rest of `gerar_peticao` are left out. Petition generation takes their outcome as a parameter, `Generation`.
- PDF rendering, the PDF file path and its removal on deletion are left out.
- Petitions: `created_at` and `updated_at` are left out. So are the database session, commit and rollback, and the HTTP 500 raised when creation fails.
- Petitions.PetitionStore.Generate: the outcome is one value. An exception raised while looking the row up, where the handler itself fails, is not modelled.
- The read-only petition handlers (`listar_peticoes`, `obter_peticao`, `verificar_status_peticao`) are left out. They change nothing.
- Feedback.FeedbackService.RegisterCorrection: the `except` branch that answers `False` is not modelled. Appending to a list cannot raise there.
- Feedback: a `correcoes` value that is a dict iterates over its keys, and those are strings. Each such element is modelled as `NotARecord`, on which `.get` raises. Console output (`print`) is left out.
- Feedback.FeedbackService.ApprovalRate: the two-decimal rounding is left out. The rate is exact.
- Interest.InterestForDaysScales: proportionality to the principal is stated on the days-level function. `ComputeLateInterest` delegates to that function.

## Findings

| source | as written | input that shows it | evidently intended | confidence | as-written member | corrected member |
|---|---|---|---|---|---|---|
| app/api/routes/peticoes.py:160 | `db.func.now()` reads `func` from the database session, which has no such attribute, so every approval raises `AttributeError` before `db.commit()`, the request answers 500 and the row stays GERADA | `POST /{id}/aprovar` with `aprovado = true` on a GERADA row | the database clock `func.now()` from `sqlalchemy.sql`, as `app/models/peticao.py:48` uses it, so the approval and its time are stored | high that the attribute is missing; not executed | Petitions.PetitionStore.ApproveAsWritten, Petitions.ApprovalAsWrittenFails | Petitions.PetitionStore.Approve |
