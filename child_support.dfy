// Models app/core/calculators/familia_calculator.py (`CalculadoraFamilia`).

module ChildSupport {
  import opened Wrappers

  /** The answer of `calcular_pensao_alimenticia`. */
  datatype Support = Support(income: real, available: real, children: int, rate: real,
                             perChild: real, total: real)

  /** `numero_filhos = 0` raises `ZeroDivisionError`. */
  datatype SupportError = DivisionByZero

  /** The share of the payer's income taken as available. */
  const AvailableShare: real := 0.70

  /** `calcular_pensao_alimenticia`, with the suggested percentage 30% by default. */
  function ComputeSupport(rendaAlimentante: real, numeroFilhos: int, percentualSugerido: real := 0.30)
    : (r: Result<Support, SupportError>)
    ensures r.Failure? <==> numeroFilhos == 0
    ensures r.Success? ==>
      && r.value.income == rendaAlimentante && r.value.children == numeroFilhos
      && r.value.rate == percentualSugerido
      && r.value.available == AvailableShare * rendaAlimentante
      && r.value.perChild * (numeroFilhos as real) == r.value.available * percentualSugerido
      && r.value.total == r.value.perChild * (numeroFilhos as real)
  {
    if numeroFilhos == 0 then Failure(DivisionByZero)
    else
      var rendaDisponivel := rendaAlimentante * 0.70;
      var valorPorFilho := (rendaDisponivel * percentualSugerido) / (numeroFilhos as real);
      Success(Support(rendaAlimentante, rendaDisponivel, numeroFilhos, percentualSugerido,
                      valorPorFilho, valorPorFilho * (numeroFilhos as real)))
  }

  /** The total is 70% of the income times the percentage, however many
      children share it. */
  lemma TotalIndependentOfChildren(renda: real, n: int, m: int, percentual: real)
    requires n != 0 && m != 0
    ensures ComputeSupport(renda, n, percentual).value.total == renda * 0.7 * percentual
    ensures ComputeSupport(renda, n, percentual).value.total == ComputeSupport(renda, m, percentual).value.total
  {
  }
}
