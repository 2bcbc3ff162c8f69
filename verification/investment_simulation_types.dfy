/**
 * The value types of the simulation service.  Inputs are exact reals (the
 * program's numbers, without binary floating point); every monetary output is
 * a whole number of cents.
 */
module InvestmentSimulationTypes {
  import opened Money

  /** The simulation request: principal, monthly contribution, monthly rate in percent, term in months. */
  datatype InvestmentSimulationParams = InvestmentSimulationParams(
    valorInicial: real,
    aporteMensal: real,
    taxaJuros: real,
    prazo: int)

  /** The closed-form summary, in cents. */
  datatype InvestmentProjectionResult = InvestmentProjectionResult(
    montanteFinal: int,
    valorTotalInvestido: int,
    jurosAcumulados: int)

  /** One month of the ledger; the three amounts are in cents. */
  datatype MonthlyEvolutionItem = MonthlyEvolutionItem(
    mes: int,
    aporteRealizado: int,
    jurosDoMes: int,
    montanteAcumulado: int)

  /** Largest amount the request schema admits for the principal and the contribution. */
  const MaxAmount: real := 999999999.99

  /**
   * The bounds the request schema enforces before either routine runs:
   * amounts in [0, 999999999.99] with at most two decimals, a rate in
   * [0.1, 20] with at most two decimals, and a whole term in [1, 600].
   */
  predicate ValidParams(p: InvestmentSimulationParams)
    ensures ValidParams(p) ==> p.taxaJuros > 0.0 && p.prazo >= 1
    ensures ValidParams(p) ==> p.valorInicial >= 0.0 && p.aporteMensal >= 0.0
  {
    && 0.0 <= p.valorInicial <= MaxAmount && IsCents(p.valorInicial)
    && 0.0 <= p.aporteMensal <= MaxAmount && IsCents(p.aporteMensal)
    && 0.1 <= p.taxaJuros <= 20.0 && IsCents(p.taxaJuros)
    && 1 <= p.prazo <= 600
  }
}
