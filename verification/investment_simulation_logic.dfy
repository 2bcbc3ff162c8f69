/**
 * The calculation engine: the closed-form projection and the month-by-month
 * ledger.  The two routines are independent; neither is derived from the other.
 */
module InvestmentSimulationLogic {
  import opened Money
  import opened InvestmentSimulationTypes

  // ---------------------------------------------------------------------------
  // Closed-form projection
  // ---------------------------------------------------------------------------

  /** `x` raised to a whole power. */
  function Pow(x: real, n: nat): real
    decreases n
  {
    if n == 0 then 1.0 else x * Pow(x, n - 1)
  }

  /** Bernoulli's inequality: (1 + i)^n >= 1 + n*i for every i >= -1. */
  lemma {:induction false} Bernoulli(i: real, n: nat)
    requires i >= -1.0
    ensures Pow(1.0 + i, n) >= 1.0 + n as real * i
  {
    if n > 0 {
      Bernoulli(i, n - 1);
      var f := Pow(1.0 + i, n - 1);
      var lower := 1.0 + (n - 1) as real * i;
      assert f >= lower;
      MulMonotone(1.0 + i, lower, f);
      assert (1.0 + i) * lower == 1.0 + n as real * i + (n - 1) as real * (i * i);
      assert (n - 1) as real * (i * i) >= 0.0;
    }
  }

  /** A product with a positive factor that is non-negative has a non-negative other factor. */
  lemma SignOfFactor(a: real, k: real)
    requires k > 0.0 && a * k >= 0.0
    ensures a >= 0.0
  {
  }

  /** Multiplying by a non-negative factor preserves order. */
  lemma MulMonotone(k: real, a: real, b: real)
    requires k >= 0.0 && a <= b
    ensures k * a <= k * b
  {
    assert k * b - k * a == k * (b - a);
  }

  /**
   * The final amount (principal compounded plus the annuity of the
   * contributions), the total invested and the accumulated interest, each
   * rounded to cents; the interest is taken from the two rounded figures.
   * The rate is divided by, so it must not be zero; the term is a whole number
   * of months.
   */
  function CalculateInvestmentProjection(p: InvestmentSimulationParams): (r: InvestmentProjectionResult)
    requires p.taxaJuros != 0.0 && p.prazo >= 0
    ensures r.jurosAcumulados == r.montanteFinal - r.valorTotalInvestido
  {
    var taxaDecimal := p.taxaJuros / 100.0;
    var fatorJuros := Pow(1.0 + taxaDecimal, p.prazo);
    var montanteInicial := p.valorInicial * fatorJuros;
    var montanteAportes := p.aporteMensal * ((fatorJuros - 1.0) / taxaDecimal);
    var montanteFinal := ToFixed2(montanteInicial + montanteAportes);
    assert montanteInicial + montanteAportes == RawFinalAmount(p);
    var valorTotalInvestido := ToFixed2(p.valorInicial + p.aporteMensal * p.prazo as real);
    assert ToReal(montanteFinal) - ToReal(valorTotalInvestido) == ToReal(montanteFinal - valorTotalInvestido);
    RoundCentsOfCents(montanteFinal - valorTotalInvestido);
    var jurosAcumulados := ToFixed2(ToReal(montanteFinal) - ToReal(valorTotalInvestido));
    InvestmentProjectionResult(montanteFinal, valorTotalInvestido, jurosAcumulados)
  }

  /**
   * The unrounded final amount of the closed form: over no months it is the
   * principal, over one month the principal with one month's interest plus a
   * single contribution.
   */
  function RawFinalAmount(p: InvestmentSimulationParams): (m: real)
    requires p.taxaJuros != 0.0 && p.prazo >= 0
    ensures p.prazo == 0 ==> m == p.valorInicial
    ensures p.prazo == 1 ==> m == p.valorInicial * (1.0 + p.taxaJuros / 100.0) + p.aporteMensal
  {
    var i := p.taxaJuros / 100.0;
    var f := Pow(1.0 + i, p.prazo);
    assert p.prazo == 1 ==> f - 1.0 == i;
    assert i != 0.0 && i / i == 1.0;
    p.valorInicial * f + p.aporteMensal * ((f - 1.0) / i)
  }

  /** With whole-cent inputs the total invested is exactly principal plus term times contribution. */
  lemma TotalInvestedExact(p: InvestmentSimulationParams)
    requires p.taxaJuros != 0.0 && p.prazo >= 0
    requires IsCents(p.valorInicial) && IsCents(p.aporteMensal)
    ensures ToReal(CalculateInvestmentProjection(p).valorTotalInvestido)
            == p.valorInicial + p.aporteMensal * p.prazo as real
  {
    CentsAreCents(p.valorInicial);
    CentsAreCents(p.aporteMensal);
    var a := RoundCents(p.valorInicial);
    var b := RoundCents(p.aporteMensal);
    ScaledCents(b, p.prazo);
    var total := a + b * p.prazo;
    assert p.valorInicial + p.aporteMensal * p.prazo as real == ToReal(total);
    RoundCentsOfCents(total);
    assert CalculateInvestmentProjection(p).valorTotalInvestido
           == ToFixed2(p.valorInicial + p.aporteMensal * p.prazo as real);
  }

  /** n times an amount of whole cents is n times as many cents. */
  lemma ScaledCents(b: int, n: int)
    ensures ToReal(b) * n as real == ToReal(b * n)
  {
    assert (b * n) as real == b as real * n as real;
  }

  /**
   * With a positive rate and non-negative amounts, the unrounded final amount
   * is at least principal*(1 + n*i) plus n contributions.
   */
  lemma {:induction false} RawFinalAmountLowerBound(p: InvestmentSimulationParams)
    requires p.taxaJuros > 0.0 && p.prazo >= 0
    requires p.valorInicial >= 0.0 && p.aporteMensal >= 0.0
    ensures RawFinalAmount(p)
            >= p.valorInicial * (1.0 + p.prazo as real * (p.taxaJuros / 100.0))
               + p.aporteMensal * p.prazo as real
  {
    var i := p.taxaJuros / 100.0;
    var n := p.prazo as real;
    var f := Pow(1.0 + i, p.prazo);
    Bernoulli(i, p.prazo);
    MulMonotone(p.valorInicial, 1.0 + n * i, f);
    var q := (f - 1.0) / i;
    assert q * i == f - 1.0;
    assert (q - n) * i == (f - 1.0) - n * i;
    SignOfFactor(q - n, i);
    MulMonotone(p.aporteMensal, n, q);
  }

  /** With a positive rate and non-negative amounts, what is paid in never exceeds the unrounded final amount. */
  lemma InvestedBelowRawFinalAmount(p: InvestmentSimulationParams)
    requires p.taxaJuros > 0.0 && p.prazo >= 0
    requires p.valorInicial >= 0.0 && p.aporteMensal >= 0.0
    ensures 0.0 <= p.valorInicial + p.aporteMensal * p.prazo as real <= RawFinalAmount(p)
  {
    var i := p.taxaJuros / 100.0;
    var n := p.prazo as real;
    RawFinalAmountLowerBound(p);
    assert p.valorInicial * (n * i) >= 0.0;
    assert p.valorInicial * (1.0 + n * i) == p.valorInicial + p.valorInicial * (n * i);
    assert p.aporteMensal * n >= 0.0;
  }

  /**
   * For a positive rate and non-negative amounts the projection never loses
   * money: the final amount is at least the total invested, so the
   * accumulated interest is non-negative.
   */
  lemma FinalAmountCoversInvestment(p: InvestmentSimulationParams)
    requires p.taxaJuros > 0.0 && p.prazo >= 0
    requires p.valorInicial >= 0.0 && p.aporteMensal >= 0.0
    ensures CalculateInvestmentProjection(p).montanteFinal
            >= CalculateInvestmentProjection(p).valorTotalInvestido
    ensures CalculateInvestmentProjection(p).jurosAcumulados >= 0
  {
    var raw := RawFinalAmount(p);
    var total := p.valorInicial + p.aporteMensal * p.prazo as real;
    InvestedBelowRawFinalAmount(p);
    var r := CalculateInvestmentProjection(p);
    assert r.montanteFinal == ToFixed2(raw);
    assert r.valorTotalInvestido == ToFixed2(total);
    RoundCentsMonotone(total, raw);
  }

  /** The closed form rounds its unrounded final amount: the result is within half a cent of it. */
  lemma FinalAmountIsRounded(p: InvestmentSimulationParams)
    requires p.taxaJuros > 0.0 && p.prazo >= 0
    requires p.valorInicial >= 0.0 && p.aporteMensal >= 0.0
    ensures ToReal(CalculateInvestmentProjection(p).montanteFinal) + 0.005 > RawFinalAmount(p)
    ensures ToReal(CalculateInvestmentProjection(p).montanteFinal) - 0.005 <= RawFinalAmount(p)
  {
    FinalAmountCoversInvestment(p);
    RawFinalAmountLowerBound(p);
    assert p.valorInicial * (p.prazo as real * (p.taxaJuros / 100.0)) >= 0.0;
    assert p.aporteMensal * p.prazo as real >= 0.0;
  }

  // ---------------------------------------------------------------------------
  // Month-by-month ledger
  // ---------------------------------------------------------------------------

  /** The contribution applied in month `mes`: none in the first month, the monthly amount afterwards. */
  function Contribution(p: InvestmentSimulationParams, mes: int): real
  {
    if mes == 1 then 0.0 else p.aporteMensal
  }

  /**
   * One month's interest: `base` times the decimal rate, rounded to cents.
   * It is never negative when neither factor is.
   */
  function MonthlyInterest(base: real, taxaDecimal: real): (juros: int)
    ensures base >= 0.0 && taxaDecimal >= 0.0 ==> juros >= 0
  {
    assert base >= 0.0 && taxaDecimal >= 0.0 ==> base * taxaDecimal >= 0.0;
    ToFixed2(base * taxaDecimal)
  }

  /**
   * The ledger entry for month `mes` when `prev` is carried into it: interest
   * on balance plus contribution, rounded to cents, then the new balance,
   * rounded to cents.
   */
  function MonthStep(p: InvestmentSimulationParams, mes: int, prev: real): (r: MonthlyEvolutionItem)
    ensures r.mes == mes
    ensures mes == 1 ==> r.aporteRealizado == 0
    ensures prev + Contribution(p, mes) >= 0.0 && p.taxaJuros >= 0.0 ==>
              && r.jurosDoMes >= 0
              && ToReal(r.montanteAcumulado) - 0.005 <= prev + Contribution(p, mes) + ToReal(r.jurosDoMes)
              && prev + Contribution(p, mes) + ToReal(r.jurosDoMes) < ToReal(r.montanteAcumulado) + 0.005
  {
    RoundCentsOfCents(0);
    var aporte := Contribution(p, mes);
    var base := prev + aporte;
    var juros := MonthlyInterest(base, p.taxaJuros / 100.0);
    var montante := ToFixed2(base + ToReal(juros));
    MonthlyEvolutionItem(mes, ToFixed2(aporte), juros, montante)
  }

  /**
   * The balance carried into month `mes`: the principal for the first month,
   * afterwards the rounded balance of the month before.
   */
  function Carried(p: InvestmentSimulationParams, mes: nat): (prev: real)
    requires mes >= 1
    ensures mes == 1 ==> prev == p.valorInicial
    ensures mes >= 2 ==> IsCents(prev)
    decreases mes
  {
    if mes == 1 then p.valorInicial
    else
      var c := MonthStep(p, mes - 1, Carried(p, mes - 1)).montanteAcumulado;
      RoundCentsOfCents(c);
      CentsAreCents(ToReal(c));
      ToReal(c)
  }

  /**
   * The ledger entry of month `mes`: it carries its month number and, in the
   * first month, no contribution.
   */
  function Entry(p: InvestmentSimulationParams, mes: nat): (e: MonthlyEvolutionItem)
    requires mes >= 1
    ensures e.mes == mes
    ensures mes == 1 ==> e.aporteRealizado == 0
  {
    MonthStep(p, mes, Carried(p, mes))
  }

  /**
   * Builds the ledger by walking the months in order and carrying each
   * rounded balance into the next month.  It has one entry per month of the
   * term (none for a term below one), entry k being the entry of month k + 1.
   */
  method CalculateMonthlyEvolution(p: InvestmentSimulationParams) returns (evolution: seq<MonthlyEvolutionItem>)
    ensures |evolution| == if p.prazo < 1 then 0 else p.prazo
    ensures forall k :: 0 <= k < |evolution| ==> evolution[k].mes == k + 1
    ensures forall k :: 0 <= k < |evolution| ==> evolution[k] == Entry(p, k + 1)
  {
    var taxaDecimal := p.taxaJuros / 100.0;
    evolution := [];
    var montanteAnterior := p.valorInicial;
    var mes := 1;
    while mes <= p.prazo
      invariant 1 <= mes <= if p.prazo < 1 then 1 else p.prazo + 1
      invariant |evolution| == mes - 1
      invariant forall k :: 0 <= k < mes - 1 ==> evolution[k] == Entry(p, k + 1)
      invariant montanteAnterior == Carried(p, mes)
    {
      var aporteRealizado := if mes == 1 then 0.0 else p.aporteMensal;
      var baseCalculo := montanteAnterior + aporteRealizado;
      var jurosDoMes := MonthlyInterest(baseCalculo, taxaDecimal);
      var montanteAcumulado := ToFixed2(baseCalculo + ToReal(jurosDoMes));
      var item := MonthlyEvolutionItem(mes, ToFixed2(aporteRealizado), jurosDoMes, montanteAcumulado);
      assert item == Entry(p, mes);
      evolution := evolution + [item];
      montanteAnterior := ToReal(montanteAcumulado);
      mes := mes + 1;
    }
  }

  /**
   * The recorded contribution is zero in the first month and the monthly
   * amount rounded to cents afterwards (exactly the monthly amount when it
   * has at most two decimals).
   */
  lemma ContributionRule(p: InvestmentSimulationParams, mes: nat)
    requires mes >= 1
    ensures mes == 1 ==> Entry(p, mes).aporteRealizado == 0
    ensures mes > 1 ==> Entry(p, mes).aporteRealizado == ToFixed2(p.aporteMensal)
    ensures mes > 1 && IsCents(p.aporteMensal) ==> ToReal(Entry(p, mes).aporteRealizado) == p.aporteMensal
  {
    RoundCentsOfCents(0);
    if mes > 1 && IsCents(p.aporteMensal) {
      CentsAreCents(p.aporteMensal);
      var c := RoundCents(p.aporteMensal);
      RoundCentsOfCents(c);
    }
  }

  /** With a non-negative principal, contribution and rate, every carried balance is non-negative. */
  lemma {:induction false} CarriedNonNegative(p: InvestmentSimulationParams, mes: nat)
    requires mes >= 1
    requires p.valorInicial >= 0.0 && p.aporteMensal >= 0.0 && p.taxaJuros >= 0.0
    ensures Carried(p, mes) >= 0.0
  {
    if mes > 1 {
      CarriedNonNegative(p, mes - 1);
      var prev := Carried(p, mes - 1);
      var e := MonthStep(p, mes - 1, prev);
      assert prev + Contribution(p, mes - 1) >= 0.0;
      assert ToReal(e.montanteAcumulado) + 0.005 > 0.0;
      assert e.montanteAcumulado >= 0;
    }
  }

  /** From the second month on, the balance carried in is a whole number of cents. */
  lemma CarriedIsCents(p: InvestmentSimulationParams, mes: nat)
    requires mes >= 2
    ensures Carried(p, mes) == ToReal(Entry(p, mes - 1).montanteAcumulado)
    ensures RoundCents(Carried(p, mes)) == Entry(p, mes - 1).montanteAcumulado
  {
    RoundCentsOfCents(Entry(p, mes - 1).montanteAcumulado);
  }

  /**
   * With whole-cent inputs the ledger adds up exactly in cents: each month's
   * balance is the previous balance (the principal for month 1) plus the
   * recorded contribution plus the recorded interest.
   */
  lemma {:induction false} LedgerAddsUp(p: InvestmentSimulationParams, mes: nat)
    requires mes >= 1
    requires IsCents(p.valorInicial) && IsCents(p.aporteMensal)
    ensures Entry(p, mes).montanteAcumulado
            == (if mes == 1 then RoundCents(p.valorInicial) else Entry(p, mes - 1).montanteAcumulado)
               + Entry(p, mes).aporteRealizado + Entry(p, mes).jurosDoMes
  {
    var e := Entry(p, mes);
    var prevCents := if mes == 1 then RoundCents(p.valorInicial) else Entry(p, mes - 1).montanteAcumulado;
    if mes == 1 {
      CentsAreCents(p.valorInicial);
    } else {
      CarriedIsCents(p, mes);
    }
    assert Carried(p, mes) == ToReal(prevCents);
    ContributionRule(p, mes);
    assert Contribution(p, mes) == ToReal(e.aporteRealizado);
    var total := prevCents + e.aporteRealizado + e.jurosDoMes;
    assert Carried(p, mes) + Contribution(p, mes) + ToReal(e.jurosDoMes) == ToReal(total);
    RoundCentsOfCents(total);
  }

  /** Half a cent above a whole number of cents rounds up to the next cent. */
  lemma HalfCentRoundsUp(c: int, x: real)
    requires x >= ToReal(c) + 0.005
    ensures RoundCents(x) >= c + 1
  {
    RoundCentsUnique(ToReal(c) + 0.005, c + 1);
    RoundCentsMonotone(ToReal(c) + 0.005, x);
  }

  /**
   * With a non-negative principal, contribution and rate, the balance never
   * decreases from one month to the next, and it strictly increases exactly in
   * the months whose recorded contribution or recorded interest is positive.
   */
  lemma BalanceMonotone(p: InvestmentSimulationParams, mes: nat)
    requires mes >= 2
    requires p.valorInicial >= 0.0 && p.aporteMensal >= 0.0 && p.taxaJuros >= 0.0
    ensures Entry(p, mes).montanteAcumulado >= Entry(p, mes - 1).montanteAcumulado
    ensures Entry(p, mes).montanteAcumulado > Entry(p, mes - 1).montanteAcumulado
            <==> Entry(p, mes).aporteRealizado > 0 || Entry(p, mes).jurosDoMes > 0
  {
    var c := Entry(p, mes - 1).montanteAcumulado;
    var e := Entry(p, mes);
    CarriedIsCents(p, mes);
    CarriedNonNegative(p, mes);
    var base := Carried(p, mes) + p.aporteMensal;
    assert base * (p.taxaJuros / 100.0) >= 0.0;
    assert e.jurosDoMes >= 0;
    var x := base + ToReal(e.jurosDoMes);
    assert e.montanteAcumulado == RoundCents(x);
    if e.aporteRealizado > 0 || e.jurosDoMes > 0 {
      assert x >= ToReal(c) + 0.005;
      HalfCentRoundsUp(c, x);
    } else {
      assert p.aporteMensal < 0.005;
      RoundCentsUnique(x, c);
    }
  }

  /**
   * In the first month the balance exceeds the principal whenever the
   * recorded interest is positive.
   */
  lemma FirstMonthGrowth(p: InvestmentSimulationParams)
    requires p.valorInicial >= 0.0 && p.taxaJuros >= 0.0
    ensures Entry(p, 1).jurosDoMes > 0 ==> ToReal(Entry(p, 1).montanteAcumulado) > p.valorInicial
  {
  }

  /**
   * What a request accepted by the schema gets: a projection whose total
   * invested is exact and whose interest is non-negative, and a ledger whose
   * balances add up in cents and never decrease.
   */
  lemma ValidRequestGuarantees(p: InvestmentSimulationParams)
    requires ValidParams(p)
    ensures var r := CalculateInvestmentProjection(p);
            && ToReal(r.valorTotalInvestido) == p.valorInicial + p.aporteMensal * p.prazo as real
            && r.montanteFinal >= r.valorTotalInvestido
            && r.jurosAcumulados >= 0
    ensures forall mes :: 1 <= mes <= p.prazo ==>
              Entry(p, mes).montanteAcumulado
              == (if mes == 1 then RoundCents(p.valorInicial) else Entry(p, mes - 1).montanteAcumulado)
                 + Entry(p, mes).aporteRealizado + Entry(p, mes).jurosDoMes
    ensures forall mes :: 2 <= mes <= p.prazo ==>
              Entry(p, mes).montanteAcumulado >= Entry(p, mes - 1).montanteAcumulado
  {
    TotalInvestedExact(p);
    FinalAmountCoversInvestment(p);
    forall mes | 1 <= mes <= p.prazo
      ensures Entry(p, mes).montanteAcumulado
              == (if mes == 1 then RoundCents(p.valorInicial) else Entry(p, mes - 1).montanteAcumulado)
                 + Entry(p, mes).aporteRealizado + Entry(p, mes).jurosDoMes
    {
      LedgerAddsUp(p, mes);
    }
    forall mes | 2 <= mes <= p.prazo
      ensures Entry(p, mes).montanteAcumulado >= Entry(p, mes - 1).montanteAcumulado
    {
      BalanceMonotone(p, mes);
    }
  }

  // ---------------------------------------------------------------------------
  // Reference scenarios
  // ---------------------------------------------------------------------------

  /** Principal 10000, contribution 500, 1% a month, twelve months. */
  const ScenarioA := InvestmentSimulationParams(10000.0, 500.0, 1.0, 12)
  /** No principal, contribution 1000, 1% a month, twelve months. */
  const ScenarioB := InvestmentSimulationParams(0.0, 1000.0, 1.0, 12)
  /** Principal 10000, no contribution, 1% a month, twelve months. */
  const ScenarioC := InvestmentSimulationParams(10000.0, 0.0, 1.0, 12)
  /** Principal 10000, contribution 500, 1% a month, the longest term of 600 months. */
  const ScenarioD := InvestmentSimulationParams(10000.0, 500.0, 1.0, 600)

  /**
   * The projections of the reference scenarios: the total invested is 16000,
   * 12000, 10000 and 310000, and the final amount is positive and beats it.
   */
  lemma ReferenceProjections()
    ensures var r := CalculateInvestmentProjection(ScenarioA);
            r.valorTotalInvestido == 1600000 && r.montanteFinal > r.valorTotalInvestido && r.jurosAcumulados > 0
    ensures var r := CalculateInvestmentProjection(ScenarioB);
            r.valorTotalInvestido == 1200000 && r.montanteFinal > 0
    ensures var r := CalculateInvestmentProjection(ScenarioC);
            r.valorTotalInvestido == 1000000 && r.montanteFinal > r.valorTotalInvestido
    ensures var r := CalculateInvestmentProjection(ScenarioD);
            r.valorTotalInvestido == 31000000 && r.montanteFinal > r.valorTotalInvestido
  {
    TotalInvestedExact(ScenarioA);
    TotalInvestedExact(ScenarioB);
    TotalInvestedExact(ScenarioC);
    FinalAmountIsRounded(ScenarioA);
    RawFinalAmountLowerBound(ScenarioA);
    FinalAmountIsRounded(ScenarioB);
    RawFinalAmountLowerBound(ScenarioB);
    FinalAmountIsRounded(ScenarioC);
    RawFinalAmountLowerBound(ScenarioC);
    TotalInvestedExact(ScenarioD);
    FinalAmountIsRounded(ScenarioD);
    RawFinalAmountLowerBound(ScenarioD);
  }

  /**
   * The first month of the first reference scenario records no contribution,
   * 100.00 of interest and a balance of 10100.00.
   */
  lemma ReferenceLedgerFirstMonth()
    ensures Entry(ScenarioA, 1) == MonthlyEvolutionItem(1, 0, 10000, 1010000)
  {
    RoundCentsOfCents(0);
    RoundCentsOfCents(1000000);
    RoundCentsOfCents(10000);
    RoundCentsOfCents(1010000);
    assert ToReal(10000) == 100.0;
    assert ToReal(1010000) == 10100.0;
  }

  /**
   * Every later month of the first reference scenario records 500.00 and a
   * strictly larger balance than the month before.
   */
  lemma ReferenceLedger(mes: nat)
    requires 2 <= mes <= 12
    ensures Entry(ScenarioA, mes).aporteRealizado == 50000
    ensures Entry(ScenarioA, mes).montanteAcumulado > Entry(ScenarioA, mes - 1).montanteAcumulado
  {
    RoundCentsOfCents(50000);
    assert ToReal(50000) == 500.0;
    ContributionRule(ScenarioA, mes);
    BalanceMonotone(ScenarioA, mes);
  }

  /** A request the schema accepts: principal 0.01, no contribution, 0.1% a month, two months. */
  const ScenarioNoGrowth := InvestmentSimulationParams(0.01, 0.0, 0.1, 2)

  /**
   * The balance does not grow for every accepted request: on 0.01 at 0.1% the
   * month's interest 0.00001 rounds to 0, so months 1 and 2 both end at 0.01.
   */
  lemma NoGrowthOnTinyBalance()
    ensures ValidParams(ScenarioNoGrowth)
    ensures Entry(ScenarioNoGrowth, 1).jurosDoMes == 0
    ensures Entry(ScenarioNoGrowth, 1).montanteAcumulado == 1
    ensures Entry(ScenarioNoGrowth, 2).montanteAcumulado == 1
  {
    assert IsCents(0.01) && IsCents(0.0) && IsCents(0.1);
    RoundCentsOfCents(0);
    RoundCentsOfCents(1);
    assert ToReal(1) == 0.01;
    RoundCentsUnique(0.01 * (0.1 / 100.0), 0);
    assert Carried(ScenarioNoGrowth, 2) == 0.01;
  }
}
