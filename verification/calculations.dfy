/**
 * Display formatting of the monthly ledger on the client side: every
 * monetary field of every entry is rounded to the nearest cent.
 */
module Calculations {
  import opened Money

  /** One ledger row as the client receives it; the amounts are plain numbers. */
  datatype MonthlyEvolution = MonthlyEvolution(
    mes: int,
    aporteRealizado: real,
    jurosMes: real,
    montanteAcumulado: real)

  /** `Math.round(x * 100) / 100`: the nearest amount of whole cents, a tie going up. */
  function RoundToCent(x: real): (y: real)
    ensures IsCents(y)
    ensures y - 0.005 <= x < y + 0.005
  {
    RoundCentsOfCents(RoundCents(x));
    CentsAreCents(ToReal(RoundCents(x)));
    ToReal(RoundCents(x))
  }

  /** True when every monetary field of `item` is a whole number of cents. */
  predicate IsFormatted(item: MonthlyEvolution)
  {
    IsCents(item.aporteRealizado) && IsCents(item.jurosMes) && IsCents(item.montanteAcumulado)
  }

  /** The row with its three amounts rounded to cents and everything else kept. */
  function FormatItem(item: MonthlyEvolution): (r: MonthlyEvolution)
    ensures r.mes == item.mes && IsFormatted(r)
  {
    item.(aporteRealizado := RoundToCent(item.aporteRealizado),
          jurosMes := RoundToCent(item.jurosMes),
          montanteAcumulado := RoundToCent(item.montanteAcumulado))
  }

  /**
   * Every row rounded to cents, in the same order: the month number is kept,
   * and each amount becomes the nearest whole number of cents.
   */
  function FormatMonthlyEvolution(evolution: seq<MonthlyEvolution>): (r: seq<MonthlyEvolution>)
    ensures |r| == |evolution|
    ensures forall k :: 0 <= k < |r| ==> r[k].mes == evolution[k].mes && IsFormatted(r[k])
    ensures forall k :: 0 <= k < |r| ==>
              && r[k].aporteRealizado == RoundToCent(evolution[k].aporteRealizado)
              && r[k].jurosMes == RoundToCent(evolution[k].jurosMes)
              && r[k].montanteAcumulado == RoundToCent(evolution[k].montanteAcumulado)
  {
    seq(|evolution|, k requires 0 <= k < |evolution| => FormatItem(evolution[k]))
  }

  /** An amount already in whole cents is left as it is. */
  lemma RoundToCentFixesCents(x: real)
    requires IsCents(x)
    ensures RoundToCent(x) == x
  {
    CentsAreCents(x);
    var c := RoundCents(x);
    assert x * 100.0 == c as real;
    RoundCentsOfCents(c);
  }

  /** Rows whose amounts are already whole cents come back unchanged. */
  lemma FormatFixesFormatted(evolution: seq<MonthlyEvolution>)
    requires forall k :: 0 <= k < |evolution| ==> IsFormatted(evolution[k])
    ensures FormatMonthlyEvolution(evolution) == evolution
  {
    var r := FormatMonthlyEvolution(evolution);
    forall k | 0 <= k < |evolution|
      ensures r[k] == evolution[k]
    {
      RoundToCentFixesCents(evolution[k].aporteRealizado);
      RoundToCentFixesCents(evolution[k].jurosMes);
      RoundToCentFixesCents(evolution[k].montanteAcumulado);
    }
  }

  /** Formatting twice is the same as formatting once. */
  lemma FormatIdempotent(evolution: seq<MonthlyEvolution>)
    ensures FormatMonthlyEvolution(FormatMonthlyEvolution(evolution)) == FormatMonthlyEvolution(evolution)
  {
    FormatFixesFormatted(FormatMonthlyEvolution(evolution));
  }
}
