/** `calcularResultadosPorTipo` of tradeCalculations.ts: the day-trade and swing-trade
    results of a list of operations, in total and per asset type. */
module TradeCalculations {
  import opened Money
  import opened AssetTypes
  import opened Operations
  import opened Grouping
  import opened TypeBuckets

  /** `{resultadoDayTrade, resultadoSwingTrade, resultadosPorTipo}`. */
  datatype TypedResults = TypedResults(resultadoDayTrade: real, resultadoSwingTrade: real, resultadosPorTipo: ByType<Results>)

  /** The two loops of the calculator, from zeroed figures: day trades are split by asset
      and each asset's result is credited to the type of its first operation; swing trades
      are split by type. */
  method CreditBoth(dayTrades: seq<Operation>, swingTrades: seq<Operation>)
    returns (resultadosPorTipo: ByType<Results>, resultadoDayTrade: real, resultadoSwingTrade: real)
    ensures resultadosPorTipo == WithCredits(NoResults, dayTrades, swingTrades)
    ensures resultadoDayTrade == Net(dayTrades) && resultadoSwingTrade == Net(swingTrades)
  {
    var porTipoDayTrade;
    porTipoDayTrade, resultadoDayTrade := CreditDayTrades(dayTrades, NoResults, 0.0);
    resultadosPorTipo, resultadoSwingTrade := CreditSwingTrades(swingTrades, porTipoDayTrade, 0.0);
    WithCreditsOfSteps(NoResults, porTipoDayTrade, resultadosPorTipo, dayTrades, swingTrades);
  }

  /** The two totals are rounded to cents, the per-type figures are not. */
  method ResultsByType(operacoes: seq<Operation>) returns (r: TypedResults)
    ensures r.resultadoDayTrade == Round2(Net(Where(operacoes, IsDayTrade)))
    ensures r.resultadoSwingTrade == Round2(Net(Where(operacoes, IsSwingTrade)))
    ensures r.resultadosPorTipo == PerType(operacoes)
  {
    var dayTrades := Where(operacoes, IsDayTrade);
    var swingTrades := Where(operacoes, IsSwingTrade);
    var resultadosPorTipo, resultadoDayTrade, resultadoSwingTrade := CreditBoth(dayTrades, swingTrades);
    r := TypedResults(Round2(resultadoDayTrade), Round2(resultadoSwingTrade), resultadosPorTipo);
  }

  /** The per-type figures of `operacoes`, as `ResultsByType` returns them. */
  function PerType(operacoes: seq<Operation>): ByType<Results>
  {
    WithCredits(NoResults, Where(operacoes, IsDayTrade), Where(operacoes, IsSwingTrade))
  }

  /** The per-type figures add up to the unrounded totals, and those add up to the net of
      all operations. */
  lemma PerTypeSums(operacoes: seq<Operation>)
    ensures SumDayTrade(PerType(operacoes)) == Net(Where(operacoes, IsDayTrade))
    ensures SumSwingTrade(PerType(operacoes)) == Net(Where(operacoes, IsSwingTrade))
    ensures SumDayTrade(PerType(operacoes)) + SumSwingTrade(PerType(operacoes)) == Net(operacoes)
  {
    WithCreditsSums(NoResults, Where(operacoes, IsDayTrade), Where(operacoes, IsSwingTrade));
    DayAndSwingPartition(operacoes);
  }

  /** A type without operations keeps both figures at 0. */
  lemma PerTypeOfAbsentType(operacoes: seq<Operation>, t: AssetType)
    requires forall op :: op in operacoes ==> op.tipoAtivo != t
    ensures PerType(operacoes).Get(t) == Zero
  {
    WhereExact(operacoes, IsDayTrade);
    WhereExact(operacoes, IsSwingTrade);
    CreditsOfAbsentType(Where(operacoes, IsDayTrade), t);
    CreditsOfAbsentType(Where(operacoes, IsSwingTrade), t);
  }

  /** When every asset has one type, each type's figures are the nets of its own day trades
      and of its own swing trades. */
  lemma PerTypeOfConsistentTypes(operacoes: seq<Operation>, t: AssetType)
    requires ConsistentTypes(operacoes)
    ensures PerType(operacoes).Get(t) == Results(Net(Group(Where(operacoes, IsDayTrade), TipoAtivo, t)), Net(Group(Where(operacoes, IsSwingTrade), TipoAtivo, t)))
  {
    WhereExact(operacoes, IsDayTrade);
    DayTradeCreditByType(Where(operacoes, IsDayTrade), t);
  }
}
