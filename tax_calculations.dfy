/** `calcularImpostos` of taxCalculations.ts: results are taken date by date and credited
    to the asset types, and each type is taxed at its own rate. */
module TaxCalculations {
  import opened Money
  import opened AssetTypes
  import opened Operations
  import opened Grouping
  import opened TypeBuckets
  import opened OperationsUtils
  import TradeCalculations

  /** The swing-trade rate: 20% for real-estate funds, 15% for every other type. */
  function SwingRate(t: AssetType): real
  {
    if t == Fii then 0.20 else 0.15
  }

  /** The day-trade rate, the same for every type. */
  const DayTradeRate: real := 0.20

  /** One type's taxes: its rate times its figure, never below 0. */
  function TaxesOf(t: AssetType, x: Results): Results
  {
    Results(Max0(x.dayTrade * DayTradeRate), Max0(x.swingTrade * SwingRate(t)))
  }

  /** `impostosPorTipo`. */
  function TaxTable(b: ByType<Results>): ByType<Results>
  {
    ByType(TaxesOf(Acao, b.acao), TaxesOf(Fii, b.fii), TaxesOf(Etf, b.etf),
           TaxesOf(Opcao, b.opcao), TaxesOf(Futuro, b.futuro), TaxesOf(Desconhecido, b.desconhecido))
  }

  /** Each type is taxed on its own figures only. */
  lemma TaxTableGet(b: ByType<Results>, t: AssetType)
    ensures TaxTable(b).Get(t) == TaxesOf(t, b.Get(t))
  {
  }

  /** `{dayTrade, swingTrade, prejuizoAcumulado, impostosPorTipo}`. */
  datatype TypedTaxes = TypedTaxes(dayTrade: real, swingTrade: real, prejuizoAcumulado: real, impostosPorTipo: ByType<Results>)

  /** What the calculator returns once the loop has produced the per-type figures `b` and
      the totals: the two taxes are the rounded sums of the per-type taxes, the carried loss
      is 30% of a combined loss, and the per-type taxes are returned unrounded. */
  function TaxesFrom(b: ByType<Results>, resultadoDayTrade: real, resultadoSwingTrade: real): TypedTaxes
  {
    var impostosPorTipo := TaxTable(b);
    TypedTaxes(
      Round2(SumDayTrade(impostosPorTipo)),
      Round2(SumSwingTrade(impostosPorTipo)),
      Round2(Max0(-(resultadoDayTrade + resultadoSwingTrade) * 0.3)),
      impostosPorTipo)
  }

  /** The variables of the date loop: the per-type figures and the two running totals. */
  datatype DateLoop = DateLoop(porTipo: ByType<Results>, resultadoDayTrade: real, resultadoSwingTrade: real)

  /** One date's operations `ops` credited to the loop variables. */
  function Credit(s: DateLoop, ops: seq<Operation>): DateLoop
  {
    var dayTrades := Where(ops, IsDayTrade);
    var swingTrades := Where(ops, IsSwingTrade);
    DateLoop(WithCredits(s.porTipo, dayTrades, swingTrades),
             s.resultadoDayTrade + Net(dayTrades),
             s.resultadoSwingTrade + Net(swingTrades))
  }

  /** The loop variables after the dates `ds` have been visited. */
  function Dated(ops: seq<Operation>, ds: seq<string>): DateLoop
  {
    if ds == [] then DateLoop(NoResults, 0.0, 0.0)
    else Credit(Dated(ops, ds[..|ds| - 1]), Group(ops, Data, ds[|ds| - 1]))
  }

  /** The per-type figures over all dates. */
  function PerType(ops: seq<Operation>): ByType<Results>
  {
    Dated(ops, KeysOf(ops, Data)).porTipo
  }

  /** The body of the date loop over the operations `ops` of one date: they are split into
      day and swing trades. */
  method CreditDate(ops: seq<Operation>, s: DateLoop) returns (s': DateLoop)
    ensures s' == Credit(s, ops)
  {
    var dayTrades := Where(ops, IsDayTrade);
    var swingTrades := Where(ops, IsSwingTrade);
    var porTipo, resultadoDayTrade, resultadoSwingTrade :=
      CreditLists(dayTrades, swingTrades, s.porTipo, s.resultadoDayTrade, s.resultadoSwingTrade);
    s' := DateLoop(porTipo, resultadoDayTrade, resultadoSwingTrade);
  }

  /** Each of the date's two lists is processed only when it is not empty. */
  method CreditLists(dayTrades: seq<Operation>, swingTrades: seq<Operation>, porTipo: ByType<Results>,
                     resultadoDayTrade: real, resultadoSwingTrade: real)
    returns (porTipo': ByType<Results>, resultadoDayTrade': real, resultadoSwingTrade': real)
    ensures porTipo' == WithCredits(porTipo, dayTrades, swingTrades)
    ensures resultadoDayTrade' == resultadoDayTrade + Net(dayTrades)
    ensures resultadoSwingTrade' == resultadoSwingTrade + Net(swingTrades)
  {
    NoCredits();
    var porTipoDayTrade := porTipo;
    resultadoDayTrade' := resultadoDayTrade;
    if |dayTrades| > 0 {
      porTipoDayTrade, resultadoDayTrade' := CreditDayTrades(dayTrades, porTipo, resultadoDayTrade);
    }
    porTipo' := porTipoDayTrade;
    resultadoSwingTrade' := resultadoSwingTrade;
    if |swingTrades| > 0 {
      porTipo', resultadoSwingTrade' := CreditSwingTrades(swingTrades, porTipoDayTrade, resultadoSwingTrade);
    }
    WithCreditsOfSteps(porTipo, porTipoDayTrade, porTipo', dayTrades, swingTrades);
  }

  /** The loop over the dates in insertion order. */
  method CreditDates(operacoes: seq<Operation>) returns (s: DateLoop)
    ensures s == Dated(operacoes, KeysOf(operacoes, Data))
  {
    var datas, porData := GroupBy(operacoes, Data);
    s := DateLoop(NoResults, 0.0, 0.0);
    var i := 0;
    while i < |datas|
      invariant 0 <= i <= |datas|
      invariant s == Dated(operacoes, datas[..i])
    {
      assert datas[..i + 1][..i] == datas[..i];
      var ops := porData[datas[i]];
      assert ops == Group(operacoes, Data, datas[i]);
      s := CreditDate(ops, s);
      i := i + 1;
    }
    assert datas[..i] == datas;
  }

  /** `calcularImpostos`. */
  method CalculateTaxes(operacoes: seq<Operation>) returns (r: TypedTaxes)
    ensures r == TaxesFrom(PerType(operacoes), Net(Where(operacoes, IsDayTrade)), Net(Where(operacoes, IsSwingTrade)))
  {
    var s := CreditDates(operacoes);
    DatedTotals(operacoes);
    r := TaxesFrom(s.porTipo, s.resultadoDayTrade, s.resultadoSwingTrade);
  }

  /** Every tax, per type and in total, and the carried loss are at least 0. */
  lemma TaxesNonNegative(b: ByType<Results>, resultadoDayTrade: real, resultadoSwingTrade: real)
    ensures var r := TaxesFrom(b, resultadoDayTrade, resultadoSwingTrade);
      r.dayTrade >= 0.0 && r.swingTrade >= 0.0 && r.prejuizoAcumulado >= 0.0
    ensures forall t :: TaxTable(b).Get(t).dayTrade >= 0.0 && TaxTable(b).Get(t).swingTrade >= 0.0
  {
    var impostos := TaxTable(b);
    Round2NonNegative(SumDayTrade(impostos));
    Round2NonNegative(SumSwingTrade(impostos));
    Round2NonNegative(Max0(-(resultadoDayTrade + resultadoSwingTrade) * 0.3));
  }

  /** Throughout the loop, the running totals are the sums of the per-type figures and the
      nets of the day and swing trades of the dates visited. */
  lemma {:induction false} DatedSums(ops: seq<Operation>, ds: seq<string>)
    ensures SumDayTrade(Dated(ops, ds).porTipo) == Dated(ops, ds).resultadoDayTrade == DatedNet(ops, ds, IsDayTrade)
    ensures SumSwingTrade(Dated(ops, ds).porTipo) == Dated(ops, ds).resultadoSwingTrade == DatedNet(ops, ds, IsSwingTrade)
  {
    if ds != [] {
      var g := Group(ops, Data, ds[|ds| - 1]);
      DatedSums(ops, ds[..|ds| - 1]);
      WithCreditsSums(Dated(ops, ds[..|ds| - 1]).porTipo, Where(g, IsDayTrade), Where(g, IsSwingTrade));
    }
  }

  /** Splitting by date changes no total: over all dates the totals are the nets of the day
      trades and of the swing trades, and the per-type figures add up to them. */
  lemma DatedTotals(ops: seq<Operation>)
    ensures Dated(ops, KeysOf(ops, Data)).resultadoDayTrade == Net(Where(ops, IsDayTrade)) == SumDayTrade(PerType(ops))
    ensures Dated(ops, KeysOf(ops, Data)).resultadoSwingTrade == Net(Where(ops, IsSwingTrade)) == SumSwingTrade(PerType(ops))
  {
    DatedSums(ops, KeysOf(ops, Data));
    DatedNetTotal(ops, IsDayTrade);
    DatedNetTotal(ops, IsSwingTrade);
  }

  /** Over the dates `ds`, a type's swing figure is the sum of its swing nets date by date. */
  lemma {:induction false} DatedSwing(ops: seq<Operation>, ds: seq<string>, t: AssetType)
    ensures Dated(ops, ds).porTipo.Get(t).swingTrade == SumOverGroups(Group(Where(ops, IsSwingTrade), TipoAtivo, t), Data, ds)
  {
    if ds != [] {
      var d := ds[|ds| - 1];
      var g := Group(ops, Data, d);
      DatedSwing(ops, ds[..|ds| - 1], t);
      WithCreditsGet(Dated(ops, ds[..|ds| - 1]).porTipo, Where(g, IsDayTrade), Where(g, IsSwingTrade), t);
      GroupOfWhere(ops, Data, d, IsSwingTrade);
      GroupCommute(Where(ops, IsSwingTrade), Data, d, TipoAtivo, t);
    }
  }

  /** Over the dates `ds`, with consistent types, a type's day-trade figure is the sum of
      its day-trade nets date by date. */
  lemma {:induction false} DatedDayTrade(ops: seq<Operation>, ds: seq<string>, t: AssetType)
    requires ConsistentTypes(ops)
    ensures Dated(ops, ds).porTipo.Get(t).dayTrade == SumOverGroups(Group(Where(ops, IsDayTrade), TipoAtivo, t), Data, ds)
  {
    if ds != [] {
      var d := ds[|ds| - 1];
      var g := Group(ops, Data, d);
      DatedDayTrade(ops, ds[..|ds| - 1], t);
      WithCreditsGet(Dated(ops, ds[..|ds| - 1]).porTipo, Where(g, IsDayTrade), Where(g, IsSwingTrade), t);
      GroupExact(ops, Data, d);
      WhereExact(g, IsDayTrade);
      DayTradeCreditByType(Where(g, IsDayTrade), t);
      GroupOfWhere(ops, Data, d, IsDayTrade);
      GroupCommute(Where(ops, IsDayTrade), Data, d, TipoAtivo, t);
    }
  }

  /** Summing one type's date groups over all dates gives that type's net. */
  lemma TypeNetByDate(ops: seq<Operation>, p: Operation -> bool, t: AssetType)
    ensures SumOverGroups(Group(Where(ops, p), TipoAtivo, t), Data, KeysOf(ops, Data)) == Net(Group(Where(ops, p), TipoAtivo, t))
  {
    KeysOfExact(ops, Data);
    WhereExact(ops, p);
    GroupExact(Where(ops, p), TipoAtivo, t);
    GroupedNet(Group(Where(ops, p), TipoAtivo, t), Data, KeysOf(ops, Data));
  }

  /** A type's swing figure is the net of its swing trades, whatever their dates. */
  lemma PerTypeSwing(ops: seq<Operation>, t: AssetType)
    ensures PerType(ops).Get(t).swingTrade == Net(Group(Where(ops, IsSwingTrade), TipoAtivo, t))
  {
    DatedSwing(ops, KeysOf(ops, Data), t);
    TypeNetByDate(ops, IsSwingTrade, t);
  }

  /** When every asset has one type, the date-by-date figures are the figures of the
      undated calculator of tradeCalculations.ts. */
  lemma AgreesWithTradeCalculations(ops: seq<Operation>)
    requires ConsistentTypes(ops)
    ensures PerType(ops) == TradeCalculations.PerType(ops)
  {
    forall t ensures PerType(ops).Get(t) == TradeCalculations.PerType(ops).Get(t) {
      DatedSwing(ops, KeysOf(ops, Data), t);
      TypeNetByDate(ops, IsSwingTrade, t);
      DatedDayTrade(ops, KeysOf(ops, Data), t);
      TypeNetByDate(ops, IsDayTrade, t);
      TradeCalculations.PerTypeOfConsistentTypes(ops, t);
    }
    ByTypeExt(PerType(ops), TradeCalculations.PerType(ops));
  }

  /** Clamping each type at 0 before adding never gives less than clamping the sum. */
  lemma TaxTableAtLeastFlat(b: ByType<Results>)
    ensures SumDayTrade(TaxTable(b)) >= Max0(SumDayTrade(b) * 0.20)
    ensures SumSwingTrade(TaxTable(b)) >= Max0(SumSwingTrade(b) * 0.15)
  {
  }

  /** From figures that add up to the totals, per-type taxes are never below the flat
      taxes of operationsUtils.ts, and the carried loss is the same. */
  lemma TaxesFromAtLeastFlat(b: ByType<Results>, resultadoDayTrade: real, resultadoSwingTrade: real)
    requires SumDayTrade(b) == resultadoDayTrade && SumSwingTrade(b) == resultadoSwingTrade
    ensures TaxesFrom(b, resultadoDayTrade, resultadoSwingTrade).dayTrade >= FlatTaxRule(resultadoDayTrade, resultadoSwingTrade).dayTrade
    ensures TaxesFrom(b, resultadoDayTrade, resultadoSwingTrade).swingTrade >= FlatTaxRule(resultadoDayTrade, resultadoSwingTrade).swingTrade
    ensures TaxesFrom(b, resultadoDayTrade, resultadoSwingTrade).prejuizoAcumulado == FlatTaxRule(resultadoDayTrade, resultadoSwingTrade).prejuizoAcumulado
  {
    TaxTableAtLeastFlat(b);
    Round2Monotone(Max0(resultadoDayTrade * 0.20), SumDayTrade(TaxTable(b)));
    Round2Monotone(Max0(resultadoSwingTrade * 0.15), SumSwingTrade(TaxTable(b)));
  }

  /** `calcularImpostos` of this file never charges less than that of operationsUtils.ts on
      the same operations, and both carry the same loss. */
  lemma TypedTaxesAtLeastFlat(operacoes: seq<Operation>, typed: TypedTaxes, flat: Taxes)
    requires typed == TaxesFrom(PerType(operacoes), Net(Where(operacoes, IsDayTrade)), Net(Where(operacoes, IsSwingTrade)))
    requires flat == FlatTaxRule(Net(Where(operacoes, IsDayTrade)), Net(Where(operacoes, IsSwingTrade)))
    ensures typed.dayTrade >= flat.dayTrade && typed.swingTrade >= flat.swingTrade
    ensures typed.prejuizoAcumulado == flat.prejuizoAcumulado
  {
    DatedTotals(operacoes);
    TaxesFromAtLeastFlat(PerType(operacoes), Net(Where(operacoes, IsDayTrade)), Net(Where(operacoes, IsSwingTrade)));
  }
}
