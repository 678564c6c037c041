/** The flat-rate calculators that the note parser and the dashboard use:
    `calcularResultadosPorTipo`, `calcularImpostos` and `extrairAtivos`. */
module OperationsUtils {
  import opened Money
  import opened StockService
  import opened Dedup
  import opened Operations
  import opened Grouping

  /** `{dayTrade, swingTrade, prejuizoAcumulado}`. */
  datatype Taxes = Taxes(dayTrade: real, swingTrade: real, prejuizoAcumulado: real)

  /** The flat rules: 20% of a day-trade gain, 15% of a swing-trade gain, a carried loss of
      30% of a combined loss, each clamped at 0 and rounded to cents. */
  function FlatTaxRule(resultadoDayTrade: real, resultadoSwingTrade: real): (r: Taxes)
    ensures r.dayTrade >= 0.0 && r.swingTrade >= 0.0 && r.prejuizoAcumulado >= 0.0
    ensures resultadoDayTrade <= 0.0 ==> r.dayTrade == 0.0
    ensures resultadoSwingTrade <= 0.0 ==> r.swingTrade == 0.0
    ensures resultadoDayTrade + resultadoSwingTrade >= 0.0 ==> r.prejuizoAcumulado == 0.0
  {
    var prejuizo := Max0(-(resultadoDayTrade + resultadoSwingTrade) * 0.3);
    var impostoDayTrade := Max0(resultadoDayTrade * 0.20);
    var impostoSwingTrade := Max0(resultadoSwingTrade * 0.15);
    Round2NonNegative(prejuizo);
    Round2NonNegative(impostoDayTrade);
    Round2NonNegative(impostoSwingTrade);
    Round2OfCents(0);
    Taxes(Round2(impostoDayTrade), Round2(impostoSwingTrade), Round2(prejuizo))
  }

  /** The per-asset loop: add the result of each asset's group to `acc`. */
  method AddAssetResults(dayTrades: seq<Operation>, acc: real) returns (acc': real)
    ensures acc' == acc + Net(dayTrades)
  {
    var keys, porAtivo := GroupBy(dayTrades, Ativo);
    acc' := acc;
    var j := 0;
    while j < |keys|
      invariant 0 <= j <= |keys|
      invariant acc' == acc + SumOverGroups(dayTrades, Ativo, keys[..j])
    {
      assert keys[..j + 1][..j] == keys[..j];
      var opsAtivo := porAtivo[keys[j]];
      var valorCompras := Total(Where(opsAtivo, IsPurchase));
      var valorVendas := Total(Where(opsAtivo, IsSale));
      acc' := acc' + (valorVendas - valorCompras);
      j := j + 1;
    }
    assert keys[..j] == keys;
    GroupedNetByKeys(dayTrades, Ativo);
  }

  /** `calcularResultadosPorTipo`: the day-trade result is taken asset by asset, the swing
      result over all swing operations at once; both are rounded to cents. */
  method ResultsByKind(operacoes: seq<Operation>) returns (resultadoDayTrade: real, resultadoSwingTrade: real)
    ensures resultadoDayTrade == Round2(Net(Where(operacoes, IsDayTrade)))
    ensures resultadoSwingTrade == Round2(Net(Where(operacoes, IsSwingTrade)))
  {
    var dayTrades := Where(operacoes, IsDayTrade);
    var swingTrades := Where(operacoes, IsSwingTrade);
    var resultado := AddAssetResults(dayTrades, 0.0);
    var valorComprasSwing := Total(Where(swingTrades, IsPurchase));
    var valorVendasSwing := Total(Where(swingTrades, IsSale));
    resultadoDayTrade := Round2(resultado);
    resultadoSwingTrade := Round2(valorVendasSwing - valorComprasSwing);
  }

  /** What the per-date loop has accumulated after the dates `ds`, over each date's
      operations satisfying `p`. */
  function DatedNet(ops: seq<Operation>, ds: seq<string>, p: Operation -> bool): real
  {
    if ds == [] then 0.0
    else DatedNet(ops, ds[..|ds| - 1], p) + Net(Where(Group(ops, Data, ds[|ds| - 1]), p))
  }

  lemma {:induction false} DatedNetIsGrouped(ops: seq<Operation>, ds: seq<string>, p: Operation -> bool)
    ensures DatedNet(ops, ds, p) == SumOverGroups(Where(ops, p), Data, ds)
  {
    if ds != [] {
      DatedNetIsGrouped(ops, ds[..|ds| - 1], p);
      GroupOfWhere(ops, Data, ds[|ds| - 1], p);
    }
  }

  /** Splitting by date changes no total: over all dates the loop accumulates the net of
      all operations satisfying `p`. */
  lemma DatedNetTotal(ops: seq<Operation>, p: Operation -> bool)
    ensures DatedNet(ops, KeysOf(ops, Data), p) == Net(Where(ops, p))
  {
    DatedNetIsGrouped(ops, KeysOf(ops, Data), p);
    KeysOfExact(ops, Data);
    WhereExact(ops, p);
    GroupedNet(Where(ops, p), Data, KeysOf(ops, Data));
  }

  /** One date of `calcularImpostos`: its day trades are added asset by asset, its swing
      trades as sales minus purchases. */
  method AddDate(ops: seq<Operation>, resultadoDayTrade: real, resultadoSwingTrade: real)
    returns (resultadoDayTrade': real, resultadoSwingTrade': real)
    ensures resultadoDayTrade' == resultadoDayTrade + Net(Where(ops, IsDayTrade))
    ensures resultadoSwingTrade' == resultadoSwingTrade + Net(Where(ops, IsSwingTrade))
  {
    resultadoDayTrade', resultadoSwingTrade' := resultadoDayTrade, resultadoSwingTrade;
    var dayTrades := Where(ops, IsDayTrade);
    var swingTrades := Where(ops, IsSwingTrade);
    if |dayTrades| > 0 {
      resultadoDayTrade' := AddAssetResults(dayTrades, resultadoDayTrade);
    }
    if |swingTrades| > 0 {
      var valorCompras := Total(Where(swingTrades, IsPurchase));
      var valorVendas := Total(Where(swingTrades, IsSale));
      resultadoSwingTrade' := resultadoSwingTrade + (valorVendas - valorCompras);
    }
  }

  /** `calcularImpostos` of operationsUtils.ts: operations are split by date into day and
      swing trades; day trades are summed asset by asset, swing trades at once; the flat
      rules are applied to the two totals. */
  method FlatTaxes(operacoes: seq<Operation>) returns (r: Taxes)
    ensures r == FlatTaxRule(Net(Where(operacoes, IsDayTrade)), Net(Where(operacoes, IsSwingTrade)))
  {
    var datas, porData := GroupBy(operacoes, Data);
    var resultadoDayTrade := 0.0;
    var resultadoSwingTrade := 0.0;
    var i := 0;
    while i < |datas|
      invariant 0 <= i <= |datas|
      invariant resultadoDayTrade == DatedNet(operacoes, datas[..i], IsDayTrade)
      invariant resultadoSwingTrade == DatedNet(operacoes, datas[..i], IsSwingTrade)
    {
      assert datas[..i + 1][..i] == datas[..i];
      var ops := porData[datas[i]];
      assert ops == Group(operacoes, Data, datas[i]);
      assert DatedNet(operacoes, datas[..i + 1], IsDayTrade) == resultadoDayTrade + Net(Where(ops, IsDayTrade));
      assert DatedNet(operacoes, datas[..i + 1], IsSwingTrade) == resultadoSwingTrade + Net(Where(ops, IsSwingTrade));
      resultadoDayTrade, resultadoSwingTrade := AddDate(ops, resultadoDayTrade, resultadoSwingTrade);
      i := i + 1;
    }
    assert datas[..i] == datas;
    DatedNetTotal(operacoes, IsDayTrade);
    DatedNetTotal(operacoes, IsSwingTrade);
    r := FlatTaxRule(resultadoDayTrade, resultadoSwingTrade);
  }

  /** `op.emBlocoValido && ativoExisteNaB3(op.ativo)`: the operations whose asset is listed. */
  predicate Contributes(op: Operation)
  {
    op.emBlocoValido && ExistsOnB3(op.ativo)
  }

  /** Codes are deduplicated by themselves. */
  function Code(c: string): string { c }

  /** `ops.map(op => corrigirNomeAtivo(op.ativo))`; the correction is a parameter. */
  function CorrectedCodes(ops: seq<Operation>, correct: string -> string): (r: seq<string>)
    ensures |r| == |ops|
    ensures forall i :: 0 <= i < |ops| ==> r[i] == correct(ops[i].ativo)
  {
    seq(|ops|, i requires 0 <= i < |ops| => correct(ops[i].ativo))
  }

  /** `extrairAtivos` of operationsUtils.ts: `[...new Set(codes)]`. */
  function ExtractCodes(operacoes: seq<Operation>, correct: string -> string): seq<string>
  {
    KeepFirst(CorrectedCodes(Where(operacoes, Contributes), correct), Code)
  }

  /** A code is listed exactly when some contributing operation's corrected code is it, and
      no code is listed twice. */
  lemma ExtractCodesExact(operacoes: seq<Operation>, correct: string -> string)
    ensures forall c :: c in ExtractCodes(operacoes, correct) <==>
      exists op :: op in operacoes && Contributes(op) && correct(op.ativo) == c
    ensures forall i, j :: 0 <= i < j < |ExtractCodes(operacoes, correct)| ==>
      ExtractCodes(operacoes, correct)[i] != ExtractCodes(operacoes, correct)[j]
  {
    var valid := Where(operacoes, Contributes);
    var codes := CorrectedCodes(valid, correct);
    var r := ExtractCodes(operacoes, correct);
    KeepFirstSound(codes, Code);
    WhereExact(operacoes, Contributes);
    forall c | c in r
      ensures exists op :: op in operacoes && Contributes(op) && correct(op.ativo) == c
    {
      var i :| 0 <= i < |codes| && codes[i] == c;
      assert valid[i] in valid;
    }
    forall c | exists op :: op in operacoes && Contributes(op) && correct(op.ativo) == c
      ensures c in r
    {
      var op :| op in operacoes && Contributes(op) && correct(op.ativo) == c;
      var i :| 0 <= i < |valid| && valid[i] == op;
      assert Code(codes[i]) == c;
      assert HasKey(r, Code, c);
    }
  }

  /** The codes come in the order of their first occurrence among the contributing
      operations. */
  lemma ExtractCodesInOrder(operacoes: seq<Operation>, correct: string -> string)
    ensures var codes := CorrectedCodes(Where(operacoes, Contributes), correct);
      var r := ExtractCodes(operacoes, correct);
      (forall a :: 0 <= a < |r| ==> HasKey(codes, Code, r[a])) &&
      (forall a, b :: 0 <= a < b < |r| ==> FirstIndex(codes, Code, r[a]) < FirstIndex(codes, Code, r[b]))
  {
    KeepFirstInOrder(CorrectedCodes(Where(operacoes, Contributes), correct), Code);
  }
}
