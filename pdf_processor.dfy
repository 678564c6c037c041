/** The recomputation that `usePdfProcessor` runs inside `setDashboardData` after a note is
    parsed. It differs from the provider's in one place: each asset's operations are taken
    date by date, and on a date with both purchases and sales only the residual (bought
    minus sold) enters the position, valued at that day's average purchase or sale price. */
module PdfProcessor {
  import opened Wrappers
  import opened Money
  import opened AssetTypes
  import opened Operations
  import opened Grouping
  import opened OperationsUtils
  import opened PdfParser
  import opened Dashboard
  import DashboardContext

  /** The `let quantidade` and `let valorTotal` accumulators. */
  datatype Holding = Holding(quantidade: int, valorTotal: real)

  /** The body of the per-date `forEach` applied to one date's operations `opsData`. */
  function DayStep(h: Holding, opsData: seq<Operation>): Holding
  {
    var compras := Where(opsData, IsPurchase);
    var vendas := Where(opsData, IsSale);
    Settle(h, |compras| > 0, |vendas| > 0, Quantity(compras), Quantity(vendas), Total(compras), Total(vendas))
  }

  /** The branches of that body, given whether the date has purchases and sales, the
      quantities bought and sold and the amounts paid and received. */
  function Settle(h: Holding, comprou: bool, vendeu: bool, qtdComprada: nat, qtdVendida: nat,
                  valorCompras: real, valorVendas: real): Holding
  {
    if comprou && vendeu then
      if qtdComprada > qtdVendida then
        Holding(h.quantidade + (qtdComprada - qtdVendida),
                h.valorTotal + valorCompras / qtdComprada as real * (qtdComprada - qtdVendida) as real)
      else if qtdVendida > qtdComprada then
        Holding(h.quantidade - (qtdVendida - qtdComprada),
                h.valorTotal - valorVendas / qtdVendida as real * (qtdVendida - qtdComprada) as real)
      else h
    else
      var afterPurchases := if comprou then Holding(h.quantidade + qtdComprada, h.valorTotal + valorCompras) else h;
      if vendeu then Holding(afterPurchases.quantidade - qtdVendida, afterPurchases.valorTotal - valorVendas)
      else afterPurchases
  }

  /** The accumulators after the dates `ds` of one asset's operations `ops`. */
  function Netted(ops: seq<Operation>, ds: seq<string>): Holding
  {
    if ds == [] then Holding(0, 0.0)
    else DayStep(Netted(ops, ds[..|ds| - 1]), Group(ops, Data, ds[|ds| - 1]))
  }

  /** Whatever the netting, a date moves the quantity by the shares bought minus the shares
      sold on it. */
  lemma DayStepQuantity(h: Holding, opsData: seq<Operation>)
    ensures DayStep(h, opsData).quantidade == h.quantidade + NetQuantity(opsData)
  {
  }

  /** A date with purchases only (sales only) adds (subtracts) the whole quantity and value. */
  lemma DayStepOneSided(h: Holding, opsData: seq<Operation>)
    ensures Where(opsData, IsSale) == [] ==>
      DayStep(h, opsData) == Holding(h.quantidade + Quantity(Where(opsData, IsPurchase)),
                                     h.valorTotal + Total(Where(opsData, IsPurchase)))
    ensures Where(opsData, IsPurchase) == [] ==>
      DayStep(h, opsData) == Holding(h.quantidade - Quantity(Where(opsData, IsSale)),
                                     h.valorTotal - Total(Where(opsData, IsSale)))
  {
  }

  /** On a date with purchases and sales, equal quantities leave the position untouched; a
      residual purchase is valued at the day's average purchase price and a residual sale
      at the day's average sale price. */
  lemma DayStepNetted(h: Holding, opsData: seq<Operation>)
    requires Where(opsData, IsPurchase) != [] && Where(opsData, IsSale) != []
    ensures var compras, vendas := Where(opsData, IsPurchase), Where(opsData, IsSale);
      var r := DayStep(h, opsData);
      (Quantity(compras) == Quantity(vendas) ==> r == h) &&
      (Quantity(compras) > Quantity(vendas) ==>
        r.valorTotal - h.valorTotal == Total(compras) / Quantity(compras) as real * (r.quantidade - h.quantidade) as real) &&
      (Quantity(vendas) > Quantity(compras) ==>
        r.valorTotal - h.valorTotal == Total(vendas) / Quantity(vendas) as real * (r.quantidade - h.quantidade) as real)
  {
    var compras, vendas := Where(opsData, IsPurchase), Where(opsData, IsSale);
    var qc, qv, tc, tv := Quantity(compras), Quantity(vendas), Total(compras), Total(vendas);
    var r := DayStep(h, opsData);
    assert r == Settle(h, true, true, qc, qv, tc, tv);
    if qc > qv {
      ValuedResidual(h, r, tc / qc as real, qc - qv);
    } else if qv > qc {
      ValuedResidual(h, r, tv / qv as real, qc as int - qv);
    }
  }

  /** Moving by `d` shares at price `p` moves the value by `p * d`. */
  lemma ValuedResidual(h: Holding, r: Holding, p: real, d: int)
    requires r.quantidade == h.quantidade + d
    requires r.valorTotal == h.valorTotal + p * d as real || (d < 0 && r.valorTotal == h.valorTotal - p * (-d) as real)
    ensures r.valorTotal - h.valorTotal == p * (r.quantidade - h.quantidade) as real
  {
  }

  /** The per-date loop over one asset's operations. */
  method NettedHolding(operacoesAtivo: seq<Operation>) returns (quantidade: int, valorTotal: real)
    ensures Holding(quantidade, valorTotal) == Netted(operacoesAtivo, KeysOf(operacoesAtivo, Data))
  {
    var datas, operacoesPorData := GroupBy(operacoesAtivo, Data);
    quantidade := 0;
    valorTotal := 0.0;
    var i := 0;
    while i < |datas|
      invariant 0 <= i <= |datas|
      invariant Holding(quantidade, valorTotal) == Netted(operacoesAtivo, datas[..i])
    {
      assert datas[..i + 1][..i] == datas[..i];
      var opsData := operacoesPorData[datas[i]];
      assert Netted(operacoesAtivo, datas[..i + 1]) == DayStep(Holding(quantidade, valorTotal), opsData);
      quantidade, valorTotal := SettleDay(quantidade, valorTotal, opsData);
      i := i + 1;
    }
    assert datas[..i] == datas;
  }

  /** One date: the residual of a day trade, or the whole of a one-sided day. */
  method SettleDay(quantidade: int, valorTotal: real, opsData: seq<Operation>) returns (quantidade': int, valorTotal': real)
    ensures Holding(quantidade', valorTotal') == DayStep(Holding(quantidade, valorTotal), opsData)
  {
    quantidade', valorTotal' := quantidade, valorTotal;
    var compras := Where(opsData, IsPurchase);
    var vendas := Where(opsData, IsSale);
    var qtdComprada := Quantity(compras);
    var qtdVendida := Quantity(vendas);
    var valorCompras := Total(compras);
    var valorVendas := Total(vendas);
    if |compras| > 0 && |vendas| > 0 {
      if qtdComprada > qtdVendida {
        var precoMedioCompra := valorCompras / qtdComprada as real;
        quantidade' := quantidade' + (qtdComprada - qtdVendida);
        valorTotal' := valorTotal' + precoMedioCompra * (qtdComprada - qtdVendida) as real;
      } else if qtdVendida > qtdComprada {
        var precoMedioVenda := valorVendas / qtdVendida as real;
        quantidade' := quantidade' - (qtdVendida - qtdComprada);
        valorTotal' := valorTotal' - precoMedioVenda * (qtdVendida - qtdComprada) as real;
      }
    } else {
      if |compras| > 0 {
        quantidade' := quantidade' + qtdComprada;
        valorTotal' := valorTotal' + valorCompras;
      }
      if |vendas| > 0 {
        quantidade' := quantidade' - qtdVendida;
        valorTotal' := valorTotal' - valorVendas;
      }
    }
  }

  /** The quantity moved by the dates `ds`, summed date by date. */
  function QuantityOverDates(ops: seq<Operation>, ds: seq<string>): int
  {
    if ds == [] then 0
    else QuantityOverDates(ops, ds[..|ds| - 1]) + NetQuantity(Group(ops, Data, ds[|ds| - 1]))
  }

  lemma {:induction false} NettedQuantityOverDates(ops: seq<Operation>, ds: seq<string>)
    ensures Netted(ops, ds).quantidade == QuantityOverDates(ops, ds)
  {
    if ds != [] {
      NettedQuantityOverDates(ops, ds[..|ds| - 1]);
      DayStepQuantity(Netted(ops, ds[..|ds| - 1]), Group(ops, Data, ds[|ds| - 1]));
    }
  }

  lemma {:induction false} QuantityOverDatesSnoc(ops: seq<Operation>, x: Operation, ds: seq<string>)
    requires Distinct(ds)
    ensures QuantityOverDates(ops + [x], ds) == QuantityOverDates(ops, ds) + (if x.data in ds then SignedQuantity(x) else 0)
  {
    if ds != [] {
      var init := ds[..|ds| - 1];
      var d := ds[|ds| - 1];
      assert ds == init + [d];
      QuantityOverDatesSnoc(ops, x, init);
      GroupSnoc(ops, x, Data, d);
      if x.data == d {
        NetQuantitySnoc(Group(ops, Data, d), x);
        assert x.data !in init;
      } else {
        assert Group(ops + [x], Data, d) == Group(ops, Data, d);
      }
    }
  }

  lemma {:induction false} QuantityOverDatesOfEmpty(ds: seq<string>)
    ensures QuantityOverDates([], ds) == 0
  {
    if ds != [] {
      QuantityOverDatesOfEmpty(ds[..|ds| - 1]);
    }
  }

  /** Summing date by date over distinct dates that cover every operation gives the bought
      minus sold shares of all of them. */
  lemma {:induction false} GroupedQuantity(ops: seq<Operation>, ds: seq<string>)
    requires Distinct(ds)
    requires forall op :: op in ops ==> op.data in ds
    ensures QuantityOverDates(ops, ds) == NetQuantity(ops)
  {
    if ops == [] {
      QuantityOverDatesOfEmpty(ds);
    } else {
      var init := ops[..|ops| - 1];
      var x := ops[|ops| - 1];
      assert ops == init + [x];
      GroupedQuantity(init, ds);
      QuantityOverDatesSnoc(init, x, ds);
      NetQuantitySnoc(init, x);
    }
  }

  /** Netting never changes a quantity: over all dates it is the shares bought minus the
      shares sold, as without netting. */
  lemma NettedQuantity(ops: seq<Operation>)
    ensures Netted(ops, KeysOf(ops, Data)).quantidade == NetQuantity(ops)
  {
    KeysOfExact(ops, Data);
    NettedQuantityOverDates(ops, KeysOf(ops, Data));
    GroupedQuantity(ops, KeysOf(ops, Data));
  }

  /** The position of one asset before the `quantidade > 0` filter. */
  function NettedPosition(ops: seq<Operation>, ativo: string): Position
  {
    var own := Group(ops, Ativo, ativo);
    var h := Netted(own, KeysOf(own, Data));
    PositionOf(ativo, h.quantidade, h.valorTotal)
  }

  /** `ativos.map(...).filter(item => item.quantidade > 0)`. */
  function NettedPortfolio(ops: seq<Operation>, ativos: seq<string>): seq<Position>
  {
    if ativos == [] then []
    else
      var p := NettedPosition(ops, ativos[|ativos| - 1]);
      NettedPortfolio(ops, ativos[..|ativos| - 1]) + (if p.quantidade > 0 then [p] else [])
  }

  method NettedPortfolioOf(todasOperacoes: seq<Operation>, ativos: seq<string>) returns (portfolio: seq<Position>)
    ensures portfolio == NettedPortfolio(todasOperacoes, ativos)
  {
    portfolio := [];
    var i := 0;
    while i < |ativos|
      invariant 0 <= i <= |ativos|
      invariant portfolio == NettedPortfolio(todasOperacoes, ativos[..i])
    {
      assert ativos[..i + 1][..i] == ativos[..i];
      var ativo := ativos[i];
      var operacoesAtivo := Group(todasOperacoes, Ativo, ativo);
      var quantidade, valorTotal := NettedHolding(operacoesAtivo);
      var item := PositionOf(ativo, quantidade, valorTotal);
      assert item == NettedPosition(todasOperacoes, ativos[..i + 1][i]);
      if item.quantidade > 0 {
        portfolio := portfolio + [item];
      }
      i := i + 1;
    }
    assert ativos[..i] == ativos;
  }

  /** The portfolio holds exactly the positions of the listed assets that have a positive
      quantity; a held position's average price times its quantity is its value. */
  lemma {:induction false} NettedPortfolioExact(ops: seq<Operation>, ativos: seq<string>)
    ensures forall p :: p in NettedPortfolio(ops, ativos) <==>
      p.ativo in ativos && p == NettedPosition(ops, p.ativo) && p.quantidade > 0
  {
    if ativos != [] {
      var init := ativos[..|ativos| - 1];
      var a := ativos[|ativos| - 1];
      NettedPortfolioExact(ops, init);
      assert ativos == init + [a];
      assert NettedPosition(ops, a).ativo == a;
    }
  }

  /** The two hooks hold the same assets in the same order with the same quantities: the
      netting changes only values and average prices. */
  lemma {:induction false} SameHoldingsAsNaive(ops: seq<Operation>, ativos: seq<string>)
    ensures |NettedPortfolio(ops, ativos)| == |DashboardContext.NaivePortfolio(ops, ativos)|
    ensures forall i :: 0 <= i < |NettedPortfolio(ops, ativos)| ==>
      NettedPortfolio(ops, ativos)[i].ativo == DashboardContext.NaivePortfolio(ops, ativos)[i].ativo &&
      NettedPortfolio(ops, ativos)[i].quantidade == DashboardContext.NaivePortfolio(ops, ativos)[i].quantidade
  {
    if ativos != [] {
      var a := ativos[|ativos| - 1];
      var init := ativos[..|ativos| - 1];
      SameHoldingsAsNaive(ops, init);
      NettedQuantity(Group(ops, Ativo, a));
      var p, q := NettedPosition(ops, a), DashboardContext.NaivePosition(ops, a);
      assert p.ativo == q.ativo && p.quantidade == q.quantidade;
      assert NettedPortfolio(ops, ativos) == NettedPortfolio(ops, init) + (if p.quantidade > 0 then [p] else []);
      assert DashboardContext.NaivePortfolio(ops, ativos) ==
        DashboardContext.NaivePortfolio(ops, init) + (if q.quantidade > 0 then [q] else []);
    }
  }

  /** Operations that all share one date have that date as their only key. */
  lemma {:induction false} KeysOfOneDate(ops: seq<Operation>, data: string)
    requires |ops| > 0 && forall i :: 0 <= i < |ops| ==> ops[i].data == data
    ensures KeysOf(ops, Data) == [data]
  {
    if |ops| > 1 {
      KeysOfOneDate(ops[..|ops| - 1], data);
    }
  }

  /** One asset's operations, all on one date, give the position of a single day step. */
  lemma OneDay(ops: seq<Operation>, ativo: string, data: string)
    requires |ops| > 0 && forall i :: 0 <= i < |ops| ==> ops[i].ativo == ativo && ops[i].data == data
    ensures NettedPosition(ops, ativo) == PositionOf(ativo, DayStep(Holding(0, 0.0), ops).quantidade,
                                                     DayStep(Holding(0, 0.0), ops).valorTotal)
  {
    GroupOfUniform(ops, Ativo, ativo);
    assert Group(ops, Ativo, ativo) == ops;
    GroupOfUniform(ops, Data, data);
    KeysOfOneDate(ops, data);
    assert [data][..0] == [];
    assert Netted(ops, [data]) == DayStep(Netted(ops, []), Group(ops, Data, data));
  }

  /** The purchase side and the sale side of a purchase followed by a sale. */
  lemma PairSides(compra: Operation, venda: Operation)
    requires compra.tipo == Compra && venda.tipo == Venda
    ensures Where([compra, venda], IsPurchase) == [compra] && Where([compra, venda], IsSale) == [venda]
  {
    assert [compra, venda][..1] == [compra];
    assert [compra][..0] == [];
  }

  /** The shares and the amount of a single operation. */
  lemma SingleSums(x: Operation)
    ensures Quantity([x]) == x.quantidade && Total([x]) == x.valor
  {
    assert [x][..0] == [];
  }

  /** Buying 200 shares for 4000.00 and selling 100 for 2100.00 on one date leaves 100
      shares at the day's average purchase price of 20.00. */
  lemma PartialDayTradeExample(compra: Operation, venda: Operation)
    requires compra == Operation(Compra, "PETR4", Acao, 200, 20.0, "2024-01-15", 4000.0, 10.0, true, true, None, None)
    requires venda == Operation(Venda, "PETR4", Acao, 100, 21.0, "2024-01-15", 2100.0, 5.25, true, true, None, None)
    ensures NettedPortfolio([compra, venda], ["PETR4"]) == [Position("PETR4", 100, 20.0, 2000.0)]
  {
    var ops := [compra, venda];
    PairSides(compra, venda);
    SingleSums(compra);
    SingleSums(venda);
    assert DayStep(Holding(0, 0.0), ops) == Settle(Holding(0, 0.0), true, true, 200, 100, 4000.0, 2100.0);
    OneDay(ops, "PETR4", "2024-01-15");
    assert NettedPosition(ops, "PETR4") == PositionOf("PETR4", 100, 2000.0);
    assert ["PETR4"][..0] == [];
  }

  /** Buying and selling 100 shares on one date leaves no position. */
  lemma FullDayTradeExample(compra: Operation, venda: Operation)
    requires compra == Operation(Compra, "PETR4", Acao, 100, 20.0, "2024-01-15", 2000.0, 5.0, true, true, None, None)
    requires venda == Operation(Venda, "PETR4", Acao, 100, 21.0, "2024-01-15", 2100.0, 5.25, true, true, None, None)
    ensures NettedPortfolio([compra, venda], ["PETR4"]) == []
  {
    var ops := [compra, venda];
    PairSides(compra, venda);
    SingleSums(compra);
    SingleSums(venda);
    assert DayStep(Holding(0, 0.0), ops) == Holding(0, 0.0);
    OneDay(ops, "PETR4", "2024-01-15");
    assert ["PETR4"][..0] == [];
  }

  /** The updater passed to `setDashboardData`: as in the provider, except that the
      portfolio is the netted one. */
  method AddNote(prev: DashboardData, notaCorretagem: Note, correct: string -> string) returns (next: DashboardData)
    ensures next.notasCorretagem == prev.notasCorretagem + [notaCorretagem]
    ensures AllOperations(next.notasCorretagem) == AllOperations(prev.notasCorretagem) + notaCorretagem.operacoes
    ensures next.impostos == FlatTaxRule(Net(Where(AllOperations(next.notasCorretagem), IsDayTrade)),
                                         Net(Where(AllOperations(next.notasCorretagem), IsSwingTrade)))
    ensures next.ativos == ExtractCodes(AllOperations(next.notasCorretagem), correct)
    ensures next.portfolio == NettedPortfolio(AllOperations(next.notasCorretagem), next.ativos)
    ensures next.dividendos == prev.dividendos
  {
    var notasAtualizadas := prev.notasCorretagem + [notaCorretagem];
    AllOperationsSnoc(prev.notasCorretagem, notaCorretagem);
    var todasOperacoes := AllOperations(notasAtualizadas);
    var impostos := FlatTaxes(todasOperacoes);
    var ativos := ExtractCodes(todasOperacoes, correct);
    var portfolio := NettedPortfolioOf(todasOperacoes, ativos);
    next := DashboardData(notasAtualizadas, ativos, impostos, prev.dividendos, portfolio);
  }
}
