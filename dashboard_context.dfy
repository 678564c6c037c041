/** The recomputation that `DashboardProvider` runs inside `setDashboardData` when a note
    arrives: the note is appended, taxes and asset codes are recomputed over every
    operation of every note, and each asset's position is bought minus sold, with no
    day-trade netting. */
module DashboardContext {
  import opened Money
  import opened Operations
  import opened Grouping
  import opened OperationsUtils
  import opened PdfParser
  import opened Dashboard

  /** The `forEach` over one asset's operations: a purchase adds its quantity and value, a
      sale takes them away. */
  method NaiveHolding(operacoesAtivo: seq<Operation>) returns (quantidade: int, valorTotal: real)
    ensures quantidade == NetQuantity(operacoesAtivo)
    ensures valorTotal == Total(Where(operacoesAtivo, IsPurchase)) - Total(Where(operacoesAtivo, IsSale))
  {
    quantidade := 0;
    valorTotal := 0.0;
    var i := 0;
    while i < |operacoesAtivo|
      invariant 0 <= i <= |operacoesAtivo|
      invariant quantidade == NetQuantity(operacoesAtivo[..i])
      invariant valorTotal == -Net(operacoesAtivo[..i])
    {
      var op := operacoesAtivo[i];
      assert operacoesAtivo[..i + 1] == operacoesAtivo[..i] + [op];
      NetQuantitySnoc(operacoesAtivo[..i], op);
      NetSnoc(operacoesAtivo[..i], op);
      if op.tipo == Compra {
        quantidade := quantidade + op.quantidade;
        valorTotal := valorTotal + op.valor;
      } else if op.tipo == Venda {
        quantidade := quantidade - op.quantidade;
        valorTotal := valorTotal - op.valor;
      }
      i := i + 1;
    }
    assert operacoesAtivo[..i] == operacoesAtivo;
  }

  /** The position of one asset before the `quantidade > 0` filter. */
  function NaivePosition(ops: seq<Operation>, ativo: string): Position
  {
    var own := Group(ops, Ativo, ativo);
    PositionOf(ativo, NetQuantity(own), -Net(own))
  }

  /** `ativos.map(...).filter(item => item.quantidade > 0)`. */
  function NaivePortfolio(ops: seq<Operation>, ativos: seq<string>): seq<Position>
  {
    if ativos == [] then []
    else
      var p := NaivePosition(ops, ativos[|ativos| - 1]);
      NaivePortfolio(ops, ativos[..|ativos| - 1]) + (if p.quantidade > 0 then [p] else [])
  }

  method NaivePortfolioOf(todasOperacoes: seq<Operation>, ativos: seq<string>) returns (portfolio: seq<Position>)
    ensures portfolio == NaivePortfolio(todasOperacoes, ativos)
  {
    portfolio := [];
    var i := 0;
    while i < |ativos|
      invariant 0 <= i <= |ativos|
      invariant portfolio == NaivePortfolio(todasOperacoes, ativos[..i])
    {
      assert ativos[..i + 1][..i] == ativos[..i];
      var ativo := ativos[i];
      var operacoesAtivo := Group(todasOperacoes, Ativo, ativo);
      var quantidade, valorTotal := NaiveHolding(operacoesAtivo);
      var item := PositionOf(ativo, quantidade, valorTotal);
      assert item == NaivePosition(todasOperacoes, ativos[..i + 1][i]);
      if item.quantidade > 0 {
        portfolio := portfolio + [item];
      }
      i := i + 1;
    }
    assert ativos[..i] == ativos;
  }

  /** One asset's position: its quantity is bought minus sold shares; when held, its
      value is what was paid minus what was received and its average price is that value
      per share; otherwise price and value are 0. */
  lemma NaivePositionMeaning(ops: seq<Operation>, a: string)
    ensures var p := NaivePosition(ops, a);
      p.ativo == a && p.quantidade == NetQuantity(Group(ops, Ativo, a)) &&
      (p.quantidade > 0 ==> p.valorTotal == -Net(Group(ops, Ativo, a)) && p.precoMedio * p.quantidade as real == p.valorTotal) &&
      (p.quantidade <= 0 ==> p.precoMedio == 0.0 && p.valorTotal == 0.0)
  {
    var own := Group(ops, Ativo, a);
    if NetQuantity(own) > 0 {
      PositionOfPrice(a, NetQuantity(own), -Net(own));
    }
  }

  /** The portfolio holds exactly the positions of the listed assets that have a positive
      quantity, in the order of the list. */
  lemma {:induction false} NaivePortfolioExact(ops: seq<Operation>, ativos: seq<string>)
    ensures forall p :: p in NaivePortfolio(ops, ativos) <==>
      p.ativo in ativos && p == NaivePosition(ops, p.ativo) && p.quantidade > 0
  {
    if ativos != [] {
      var init := ativos[..|ativos| - 1];
      var a := ativos[|ativos| - 1];
      NaivePortfolioExact(ops, init);
      assert ativos == init + [a];
      assert NaivePosition(ops, a).ativo == a;
    }
  }

  /** The updater passed to `setDashboardData`: the note goes after the earlier ones, taxes
      are the flat-rate ones over all operations, the asset codes are `extrairAtivos` of
      all operations (the name correction is a parameter), the portfolio is rebuilt and
      the dividends are kept. */
  method AddNote(prev: DashboardData, notaCorretagem: Note, correct: string -> string) returns (next: DashboardData)
    ensures next.notasCorretagem == prev.notasCorretagem + [notaCorretagem]
    ensures AllOperations(next.notasCorretagem) == AllOperations(prev.notasCorretagem) + notaCorretagem.operacoes
    ensures next.impostos == FlatTaxRule(Net(Where(AllOperations(next.notasCorretagem), IsDayTrade)),
                                         Net(Where(AllOperations(next.notasCorretagem), IsSwingTrade)))
    ensures next.ativos == ExtractCodes(AllOperations(next.notasCorretagem), correct)
    ensures next.portfolio == NaivePortfolio(AllOperations(next.notasCorretagem), next.ativos)
    ensures next.dividendos == prev.dividendos
  {
    var notasAtualizadas := prev.notasCorretagem + [notaCorretagem];
    AllOperationsSnoc(prev.notasCorretagem, notaCorretagem);
    var todasOperacoes := AllOperations(notasAtualizadas);
    var impostos := FlatTaxes(todasOperacoes);
    var ativos := ExtractCodes(todasOperacoes, correct);
    var portfolio := NaivePortfolioOf(todasOperacoes, ativos);
    next := DashboardData(notasAtualizadas, ativos, impostos, prev.dividendos, portfolio);
  }
}
