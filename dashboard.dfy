/** `DashboardData` and what the two dashboard hooks share when they rebuild it: the
    operations of all notes, share quantities, and the position record with its guarded
    average price. */
module Dashboard {
  import opened Operations
  import opened OperationsUtils
  import opened PdfParser

  /** `tipo: 'dividendo' | 'jcp' | 'rendimento'`. */
  datatype DividendKind = Dividendo | Jcp | Rendimento

  datatype Dividend = Dividend(ativo: string, valor: real, data: string, tipo: DividendKind)

  /** One portfolio entry. The quantity is an integer: sales can outnumber purchases. */
  datatype Position = Position(ativo: string, quantidade: int, precoMedio: real, valorTotal: real)

  datatype DashboardData = DashboardData(
    notasCorretagem: seq<Note>,
    ativos: seq<string>,
    impostos: Taxes,
    dividendos: seq<Dividend>,
    portfolio: seq<Position>)

  /** `notas.flatMap(nota => nota.operacoes)`. */
  function AllOperations(notas: seq<Note>): seq<Operation>
  {
    if notas == [] then [] else AllOperations(notas[..|notas| - 1]) + notas[|notas| - 1].operacoes
  }

  /** Appending a note appends its operations after those of the earlier notes. */
  lemma AllOperationsSnoc(notas: seq<Note>, nota: Note)
    ensures AllOperations(notas + [nota]) == AllOperations(notas) + nota.operacoes
  {
    assert (notas + [nota])[..|notas|] == notas;
  }

  /** `ops.reduce((sum, op) => sum + op.quantidade, 0)`. */
  function Quantity(ops: seq<Operation>): nat
  {
    if ops == [] then 0 else Quantity(ops[..|ops| - 1]) + ops[|ops| - 1].quantidade
  }

  /** Shares bought minus shares sold. */
  function NetQuantity(ops: seq<Operation>): int
  {
    Quantity(Where(ops, IsPurchase)) - Quantity(Where(ops, IsSale))
  }

  /** What one operation adds to `NetQuantity`. */
  function SignedQuantity(op: Operation): int
  {
    if op.tipo == Compra then op.quantidade else -(op.quantidade as int)
  }

  lemma {:induction false} QuantityAppend(a: seq<Operation>, b: seq<Operation>)
    ensures Quantity(a + b) == Quantity(a) + Quantity(b)
    decreases |b|
  {
    if b != [] {
      var b' := b[..|b| - 1];
      assert (a + b)[..|a + b| - 1] == a + b';
      assert (a + b)[|a + b| - 1] == b[|b| - 1];
      QuantityAppend(a, b');
    } else {
      assert a + b == a;
    }
  }

  /** A purchase adds its quantity, a sale takes its quantity away. */
  lemma NetQuantitySnoc(ops: seq<Operation>, x: Operation)
    ensures NetQuantity(ops + [x]) == NetQuantity(ops) + SignedQuantity(x)
  {
    WhereAppend(ops, [x], IsPurchase);
    WhereAppend(ops, [x], IsSale);
    assert [x][..0] == [];
    QuantityAppend(Where(ops, IsPurchase), Where([x], IsPurchase));
    QuantityAppend(Where(ops, IsSale), Where([x], IsSale));
  }

  /** `{ativo, quantidade, precoMedio, valorTotal: quantidade * precoMedio}` with
      `precoMedio = quantidade > 0 ? valorTotal / quantidade : 0`. */
  function PositionOf(ativo: string, quantidade: int, valorTotal: real): (r: Position)
    ensures r.ativo == ativo && r.quantidade == quantidade
    ensures quantidade > 0 ==> r.valorTotal == valorTotal
    ensures quantidade <= 0 ==> r.precoMedio == 0.0 && r.valorTotal == 0.0
  {
    var precoMedio := if quantidade > 0 then valorTotal / quantidade as real else 0.0;
    Position(ativo, quantidade, precoMedio, quantidade as real * precoMedio)
  }

  /** A held position's average price is its value shared over its shares. */
  lemma PositionOfPrice(ativo: string, quantidade: int, valorTotal: real)
    requires quantidade > 0
    ensures PositionOf(ativo, quantidade, valorTotal).precoMedio * quantidade as real == valorTotal
  {
  }
}
