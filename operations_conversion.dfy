/** `converterParaOperations` of utils/pdf/operationsConversion.ts: operations read from a
    note become `Operation`s, uncatalogued codes are dropped, and buys and sells of one code
    on one date are marked as day trades. */
module OperationsConversion {
  import opened Wrappers
  import opened Money
  import opened Text
  import opened Constants
  import opened StockService
  import opened AssetTypes
  import opened Operations
  import opened Grouping
  import opened TypeBuckets

  /** `ExtracaoOperacao`: one operation as read from a note. */
  datatype ExtractedOperation = ExtractedOperation(
    codigo: string,
    tipo: string,
    quantidade: nat,
    precoUnitario: real,
    valorTotal: real,
    data: string,
    strike: Option<string>,
    ativoBase: Option<string>)

  /** `/^\d{2}\/\d{2}\/\d{4}$/`. */
  predicate IsSlashDate(d: string)
  {
    |d| == 10 && Digits(d, 0, 2) && d[2] == '/' && Digits(d, 3, 5) && d[5] == '/' && Digits(d, 6, 10)
  }

  /** `YYYY-MM-DD`, every other character a digit. */
  predicate IsIsoDate(d: string)
  {
    |d| == 10 && Digits(d, 0, 4) && d[4] == '-' && Digits(d, 5, 7) && d[7] == '-' && Digits(d, 8, 10)
  }

  /** `${ano}-${mes}-${dia}` of a `DD/MM/YYYY` date; any other text is kept as it is. */
  function FormatDate(d: string): string
  {
    if IsSlashDate(d) then d[6..10] + "-" + d[3..5] + "-" + d[0..2] else d
  }

  /** `DD/MM/YYYY` of an ISO date. */
  function SlashDate(d: string): string
    requires |d| == 10
  {
    d[8..10] + "/" + d[5..7] + "/" + d[0..4]
  }

  /** A `DD/MM/YYYY` date becomes an ISO date with the same day, month and year; anything
      else is left alone. */
  lemma FormatDateIso(d: string)
    ensures IsSlashDate(d) ==> IsIsoDate(FormatDate(d)) && SlashDate(FormatDate(d)) == d
    ensures !IsSlashDate(d) ==> FormatDate(d) == d
  {
    if IsSlashDate(d) {
      var r := FormatDate(d);
      assert r[0..4] == d[6..10] && r[5..7] == d[3..5] && r[8..10] == d[0..2];
      assert SlashDate(r) == d;
    }
  }

  /** Formatting a formatted date changes nothing. */
  lemma FormatDateIdempotent(d: string)
    ensures FormatDate(FormatDate(d)) == FormatDate(d)
  {
    FormatDateIso(d);
    if IsSlashDate(d) {
      assert FormatDate(d)[2] != '/';
    }
  }

  /** `Math.max(5, valorTotal * 0.0025)`, rounded to cents: 0.25% of the value, at least R$ 5. */
  function BrokerageFee(valorTotal: real): (r: real)
    ensures r >= 5.0
  {
    Round2AtLeast(Max(5.0, valorTotal * 0.0025), 500);
    Round2(Max(5.0, valorTotal * 0.0025))
  }

  /** Up to R$ 2000 the fee is exactly the minimum; above, it is 0.25% of the value to the
      cent. */
  lemma BrokerageFeeCases(valorTotal: real)
    ensures valorTotal <= 2000.0 ==> BrokerageFee(valorTotal) == 5.0
    ensures valorTotal > 2000.0 ==> valorTotal * 0.0025 - 0.005 < BrokerageFee(valorTotal) <= valorTotal * 0.0025 + 0.005
  {
    Round2OfCents(500);
  }

  /** `op.tipo === 'COMPRA' ? 'compra' : 'venda'`: anything but `COMPRA` is a sale. */
  function SideOf(tipo: string): Side
  {
    if tipo == "COMPRA" then Compra else Venda
  }

  /** The object pushed for one catalogued extracted operation. */
  function Convert(x: ExtractedOperation): Operation
  {
    Operation(SideOf(x.tipo), x.codigo, DetermineAssetType(x.codigo), x.quantidade, x.precoUnitario,
              FormatDate(x.data), x.valorTotal, BrokerageFee(x.valorTotal), false, true, x.strike, x.ativoBase)
  }

  /** The first loop over `xs`: catalogued codes are converted, the rest skipped. */
  function Converted(xs: seq<ExtractedOperation>): (r: seq<Operation>)
    ensures |r| <= |xs|
  {
    if xs == [] then []
    else
      var init := Converted(xs[..|xs| - 1]);
      if ExistsOnB3(xs[|xs| - 1].codigo) then init + [Convert(xs[|xs| - 1])] else init
  }

  /** The object built for one catalogued operation: type from the code, side from `tipo`,
      date rewritten to ISO form, fee rounded to cents, no day trade yet, valid block. */
  method ConvertOne(op: ExtractedOperation) returns (o: Operation)
    ensures o == Convert(op)
  {
    var tipoAtivo := DetermineAssetType(op.codigo);
    var tipoBaixado := SideOf(op.tipo);
    var dataFormatada := RewriteDate(op.data);
    var taxaCorretagem := Max(5.0, op.valorTotal * 0.0025);
    o := Operation(tipoBaixado, op.codigo, tipoAtivo, op.quantidade, op.precoUnitario,
                   dataFormatada, op.valorTotal, Round2(taxaCorretagem), false, true,
                   op.strike, op.ativoBase);
  }

  /** `dd/mm/yyyy` is rewritten to `yyyy-mm-dd`; any other text is kept. */
  method RewriteDate(data: string) returns (dataFormatada: string)
    ensures dataFormatada == FormatDate(data)
  {
    dataFormatada := data;
    if IsSlashDate(data) {
      dataFormatada := data[6..10] + "-" + data[3..5] + "-" + data[0..2];
    }
  }

  /** `for (const op of operacoesExtraidas)`: skip unknown codes, push the others. */
  method ConvertListed(operacoesExtraidas: seq<ExtractedOperation>) returns (operations: seq<Operation>)
    ensures operations == Converted(operacoesExtraidas)
  {
    operations := [];
    var i := 0;
    while i < |operacoesExtraidas|
      invariant 0 <= i <= |operacoesExtraidas|
      invariant operations == Converted(operacoesExtraidas[..i])
    {
      assert operacoesExtraidas[..i + 1][..i] == operacoesExtraidas[..i];
      var op := operacoesExtraidas[i];
      if ExistsOnB3(op.codigo) {
        var o := ConvertOne(op);
        operations := operations + [o];
      }
      i := i + 1;
    }
    assert operacoesExtraidas[..i] == operacoesExtraidas;
  }

  /** Exactly the catalogued extracted operations are converted, in order; each converted
      operation is valid, not yet a day trade, and typed by its code. */
  lemma {:induction false} ConvertedExact(xs: seq<ExtractedOperation>)
    ensures forall x :: x in xs && ExistsOnB3(x.codigo) ==> Convert(x) in Converted(xs)
    ensures forall op :: op in Converted(xs) ==>
      ExistsOnB3(op.ativo) && op.emBlocoValido && !op.dayTrade && op.tipoAtivo == DetermineAssetType(op.ativo)
  {
    if xs != [] {
      var init := xs[..|xs| - 1];
      assert xs == init + [xs[|xs| - 1]];
      ConvertedExact(init);
    }
  }

  /** `${op.data}-${op.ativo}`, the key of the day-trade dictionary. */
  function Chave(op: Operation): string
  {
    op.data + "-" + op.ativo
  }

  /** The position of the last `-` of `s`, or -1. */
  function LastDash(s: string): int
  {
    if s == [] then -1
    else if s[|s| - 1] == '-' then |s| - 1
    else LastDash(s[..|s| - 1])
  }

  lemma {:induction false} LastDashOf(d: string, c: string)
    requires '-' !in c
    ensures LastDash(d + "-" + c) == |d|
  {
    if c != [] {
      var c' := c[..|c| - 1];
      assert (d + "-" + c)[..|d + "-" + c| - 1] == d + "-" + c';
      LastDashOf(d, c');
    } else {
      assert d + "-" + c == d + "-";
    }
  }

  /** The key tells date and code apart as long as codes have no `-`. */
  lemma ChaveInjective(a: Operation, b: Operation)
    requires '-' !in a.ativo && '-' !in b.ativo
    ensures Chave(a) == Chave(b) <==> a.data == b.data && a.ativo == b.ativo
  {
    if Chave(a) == Chave(b) {
      LastDashOf(a.data, a.ativo);
      LastDashOf(b.data, b.ativo);
      assert a.data == Chave(a)[..|a.data|];
      assert b.data == Chave(b)[..|b.data|];
      assert a.ativo == Chave(a)[|a.data| + 1..];
      assert b.ativo == Chave(b)[|b.data| + 1..];
    }
  }

  /** Catalogued codes have no `-`. */
  lemma ListedCodeHasNoDash(code: string)
    requires ExistsOnB3(code)
    ensures '-' !in code
  {
    ListedIff(Upper(code), Catalogue);
    CatalogueShapes();
    forall i | 0 <= i < |code|
      ensures code[i] != '-'
    {
      assert IsWordChar(Upper(code)[i]);
    }
  }

  /** `ops.some(op => op.tipo === side)`. */
  predicate HasSide(ops: seq<Operation>, side: Side)
  {
    exists op :: op in ops && op.tipo == side
  }

  /** The guard of the marking loop: at least two operations, a buy among them and a sale. */
  predicate DayTradeGroup(ops: seq<Operation>)
  {
    |ops| >= 2 && HasSide(ops, Compra) && HasSide(ops, Venda)
  }

  /** The length test is implied: a group with a buy and a sale has two operations. */
  lemma DayTradeGroupIff(ops: seq<Operation>)
    ensures DayTradeGroup(ops) <==> HasSide(ops, Compra) && HasSide(ops, Venda)
  {
    if HasSide(ops, Compra) && HasSide(ops, Venda) {
      var a :| a in ops && a.tipo == Compra;
      var b :| b in ops && b.tipo == Venda;
      var i :| 0 <= i < |ops| && ops[i] == a;
      var j :| 0 <= j < |ops| && ops[j] == b;
      assert i != j;
    }
  }

  /** The marking loop after visiting the keys `ks`: an operation becomes a day trade when
      its key has been visited and its group passes the guard. */
  function MarkedUpTo(ops: seq<Operation>, ks: seq<string>): (r: seq<Operation>)
    ensures |r| == |ops|
  {
    seq(|ops|, i requires 0 <= i < |ops| =>
      ops[i].(dayTrade := ops[i].dayTrade || (Chave(ops[i]) in ks && DayTradeGroup(Group(ops, Chave, Chave(ops[i]))))))
  }

  /** The marking loop over all keys. */
  function Marked(ops: seq<Operation>): seq<Operation>
  {
    MarkedUpTo(ops, KeysOf(ops, Chave))
  }

  /** `ops.forEach(op => op.dayTrade = true)` over the operations with key `chave`. */
  method SetDayTrade(ops: seq<Operation>, chave: string) returns (r: seq<Operation>)
    ensures |r| == |ops|
    ensures forall i :: 0 <= i < |ops| ==> r[i] == if Chave(ops[i]) == chave then ops[i].(dayTrade := true) else ops[i]
  {
    r := ops;
    var i := 0;
    while i < |ops|
      invariant 0 <= i <= |ops| && |r| == |ops|
      invariant forall k :: 0 <= k < i ==> r[k] == if Chave(ops[k]) == chave then ops[k].(dayTrade := true) else ops[k]
      invariant forall k :: i <= k < |ops| ==> r[k] == ops[k]
    {
      if Chave(r[i]) == chave {
        r := r[i := r[i].(dayTrade := true)];
      }
      i := i + 1;
    }
  }

  /** Group the operations by key and mark every operation of a group with a buy and a sale. */
  method MarkDayTrades(operations: seq<Operation>) returns (marked: seq<Operation>)
    ensures marked == Marked(operations)
  {
    var chaves, porChave := GroupBy(operations, Chave);
    marked := operations;
    var j := 0;
    assert marked == MarkedUpTo(operations, chaves[..0]);
    while j < |chaves|
      invariant 0 <= j <= |chaves|
      invariant marked == MarkedUpTo(operations, chaves[..j])
    {
      var ops := porChave[chaves[j]];
      assert ops == Group(operations, Chave, chaves[j]);
      assert forall c :: c in chaves[..j + 1] <==> c in chaves[..j] || c == chaves[j];
      if |ops| >= 2 {
        var temCompra := HasSide(ops, Compra);
        var temVenda := HasSide(ops, Venda);
        if temCompra && temVenda {
          var before := marked;
          marked := SetDayTrade(marked, chaves[j]);
          forall i | 0 <= i < |operations|
            ensures marked[i] == MarkedUpTo(operations, chaves[..j + 1])[i]
          {
            assert Chave(before[i]) == Chave(operations[i]);
          }
        }
      }
      assert marked == MarkedUpTo(operations, chaves[..j + 1]);
      j := j + 1;
    }
    assert chaves[..j] == chaves;
  }

  /** After marking, an operation is a day trade exactly when it already was or some
      operation with its key is a buy and some is a sale. */
  lemma MarkedIff(ops: seq<Operation>, i: nat)
    requires i < |ops|
    ensures Marked(ops)[i].dayTrade <==>
      (ops[i].dayTrade ||
       ((exists a :: a in ops && Chave(a) == Chave(ops[i]) && a.tipo == Compra) &&
        (exists b :: b in ops && Chave(b) == Chave(ops[i]) && b.tipo == Venda)))
    ensures Marked(ops)[i] == ops[i].(dayTrade := Marked(ops)[i].dayTrade)
  {
    var g := Group(ops, Chave, Chave(ops[i]));
    KeysOfExact(ops, Chave);
    GroupExact(ops, Chave, Chave(ops[i]));
    DayTradeGroupIff(g);
  }

  /** `converterParaOperations`; the `corretora` argument is unused and left out. */
  method ConvertToOperations(operacoesExtraidas: seq<ExtractedOperation>) returns (operations: seq<Operation>)
    ensures operations == Marked(Converted(operacoesExtraidas))
  {
    operations := ConvertListed(operacoesExtraidas);
    operations := MarkDayTrades(operations);
  }

  /** In the converted list an operation is a day trade exactly when the list has a buy and
      a sale of its code on its date; nothing else about it changes. */
  lemma ConversionDayTrades(xs: seq<ExtractedOperation>, i: nat)
    requires i < |Marked(Converted(xs))|
    ensures var ops := Converted(xs);
      Marked(ops)[i].dayTrade <==>
        (exists a :: a in ops && a.data == ops[i].data && a.ativo == ops[i].ativo && a.tipo == Compra) &&
        (exists b :: b in ops && b.data == ops[i].data && b.ativo == ops[i].ativo && b.tipo == Venda)
  {
    var ops := Converted(xs);
    ConvertedExact(xs);
    MarkedIff(ops, i);
    forall a | a in ops
      ensures Chave(a) == Chave(ops[i]) <==> a.data == ops[i].data && a.ativo == ops[i].ativo
    {
      ListedCodeHasNoDash(a.ativo);
      ListedCodeHasNoDash(ops[i].ativo);
      ChaveInjective(a, ops[i]);
    }
  }

  /** Every operation's type is the one its code determines. */
  predicate TypedByCode(ops: seq<Operation>)
  {
    forall x :: x in ops ==> x.tipoAtivo == DetermineAssetType(x.ativo)
  }

  /** The converted operations type each code the same way, so both calculators credit
      them alike. */
  lemma ConversionConsistentTypes(xs: seq<ExtractedOperation>)
    ensures ConsistentTypes(Marked(Converted(xs)))
  {
    var ops := Converted(xs);
    var m := Marked(ops);
    ConvertedExact(xs);
    forall i | 0 <= i < |m|
      ensures m[i].tipoAtivo == DetermineAssetType(m[i].ativo)
    {
      assert ops[i] in ops;
    }
    assert TypedByCode(m);
  }
}
