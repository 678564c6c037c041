/** `Operation`: one buy or sell of a brokerage note, and the sums every calculator takes
    over lists of operations (`filter` by a flag, `reduce((acc, op) => acc + op.valor, 0)`). */
module Operations {
  import opened Wrappers
  import opened AssetTypes

  /** `tipo: 'compra' | 'venda'`. */
  datatype Side = Compra | Venda

  /** An operation. Quantities of shares are natural numbers; money is exact. */
  datatype Operation = Operation(
    tipo: Side,
    ativo: string,
    tipoAtivo: AssetType,
    quantidade: nat,
    preco: real,
    data: string,
    valor: real,
    corretagem: real,
    dayTrade: bool,
    emBlocoValido: bool,
    strike: Option<string>,
    ativoBase: Option<string>)

  predicate IsPurchase(op: Operation) { op.tipo == Compra }

  predicate IsSale(op: Operation) { op.tipo == Venda }

  predicate IsDayTrade(op: Operation) { op.dayTrade }

  predicate IsSwingTrade(op: Operation) { !op.dayTrade }

  /** `ops.filter(p)`. */
  function Where(ops: seq<Operation>, p: Operation -> bool): (r: seq<Operation>)
    ensures |r| <= |ops|
  {
    if ops == [] then []
    else Where(ops[..|ops| - 1], p) + (if p(ops[|ops| - 1]) then [ops[|ops| - 1]] else [])
  }

  /** `ops.reduce((acc, op) => acc + op.valor, 0)`. */
  function Total(ops: seq<Operation>): real
  {
    if ops == [] then 0.0 else Total(ops[..|ops| - 1]) + ops[|ops| - 1].valor
  }

  /** `valorVendas - valorCompras`: what was sold minus what was bought. */
  function Net(ops: seq<Operation>): real
  {
    Total(Where(ops, IsSale)) - Total(Where(ops, IsPurchase))
  }

  /** What one operation adds to `Net`. */
  function Signed(op: Operation): real
  {
    if op.tipo == Venda then op.valor else -op.valor
  }

  /** The filter keeps exactly the elements satisfying `p`, in order. */
  lemma {:induction false} WhereExact(ops: seq<Operation>, p: Operation -> bool)
    ensures forall op :: op in Where(ops, p) <==> op in ops && p(op)
  {
    if ops != [] {
      WhereExact(ops[..|ops| - 1], p);
      assert ops == ops[..|ops| - 1] + [ops[|ops| - 1]];
    }
  }

  lemma {:induction false} WhereAppend(a: seq<Operation>, b: seq<Operation>, p: Operation -> bool)
    ensures Where(a + b, p) == Where(a, p) + Where(b, p)
    decreases |b|
  {
    if b != [] {
      var b' := b[..|b| - 1];
      assert (a + b)[..|a + b| - 1] == a + b';
      var x := b[|b| - 1];
      assert (a + b)[|a + b| - 1] == x;
      WhereAppend(a, b', p);
      assert Where(a + b, p) == Where(a + b', p) + (if p(x) then [x] else []);
      assert Where(b, p) == Where(b', p) + (if p(x) then [x] else []);
    } else {
      assert a + b == a;
    }
  }

  lemma {:induction false} TotalAppend(a: seq<Operation>, b: seq<Operation>)
    ensures Total(a + b) == Total(a) + Total(b)
    decreases |b|
  {
    if b != [] {
      var b' := b[..|b| - 1];
      assert (a + b)[..|a + b| - 1] == a + b';
      assert (a + b)[|a + b| - 1] == b[|b| - 1];
      TotalAppend(a, b');
      assert Total(a + b) == Total(a + b') + b[|b| - 1].valor;
      assert Total(b) == Total(b') + b[|b| - 1].valor;
    } else {
      assert a + b == a;
    }
  }

  /** The net of a concatenation is the sum of the nets. */
  lemma NetAppend(a: seq<Operation>, b: seq<Operation>)
    ensures Net(a + b) == Net(a) + Net(b)
  {
    WhereAppend(a, b, IsSale);
    WhereAppend(a, b, IsPurchase);
    TotalAppend(Where(a, IsSale), Where(b, IsSale));
    TotalAppend(Where(a, IsPurchase), Where(b, IsPurchase));
  }

  /** A sale adds its value to the net, a purchase takes its value away. */
  lemma NetSnoc(ops: seq<Operation>, x: Operation)
    ensures Net(ops + [x]) == Net(ops) + Signed(x)
  {
    NetAppend(ops, [x]);
    assert [x][..0] == [];
  }

  lemma NetEmpty()
    ensures Net([]) == 0.0
  {
  }

  /** Splitting by any flag and adding the two nets gives the net of everything: every
      operation is counted on exactly one side. */
  lemma {:induction false} NetPartition(ops: seq<Operation>, p: Operation -> bool, q: Operation -> bool)
    requires forall x :: q(x) <==> !p(x)
    ensures Net(Where(ops, p)) + Net(Where(ops, q)) == Net(ops)
  {
    if ops != [] {
      var init := ops[..|ops| - 1];
      var x := ops[|ops| - 1];
      assert ops == init + [x];
      NetPartition(init, p, q);
      NetSnoc(init, x);
      if p(x) {
        assert Where(ops, p) == Where(init, p) + [x];
        assert Where(ops, q) == Where(init, q);
        NetSnoc(Where(init, p), x);
      } else {
        assert Where(ops, q) == Where(init, q) + [x];
        assert Where(ops, p) == Where(init, p);
        NetSnoc(Where(init, q), x);
      }
    }
  }

  /** Every operation is either a day trade or a swing trade, never both: the two lists
      together are as long as the input and their nets add up to its net. */
  lemma {:induction false} DayAndSwingPartition(ops: seq<Operation>)
    ensures |Where(ops, IsDayTrade)| + |Where(ops, IsSwingTrade)| == |ops|
    ensures Net(Where(ops, IsDayTrade)) + Net(Where(ops, IsSwingTrade)) == Net(ops)
  {
    NetPartition(ops, IsDayTrade, IsSwingTrade);
    if ops != [] {
      DayAndSwingPartition(ops[..|ops| - 1]);
    }
  }

  /** Filtering by two flags in either order gives the same list. */
  lemma {:induction false} WhereCommute(ops: seq<Operation>, p: Operation -> bool, q: Operation -> bool)
    ensures Where(Where(ops, p), q) == Where(Where(ops, q), p)
  {
    if ops != [] {
      var init := ops[..|ops| - 1];
      var x := ops[|ops| - 1];
      WhereCommute(init, p, q);
      WhereAppend(Where(init, p), if p(x) then [x] else [], q);
      WhereAppend(Where(init, q), if q(x) then [x] else [], p);
      assert [x][..0] == [];
    }
  }
}
