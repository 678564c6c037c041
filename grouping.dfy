/** The grouping dictionaries of the calculators: `if (!g[k]) g[k] = []; g[k].push(op)`
    over a list of operations, then a walk over the entries in insertion order. */
module Grouping {
  import opened AssetTypes
  import opened Operations

  function Ativo(op: Operation): string { op.ativo }

  function Data(op: Operation): string { op.data }

  function TipoAtivo(op: Operation): AssetType { op.tipoAtivo }

  predicate Distinct<K(==)>(ks: seq<K>)
  {
    forall i, j :: 0 <= i < j < |ks| ==> ks[i] != ks[j]
  }

  /** The keys of the dictionary, in the order they were first inserted. */
  function KeysOf<K(==)>(ops: seq<Operation>, key: Operation -> K): seq<K>
  {
    if ops == [] then []
    else
      var ks := KeysOf(ops[..|ops| - 1], key);
      if key(ops[|ops| - 1]) in ks then ks else ks + [key(ops[|ops| - 1])]
  }

  /** The list stored under `k`: the operations with that key, in input order. */
  function Group<K(==)>(ops: seq<Operation>, key: Operation -> K, k: K): seq<Operation>
  {
    Where(ops, op => key(op) == k)
  }

  /** Pushing one more operation extends only the list under its own key. */
  lemma GroupSnoc<K>(ops: seq<Operation>, x: Operation, key: Operation -> K, k: K)
    ensures Group(ops + [x], key, k) == Group(ops, key, k) + (if key(x) == k then [x] else [])
  {
    assert (ops + [x])[..|ops|] == ops;
  }

  /** Every key is listed once, every operation's key is listed, and no listed key has
      an empty list. */
  lemma {:induction false} KeysOfExact<K>(ops: seq<Operation>, key: Operation -> K)
    ensures Distinct(KeysOf(ops, key))
    ensures forall op :: op in ops ==> key(op) in KeysOf(ops, key)
    ensures forall k :: k in KeysOf(ops, key) ==> Group(ops, key, k) != []
  {
    if ops != [] {
      var init := ops[..|ops| - 1];
      var x := ops[|ops| - 1];
      assert ops == init + [x];
      KeysOfExact(init, key);
      forall k | k in KeysOf(ops, key)
        ensures Group(ops, key, k) != []
      {
        GroupSnoc(init, x, key, k);
      }
    }
  }

  /** Filtering a group is grouping the filtered list. */
  lemma {:induction false} GroupOfWhere<K>(ops: seq<Operation>, key: Operation -> K, k: K, p: Operation -> bool)
    ensures Where(Group(ops, key, k), p) == Group(Where(ops, p), key, k)
  {
    if ops != [] {
      var init := ops[..|ops| - 1];
      var x := ops[|ops| - 1];
      assert ops == init + [x];
      GroupOfWhere(init, key, k, p);
      GroupSnoc(init, x, key, k);
      WhereAppend(Group(init, key, k), if key(x) == k then [x] else [], p);
      assert [x][..0] == [];
      if p(x) {
        assert Where(ops, p) == Where(init, p) + [x];
        GroupSnoc(Where(init, p), x, key, k);
      } else {
        assert Where(ops, p) == Where(init, p);
      }
    }
  }

  /** Grouping by one key and then another is grouping in the other order. */
  lemma {:induction false} GroupCommute<K, L>(ops: seq<Operation>, key: Operation -> K, k: K, key2: Operation -> L, l: L)
    ensures Group(Group(ops, key, k), key2, l) == Group(Group(ops, key2, l), key, k)
  {
    if ops != [] {
      var init := ops[..|ops| - 1];
      var x := ops[|ops| - 1];
      assert ops == init + [x];
      GroupCommute(init, key, k, key2, l);
      GroupSnoc(init, x, key, k);
      GroupSnoc(init, x, key2, l);
      assert [x][..0] == [];
      if key(x) == k {
        GroupSnoc(Group(init, key, k), x, key2, l);
      } else {
        assert Group(ops, key, k) == Group(init, key, k);
      }
      if key2(x) == l {
        GroupSnoc(Group(init, key2, l), x, key, k);
      } else {
        assert Group(ops, key2, l) == Group(init, key2, l);
      }
    }
  }

  /** A listed key holds at least one operation. */
  lemma GroupOfListedKey<K>(ops: seq<Operation>, key: Operation -> K, k: K)
    requires k in KeysOf(ops, key)
    ensures Group(ops, key, k) != []
  {
    KeysOfExact(ops, key);
  }

  /** A key no operation has holds no operations. */
  lemma GroupOfAbsentKey<K>(ops: seq<Operation>, key: Operation -> K, k: K)
    requires k !in KeysOf(ops, key)
    ensures Group(ops, key, k) == []
  {
    KeysOfExact(ops, key);
    WhereExact(ops, op => key(op) == k);
  }

  /** The members of a group are exactly the operations with its key. */
  lemma GroupExact<K>(ops: seq<Operation>, key: Operation -> K, k: K)
    ensures forall op :: op in Group(ops, key, k) <==> op in ops && key(op) == k
  {
    WhereExact(ops, op => key(op) == k);
  }

  /** Grouping a list whose every element has the key `k` keeps all of it under `k`. */
  lemma {:induction false} GroupOfUniform<K>(ops: seq<Operation>, key: Operation -> K, k: K)
    requires forall i :: 0 <= i < |ops| ==> key(ops[i]) == k
    ensures Group(ops, key, k) == ops
  {
    if ops != [] {
      var init := ops[..|ops| - 1];
      assert ops == init + [ops[|ops| - 1]];
      GroupOfUniform(init, key, k);
      GroupSnoc(init, ops[|ops| - 1], key, k);
    }
  }

  /** Grouping a list none of whose elements has the key `k` keeps nothing under `k`. */
  lemma {:induction false} GroupOfOther<K>(ops: seq<Operation>, key: Operation -> K, k: K)
    requires forall i :: 0 <= i < |ops| ==> key(ops[i]) != k
    ensures Group(ops, key, k) == []
  {
    if ops != [] {
      var init := ops[..|ops| - 1];
      assert ops == init + [ops[|ops| - 1]];
      GroupOfOther(init, key, k);
      GroupSnoc(init, ops[|ops| - 1], key, k);
    }
  }

  /** Each element of a group is one of the operations, and has the group's key. */
  lemma {:induction false} GroupElement<K>(ops: seq<Operation>, key: Operation -> K, k: K, i: nat)
    requires i < |Group(ops, key, k)|
    ensures Group(ops, key, k)[i] in ops && key(Group(ops, key, k)[i]) == k
  {
    var init := ops[..|ops| - 1];
    var x := ops[|ops| - 1];
    assert ops == init + [x];
    GroupSnoc(init, x, key, k);
    if i < |Group(init, key, k)| {
      GroupElement(init, key, k, i);
    }
  }

  /** `Object.values(g).forEach(ops => acc += vendas - compras)` over the keys `ks`. */
  function SumOverGroups<K(==)>(ops: seq<Operation>, key: Operation -> K, ks: seq<K>): real
  {
    if ks == [] then 0.0
    else SumOverGroups(ops, key, ks[..|ks| - 1]) + Net(Group(ops, key, ks[|ks| - 1]))
  }

  lemma SumOverGroupsExtend<K>(ops: seq<Operation>, key: Operation -> K, ks: seq<K>, k: K)
    ensures SumOverGroups(ops, key, ks + [k]) == SumOverGroups(ops, key, ks) + Net(Group(ops, key, k))
  {
    assert (ks + [k])[..|ks|] == ks;
  }

  /** One more operation changes the sum over distinct keys by its own signed value when
      its key is among them, and not at all otherwise. */
  lemma {:induction false} SumOverGroupsSnoc<K>(ops: seq<Operation>, x: Operation, key: Operation -> K, ks: seq<K>)
    requires Distinct(ks)
    ensures SumOverGroups(ops + [x], key, ks) == SumOverGroups(ops, key, ks) + (if key(x) in ks then Signed(x) else 0.0)
  {
    if ks != [] {
      var init := ks[..|ks| - 1];
      var k := ks[|ks| - 1];
      assert ks == init + [k];
      SumOverGroupsSnoc(ops, x, key, init);
      GroupSnoc(ops, x, key, k);
      if key(x) == k {
        NetSnoc(Group(ops, key, k), x);
        assert key(x) !in init;
      } else {
        assert Group(ops + [x], key, k) == Group(ops, key, k);
      }
    }
  }

  /** Grouping changes no total: summing the group nets over any distinct keys that cover
      every operation's key gives the net of all operations. */
  lemma {:induction false} GroupedNet<K>(ops: seq<Operation>, key: Operation -> K, ks: seq<K>)
    requires Distinct(ks)
    requires forall op :: op in ops ==> key(op) in ks
    ensures SumOverGroups(ops, key, ks) == Net(ops)
  {
    if ops == [] {
      SumOverGroupsOfEmpty(key, ks);
    } else {
      var init := ops[..|ops| - 1];
      var x := ops[|ops| - 1];
      assert ops == init + [x];
      GroupedNet(init, key, ks);
      SumOverGroupsSnoc(init, x, key, ks);
      NetSnoc(init, x);
    }
  }

  lemma {:induction false} SumOverGroupsOfEmpty<K>(key: Operation -> K, ks: seq<K>)
    ensures SumOverGroups([], key, ks) == 0.0
  {
    if ks != [] {
      SumOverGroupsOfEmpty(key, ks[..|ks| - 1]);
    }
  }

  /** The dictionary's own keys satisfy `GroupedNet`. */
  lemma GroupedNetByKeys<K>(ops: seq<Operation>, key: Operation -> K)
    ensures SumOverGroups(ops, key, KeysOf(ops, key)) == Net(ops)
  {
    KeysOfExact(ops, key);
    GroupedNet(ops, key, KeysOf(ops, key));
  }

  /** The `forEach` that fills the dictionary: returns its keys in insertion order and,
      under each key, the operations with that key in input order. */
  method GroupBy<K(==)>(ops: seq<Operation>, key: Operation -> K) returns (keys: seq<K>, groups: map<K, seq<Operation>>)
    ensures keys == KeysOf(ops, key)
    ensures forall k :: k in groups <==> k in keys
    ensures forall k :: k in groups ==> groups[k] == Group(ops, key, k)
  {
    keys := [];
    groups := map[];
    var i := 0;
    while i < |ops|
      invariant 0 <= i <= |ops|
      invariant keys == KeysOf(ops[..i], key)
      invariant forall k :: k in groups <==> k in keys
      invariant forall k :: k in groups ==> groups[k] == Group(ops[..i], key, k)
    {
      var op := ops[i];
      var k := key(op);
      assert ops[..i + 1] == ops[..i] + [op];
      assert ops[..i + 1][..i] == ops[..i];
      if k !in groups {
        GroupOfAbsentKey(ops[..i], key, k);
        groups := groups[k := []];
        keys := keys + [k];
      }
      forall k' ensures Group(ops[..i + 1], key, k') == Group(ops[..i], key, k') + (if k == k' then [op] else []) {
        GroupSnoc(ops[..i], op, key, k');
      }
      groups := groups[k := groups[k] + [op]];
      i := i + 1;
    }
    assert ops[..i] == ops;
  }

  /** The fixed key order of the type-indexed dictionaries. */
  const AllTypes: seq<AssetType> := [Acao, Fii, Etf, Opcao, Futuro, Desconhecido]

  /** The position of a type in `AllTypes`. */
  function TypeIndex(t: AssetType): (i: nat)
    ensures i < |AllTypes| && AllTypes[i] == t
  {
    match t
    case Acao => 0
    case Fii => 1
    case Etf => 2
    case Opcao => 3
    case Futuro => 4
    case Desconhecido => 5
  }

  /** Summing over the six types in their fixed order. */
  lemma SumOverAllTypes(ops: seq<Operation>)
    ensures SumOverGroups(ops, TipoAtivo, AllTypes)
         == Net(Group(ops, TipoAtivo, Acao)) + Net(Group(ops, TipoAtivo, Fii)) + Net(Group(ops, TipoAtivo, Etf))
          + Net(Group(ops, TipoAtivo, Opcao)) + Net(Group(ops, TipoAtivo, Futuro)) + Net(Group(ops, TipoAtivo, Desconhecido))
  {
    var k0: seq<AssetType> := [];
    var k1 := k0 + [Acao];
    var k2 := k1 + [Fii];
    var k3 := k2 + [Etf];
    var k4 := k3 + [Opcao];
    var k5 := k4 + [Futuro];
    var k6 := k5 + [Desconhecido];
    SumOverGroupsExtend(ops, TipoAtivo, k0, Acao);
    SumOverGroupsExtend(ops, TipoAtivo, k1, Fii);
    SumOverGroupsExtend(ops, TipoAtivo, k2, Etf);
    SumOverGroupsExtend(ops, TipoAtivo, k3, Opcao);
    SumOverGroupsExtend(ops, TipoAtivo, k4, Futuro);
    SumOverGroupsExtend(ops, TipoAtivo, k5, Desconhecido);
    assert k6 == AllTypes;
  }

  lemma AllTypesExact()
    ensures Distinct(AllTypes)
    ensures forall t :: t in AllTypes
  {
    forall t ensures t in AllTypes {
      match t
      case Acao => assert AllTypes[0] == t;
      case Fii => assert AllTypes[1] == t;
      case Etf => assert AllTypes[2] == t;
      case Opcao => assert AllTypes[3] == t;
      case Futuro => assert AllTypes[4] == t;
      case Desconhecido => assert AllTypes[5] == t;
    }
  }
}
