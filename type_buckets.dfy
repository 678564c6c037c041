/** `Record<TipoAtivo, ...>`: one value per asset type, and the two loops that the per-type
    calculators share: the day-trade loop that credits each asset's result to the type of
    the asset's first operation, and the swing loop that credits each type with its own
    operations' result. */
module TypeBuckets {
  import opened AssetTypes
  import opened Operations
  import opened Grouping

  /** A record with one field per asset type. */
  datatype ByType<V> = ByType(acao: V, fii: V, etf: V, opcao: V, futuro: V, desconhecido: V)
  {
    /** `r[t]`. */
    function Get(t: AssetType): V
    {
      match t
      case Acao => acao
      case Fii => fii
      case Etf => etf
      case Opcao => opcao
      case Futuro => futuro
      case Desconhecido => desconhecido
    }

    /** `r[t] = v`: field `t` becomes `v`, every other field is kept. */
    function Set(t: AssetType, v: V): (r: ByType<V>)
      ensures r.Get(t) == v
      ensures forall u :: u != t ==> r.Get(u) == Get(u)
    {
      match t
      case Acao => this.(acao := v)
      case Fii => this.(fii := v)
      case Etf => this.(etf := v)
      case Opcao => this.(opcao := v)
      case Futuro => this.(futuro := v)
      case Desconhecido => this.(desconhecido := v)
    }
  }

  /** Two records with the same six fields are equal. */
  lemma ByTypeExt<V>(a: ByType<V>, b: ByType<V>)
    requires forall t :: a.Get(t) == b.Get(t)
    ensures a == b
  {
    assert a.Get(Acao) == b.Get(Acao) && a.Get(Fii) == b.Get(Fii) && a.Get(Etf) == b.Get(Etf);
    assert a.Get(Opcao) == b.Get(Opcao) && a.Get(Futuro) == b.Get(Futuro) && a.Get(Desconhecido) == b.Get(Desconhecido);
  }

  /** `{dayTrade, swingTrade}`. */
  datatype Results = Results(dayTrade: real, swingTrade: real)

  const Zero: Results := Results(0.0, 0.0)

  /** The initial `{acao: {dayTrade: 0, swingTrade: 0}, ...}`. */
  const NoResults: ByType<Results> := ByType(Zero, Zero, Zero, Zero, Zero, Zero)

  /** Adding up the six fields, in the fixed order of the types. */
  function SumDayTrade(b: ByType<Results>): real
  {
    b.acao.dayTrade + b.fii.dayTrade + b.etf.dayTrade + b.opcao.dayTrade + b.futuro.dayTrade + b.desconhecido.dayTrade
  }

  function SumSwingTrade(b: ByType<Results>): real
  {
    b.acao.swingTrade + b.fii.swingTrade + b.etf.swingTrade + b.opcao.swingTrade + b.futuro.swingTrade + b.desconhecido.swingTrade
  }

  /** Changing one field changes the sums by the change of that field. */
  lemma SumsOfSet(b: ByType<Results>, t: AssetType, v: Results)
    ensures SumDayTrade(b.Set(t, v)) == SumDayTrade(b) - b.Get(t).dayTrade + v.dayTrade
    ensures SumSwingTrade(b.Set(t, v)) == SumSwingTrade(b) - b.Get(t).swingTrade + v.swingTrade
  {
  }

  /** The day-trade result of the groups under `ks` whose first operation has type `t`. */
  function CreditedTo(ops: seq<Operation>, key: Operation -> string, ks: seq<string>, t: AssetType): real
  {
    if ks == [] then 0.0
    else
      var g := Group(ops, key, ks[|ks| - 1]);
      CreditedTo(ops, key, ks[..|ks| - 1], t) + (if g != [] && g[0].tipoAtivo == t then Net(g) else 0.0)
  }

  /** One more key credits its group's result to the type of the group's first operation. */
  lemma CreditedToStep(ops: seq<Operation>, key: Operation -> string, ks: seq<string>, j: nat)
    requires j < |ks| && Group(ops, key, ks[j]) != []
    ensures forall t :: (CreditedTo(ops, key, ks[..j + 1], t)
      == CreditedTo(ops, key, ks[..j], t) + (if Group(ops, key, ks[j])[0].tipoAtivo == t then Net(Group(ops, key, ks[j])) else 0.0))
  {
    assert ks[..j + 1][..j] == ks[..j];
  }

  /** What the day-trade loop over `dayTrades` adds to type `t`. */
  function DayTradeCredit(dayTrades: seq<Operation>, t: AssetType): real
  {
    CreditedTo(dayTrades, Ativo, KeysOf(dayTrades, Ativo), t)
  }

  /** What the swing loop over `swingTrades` adds to type `t`. */
  function SwingCredit(swingTrades: seq<Operation>, t: AssetType): real
  {
    Net(Group(swingTrades, TipoAtivo, t))
  }

  /** `b` after both loops: the day-trade loop over `dayTrades` and the swing loop over
      `swingTrades`. */
  function WithCredits(b: ByType<Results>, dayTrades: seq<Operation>, swingTrades: seq<Operation>): ByType<Results>
  {
    ByType(
      Results(b.acao.dayTrade + DayTradeCredit(dayTrades, Acao), b.acao.swingTrade + SwingCredit(swingTrades, Acao)),
      Results(b.fii.dayTrade + DayTradeCredit(dayTrades, Fii), b.fii.swingTrade + SwingCredit(swingTrades, Fii)),
      Results(b.etf.dayTrade + DayTradeCredit(dayTrades, Etf), b.etf.swingTrade + SwingCredit(swingTrades, Etf)),
      Results(b.opcao.dayTrade + DayTradeCredit(dayTrades, Opcao), b.opcao.swingTrade + SwingCredit(swingTrades, Opcao)),
      Results(b.futuro.dayTrade + DayTradeCredit(dayTrades, Futuro), b.futuro.swingTrade + SwingCredit(swingTrades, Futuro)),
      Results(b.desconhecido.dayTrade + DayTradeCredit(dayTrades, Desconhecido), b.desconhecido.swingTrade + SwingCredit(swingTrades, Desconhecido)))
  }

  /** Each type receives its own two credits. */
  lemma WithCreditsGet(b: ByType<Results>, dayTrades: seq<Operation>, swingTrades: seq<Operation>, t: AssetType)
    ensures WithCredits(b, dayTrades, swingTrades).Get(t)
         == Results(b.Get(t).dayTrade + DayTradeCredit(dayTrades, t), b.Get(t).swingTrade + SwingCredit(swingTrades, t))
  {
  }

  /** Running the day-trade loop and then the swing loop yields `WithCredits`. */
  lemma WithCreditsOfSteps(b: ByType<Results>, b1: ByType<Results>, b2: ByType<Results>, dayTrades: seq<Operation>, swingTrades: seq<Operation>)
    requires forall t :: b1.Get(t) == Results(b.Get(t).dayTrade + DayTradeCredit(dayTrades, t), b.Get(t).swingTrade)
    requires forall t :: b2.Get(t) == Results(b1.Get(t).dayTrade, b1.Get(t).swingTrade + SwingCredit(swingTrades, t))
    ensures b2 == WithCredits(b, dayTrades, swingTrades)
  {
    forall t ensures b2.Get(t) == WithCredits(b, dayTrades, swingTrades).Get(t) {
      WithCreditsGet(b, dayTrades, swingTrades, t);
    }
    ByTypeExt(b2, WithCredits(b, dayTrades, swingTrades));
  }

  /** An empty list credits nothing. */
  lemma NoCredits()
    ensures forall t :: DayTradeCredit([], t) == 0.0 && SwingCredit([], t) == 0.0
  {
  }

  /** The loops add exactly the nets of their lists to the two sums. */
  lemma WithCreditsSums(b: ByType<Results>, dayTrades: seq<Operation>, swingTrades: seq<Operation>)
    ensures SumDayTrade(WithCredits(b, dayTrades, swingTrades)) == SumDayTrade(b) + Net(dayTrades)
    ensures SumSwingTrade(WithCredits(b, dayTrades, swingTrades)) == SumSwingTrade(b) + Net(swingTrades)
  {
    DayTradeCreditTotal(dayTrades);
    SwingCreditTotal(swingTrades);
  }

  /** Each group is credited to exactly one type, so the six credits add up to the sum. */
  lemma {:induction false} CreditedToSum(ops: seq<Operation>, key: Operation -> string, ks: seq<string>)
    ensures CreditedTo(ops, key, ks, Acao) + CreditedTo(ops, key, ks, Fii) + CreditedTo(ops, key, ks, Etf)
          + CreditedTo(ops, key, ks, Opcao) + CreditedTo(ops, key, ks, Futuro) + CreditedTo(ops, key, ks, Desconhecido)
         == SumOverGroups(ops, key, ks)
  {
    if ks != [] {
      CreditedToSum(ops, key, ks[..|ks| - 1]);
    }
  }

  /** The day-trade credits over all types add up to the net of the day trades. */
  lemma DayTradeCreditTotal(dayTrades: seq<Operation>)
    ensures DayTradeCredit(dayTrades, Acao) + DayTradeCredit(dayTrades, Fii) + DayTradeCredit(dayTrades, Etf)
          + DayTradeCredit(dayTrades, Opcao) + DayTradeCredit(dayTrades, Futuro) + DayTradeCredit(dayTrades, Desconhecido)
         == Net(dayTrades)
  {
    CreditedToSum(dayTrades, Ativo, KeysOf(dayTrades, Ativo));
    GroupedNetByKeys(dayTrades, Ativo);
  }

  /** The swing credits over all types add up to the net of the swing trades. */
  lemma SwingCreditTotal(swingTrades: seq<Operation>)
    ensures SwingCredit(swingTrades, Acao) + SwingCredit(swingTrades, Fii) + SwingCredit(swingTrades, Etf)
          + SwingCredit(swingTrades, Opcao) + SwingCredit(swingTrades, Futuro) + SwingCredit(swingTrades, Desconhecido)
         == Net(swingTrades)
  {
    AllTypesExact();
    GroupedNet(swingTrades, TipoAtivo, AllTypes);
    SumOverAllTypes(swingTrades);
  }

  /** A type none of whose operations is among the groups is credited nothing. */
  lemma {:induction false} CreditedToAbsent(ops: seq<Operation>, key: Operation -> string, ks: seq<string>, t: AssetType)
    requires forall op :: op in ops ==> op.tipoAtivo != t
    ensures CreditedTo(ops, key, ks, t) == 0.0
  {
    if ks != [] {
      CreditedToAbsent(ops, key, ks[..|ks| - 1], t);
      if Group(ops, key, ks[|ks| - 1]) != [] {
        GroupElement(ops, key, ks[|ks| - 1], 0);
      }
    }
  }

  /** A type without operations keeps both of its figures at 0. */
  lemma CreditsOfAbsentType(ops: seq<Operation>, t: AssetType)
    requires forall op :: op in ops ==> op.tipoAtivo != t
    ensures DayTradeCredit(ops, t) == 0.0 && SwingCredit(ops, t) == 0.0
  {
    CreditedToAbsent(ops, Ativo, KeysOf(ops, Ativo), t);
    if Group(ops, TipoAtivo, t) != [] {
      GroupElement(ops, TipoAtivo, t, 0);
    }
  }

  /** Every operation of one asset has the same type, as when types are derived from codes. */
  predicate ConsistentTypes(ops: seq<Operation>)
  {
    forall x, y :: x in ops && y in ops && x.ativo == y.ativo ==> x.tipoAtivo == y.tipoAtivo
  }

  /** With consistent types, crediting each asset group to its first operation's type
      amounts to grouping by type first. */
  lemma {:induction false} CreditedToByType(ops: seq<Operation>, ks: seq<string>, t: AssetType)
    requires ConsistentTypes(ops)
    ensures CreditedTo(ops, Ativo, ks, t) == SumOverGroups(Group(ops, TipoAtivo, t), Ativo, ks)
  {
    if ks != [] {
      var a := ks[|ks| - 1];
      var g := Group(ops, Ativo, a);
      CreditedToByType(ops, ks[..|ks| - 1], t);
      GroupCommute(ops, TipoAtivo, t, Ativo, a);
      if g != [] {
        GroupElement(ops, Ativo, a, 0);
        forall i | 0 <= i < |g|
          ensures g[i].tipoAtivo == g[0].tipoAtivo
        {
          GroupElement(ops, Ativo, a, i);
        }
        if g[0].tipoAtivo == t {
          GroupOfUniform(g, TipoAtivo, t);
        } else {
          GroupOfOther(g, TipoAtivo, t);
        }
      }
    }
  }

  /** With consistent types, the day-trade figure of a type is the net of the day trades of
      that type, just as the swing figure is. */
  lemma DayTradeCreditByType(dayTrades: seq<Operation>, t: AssetType)
    requires ConsistentTypes(dayTrades)
    ensures DayTradeCredit(dayTrades, t) == Net(Group(dayTrades, TipoAtivo, t))
  {
    CreditedToByType(dayTrades, KeysOf(dayTrades, Ativo), t);
    KeysOfExact(dayTrades, Ativo);
    GroupExact(dayTrades, TipoAtivo, t);
    GroupedNet(Group(dayTrades, TipoAtivo, t), Ativo, KeysOf(dayTrades, Ativo));
  }

  /** `r[t].dayTrade += x`. */
  function AddDayTrade(b: ByType<Results>, t: AssetType, x: real): ByType<Results>
  {
    b.Set(t, b.Get(t).(dayTrade := b.Get(t).dayTrade + x))
  }

  /** `r[t].swingTrade += x`. */
  function AddSwingTrade(b: ByType<Results>, t: AssetType, x: real): ByType<Results>
  {
    b.Set(t, b.Get(t).(swingTrade := b.Get(t).swingTrade + x))
  }

  /** The record after the day-trade loop has visited the keys `ks`. */
  function CreditGroups(b: ByType<Results>, ops: seq<Operation>, key: Operation -> string, ks: seq<string>): ByType<Results>
  {
    if ks == [] then b
    else
      var g := Group(ops, key, ks[|ks| - 1]);
      var b' := CreditGroups(b, ops, key, ks[..|ks| - 1]);
      if g == [] then b' else AddDayTrade(b', g[0].tipoAtivo, Net(g))
  }

  /** Visiting the keys `ks` adds to each type exactly what `CreditedTo` says. */
  lemma {:induction false} CreditGroupsGet(b: ByType<Results>, ops: seq<Operation>, key: Operation -> string, ks: seq<string>, t: AssetType)
    ensures CreditGroups(b, ops, key, ks).Get(t) == Results(b.Get(t).dayTrade + CreditedTo(ops, key, ks, t), b.Get(t).swingTrade)
  {
    if ks != [] {
      CreditGroupsGet(b, ops, key, ks[..|ks| - 1], t);
    }
  }

  /** The record after the swing loop has visited the types `ts`. */
  function CreditTypes(b: ByType<Results>, porTipo: ByType<seq<Operation>>, ts: seq<AssetType>): ByType<Results>
  {
    if ts == [] then b
    else AddSwingTrade(CreditTypes(b, porTipo, ts[..|ts| - 1]), ts[|ts| - 1], Net(porTipo.Get(ts[|ts| - 1])))
  }

  /** Visiting distinct types adds to each visited type the net of its own list. */
  lemma {:induction false} CreditTypesGet(b: ByType<Results>, porTipo: ByType<seq<Operation>>, ts: seq<AssetType>, t: AssetType)
    requires Distinct(ts)
    ensures CreditTypes(b, porTipo, ts).Get(t)
         == Results(b.Get(t).dayTrade, b.Get(t).swingTrade + (if t in ts then Net(porTipo.Get(t)) else 0.0))
  {
    if ts != [] {
      var init := ts[..|ts| - 1];
      assert ts == init + [ts[|ts| - 1]];
      CreditTypesGet(b, porTipo, init, t);
    }
  }

  /** The day-trade loop: group `dayTrades` by asset; for each asset in insertion order,
      add its result to `acc` and to the `dayTrade` figure of the type of its first
      operation. */
  method CreditDayTrades(dayTrades: seq<Operation>, porTipo: ByType<Results>, acc: real)
    returns (porTipo': ByType<Results>, acc': real)
    ensures forall t :: porTipo'.Get(t) == Results(porTipo.Get(t).dayTrade + DayTradeCredit(dayTrades, t), porTipo.Get(t).swingTrade)
    ensures acc' == acc + Net(dayTrades)
  {
    var keys, porAtivo := GroupBy(dayTrades, Ativo);
    porTipo' := porTipo;
    acc' := acc;
    var j := 0;
    while j < |keys|
      invariant 0 <= j <= |keys|
      invariant porTipo' == CreditGroups(porTipo, dayTrades, Ativo, keys[..j])
      invariant acc' == acc + SumOverGroups(dayTrades, Ativo, keys[..j])
    {
      assert keys[..j + 1][..j] == keys[..j];
      GroupOfListedKey(dayTrades, Ativo, keys[j]);
      var opsAtivo := porAtivo[keys[j]];
      var tipoAtivo := opsAtivo[0].tipoAtivo;
      var valorCompras := Total(Where(opsAtivo, IsPurchase));
      var valorVendas := Total(Where(opsAtivo, IsSale));
      var resultadoAtivo := valorVendas - valorCompras;
      assert opsAtivo == Group(dayTrades, Ativo, keys[j]) && resultadoAtivo == Net(opsAtivo);
      assert CreditGroups(porTipo, dayTrades, Ativo, keys[..j + 1]) == AddDayTrade(porTipo', tipoAtivo, resultadoAtivo);
      acc' := acc' + resultadoAtivo;
      porTipo' := AddDayTrade(porTipo', tipoAtivo, resultadoAtivo);
      j := j + 1;
    }
    assert keys[..j] == keys;
    GroupedNetByKeys(dayTrades, Ativo);
    forall t ensures porTipo'.Get(t) == Results(porTipo.Get(t).dayTrade + DayTradeCredit(dayTrades, t), porTipo.Get(t).swingTrade) {
      CreditGroupsGet(porTipo, dayTrades, Ativo, keys, t);
    }
  }

  /** `ops.forEach(op => porTipo[op.tipoAtivo].push(op))` into a record whose six lists
      start empty. */
  method GroupByType(ops: seq<Operation>) returns (porTipo: ByType<seq<Operation>>)
    ensures forall t :: porTipo.Get(t) == Group(ops, TipoAtivo, t)
  {
    porTipo := ByType([], [], [], [], [], []);
    var i := 0;
    while i < |ops|
      invariant 0 <= i <= |ops|
      invariant forall t :: porTipo.Get(t) == Group(ops[..i], TipoAtivo, t)
    {
      var op := ops[i];
      assert ops[..i + 1] == ops[..i] + [op];
      forall t ensures Group(ops[..i + 1], TipoAtivo, t) == Group(ops[..i], TipoAtivo, t) + (if op.tipoAtivo == t then [op] else []) {
        GroupSnoc(ops[..i], op, TipoAtivo, t);
      }
      porTipo := porTipo.Set(op.tipoAtivo, porTipo.Get(op.tipoAtivo) + [op]);
      i := i + 1;
    }
    assert ops[..i] == ops;
  }

  /** The swing loop: push every operation into the list of its own type, then walk the
      six types in their fixed order, adding each type's result to `acc` and to that
      type's `swingTrade` figure. */
  method CreditSwingTrades(swingTrades: seq<Operation>, porTipo: ByType<Results>, acc: real)
    returns (porTipo': ByType<Results>, acc': real)
    ensures forall t :: porTipo'.Get(t) == Results(porTipo.Get(t).dayTrade, porTipo.Get(t).swingTrade + SwingCredit(swingTrades, t))
    ensures acc' == acc + Net(swingTrades)
  {
    var porTipoOps := GroupByType(swingTrades);
    porTipo' := porTipo;
    acc' := acc;
    var j := 0;
    while j < |AllTypes|
      invariant 0 <= j <= |AllTypes|
      invariant porTipo' == CreditTypes(porTipo, porTipoOps, AllTypes[..j])
      invariant acc' == acc + SumOverGroups(swingTrades, TipoAtivo, AllTypes[..j])
    {
      assert AllTypes[..j + 1][..j] == AllTypes[..j];
      var tipo := AllTypes[j];
      var opsSwing := porTipoOps.Get(tipo);
      var valorCompras := Total(Where(opsSwing, IsPurchase));
      var valorVendas := Total(Where(opsSwing, IsSale));
      var resultadoTipo := valorVendas - valorCompras;
      assert opsSwing == Group(swingTrades, TipoAtivo, tipo) && resultadoTipo == Net(opsSwing);
      assert CreditTypes(porTipo, porTipoOps, AllTypes[..j + 1]) == AddSwingTrade(porTipo', tipo, resultadoTipo);
      acc' := acc' + resultadoTipo;
      porTipo' := AddSwingTrade(porTipo', tipo, resultadoTipo);
      j := j + 1;
    }
    assert AllTypes[..j] == AllTypes;
    AllTypesExact();
    GroupedNet(swingTrades, TipoAtivo, AllTypes);
    forall t ensures porTipo'.Get(t) == Results(porTipo.Get(t).dayTrade, porTipo.Get(t).swingTrade + SwingCredit(swingTrades, t)) {
      CreditTypesGet(porTipo, porTipoOps, AllTypes, t);
    }
  }
}
