/** `extrairAtivos` of utils/assetExtraction.ts: the codes of the operations that come from
    a valid block and are listed, each with the type of its first such operation, without
    duplicate codes. */
module AssetExtraction {
  import opened AssetTypes
  import opened Dedup
  import opened Operations
  import opened OperationsUtils

  /** `operacoesValidas.map(op => ({codigo: corrigirNomeAtivo(op.ativo), tipo: op.tipoAtivo}))`;
      the code correction is a parameter. */
  function TypedCodes(ops: seq<Operation>, correct: string -> string): (r: seq<CodeInfo>)
    ensures |r| == |ops|
    ensures forall i :: 0 <= i < |ops| ==> r[i] == CodeInfo(correct(ops[i].ativo), ops[i].tipoAtivo)
  {
    seq(|ops|, i requires 0 <= i < |ops| => CodeInfo(correct(ops[i].ativo), ops[i].tipoAtivo))
  }

  /** What the extraction returns. */
  function ExtractTypedCodes(operacoes: seq<Operation>, correct: string -> string): (r: seq<CodeInfo>)
    ensures |r| <= |Where(operacoes, Contributes)|
  {
    KeepFirst(TypedCodes(Where(operacoes, Contributes), correct), Codigo)
  }

  /** `extrairAtivos`: filter, map, then push each entry whose code is not yet among those
      kept. */
  method ExtractAssets(operacoes: seq<Operation>, correct: string -> string) returns (ativosUnicos: seq<CodeInfo>)
    ensures ativosUnicos == ExtractTypedCodes(operacoes, correct)
  {
    var operacoesValidas := Where(operacoes, Contributes);
    var ativosMapeados := TypedCodes(operacoesValidas, correct);
    ativosUnicos := [];
    var i := 0;
    while i < |ativosMapeados|
      invariant 0 <= i <= |ativosMapeados|
      invariant ativosUnicos == KeepFirst(ativosMapeados[..i], Codigo)
    {
      var ativo := ativosMapeados[i];
      assert ativosMapeados[..i + 1][..i] == ativosMapeados[..i];
      if !HasKey(ativosUnicos, Codigo, ativo.codigo) {
        ativosUnicos := ativosUnicos + [ativo];
      }
      i := i + 1;
    }
    assert ativosMapeados[..i] == ativosMapeados;
  }

  /** Every entry comes from a contributing operation, every contributing operation's
      corrected code is listed, and no code is listed twice. */
  lemma ExtractTypedCodesExact(operacoes: seq<Operation>, correct: string -> string)
    ensures forall x :: x in ExtractTypedCodes(operacoes, correct) ==>
      exists op :: op in operacoes && Contributes(op) && x == CodeInfo(correct(op.ativo), op.tipoAtivo)
    ensures forall op :: op in operacoes && Contributes(op) ==>
      HasKey(ExtractTypedCodes(operacoes, correct), Codigo, correct(op.ativo))
    ensures DistinctKeys(ExtractTypedCodes(operacoes, correct), Codigo)
  {
    var valid := Where(operacoes, Contributes);
    var typed := TypedCodes(valid, correct);
    KeepFirstSound(typed, Codigo);
    WhereExact(operacoes, Contributes);
    forall x | x in ExtractTypedCodes(operacoes, correct)
      ensures exists op :: op in operacoes && Contributes(op) && x == CodeInfo(correct(op.ativo), op.tipoAtivo)
    {
      var i :| 0 <= i < |typed| && typed[i] == x;
      assert valid[i] in valid;
    }
    forall op | op in operacoes && Contributes(op)
      ensures HasKey(ExtractTypedCodes(operacoes, correct), Codigo, correct(op.ativo))
    {
      var i :| 0 <= i < |valid| && valid[i] == op;
      assert Codigo(typed[i]) == correct(op.ativo);
    }
  }

  /** The type kept for a code is that of the first contributing operation with that code:
      later operations never overwrite it. */
  lemma ExtractTypedCodesFirstWins(operacoes: seq<Operation>, correct: string -> string, x: CodeInfo)
    requires x in ExtractTypedCodes(operacoes, correct)
    ensures var valid := Where(operacoes, Contributes);
      var typed := TypedCodes(valid, correct);
      HasKey(typed, Codigo, x.codigo) && x.tipo == valid[FirstIndex(typed, Codigo, x.codigo)].tipoAtivo
  {
    KeepFirstIsFirst(TypedCodes(Where(operacoes, Contributes), correct), Codigo);
  }

  /** The codes of a list of entries. */
  function CodesOf(xs: seq<CodeInfo>): (r: seq<string>)
    ensures |r| == |xs|
    ensures forall i :: 0 <= i < |xs| ==> r[i] == xs[i].codigo
  {
    seq(|xs|, i requires 0 <= i < |xs| => xs[i].codigo)
  }

  lemma HasKeyOfCodes(xs: seq<CodeInfo>, c: string)
    ensures HasKey(CodesOf(xs), Code, c) <==> HasKey(xs, Codigo, c)
  {
    if HasKey(xs, Codigo, c) {
      var i :| 0 <= i < |xs| && Codigo(xs[i]) == c;
      assert Code(CodesOf(xs)[i]) == c;
    }
  }

  /** Dropping repeated entries and then taking the codes is dropping repeated codes. */
  lemma {:induction false} CodesOfKeepFirst(xs: seq<CodeInfo>)
    ensures CodesOf(KeepFirst(xs, Codigo)) == KeepFirst(CodesOf(xs), Code)
  {
    if xs != [] {
      var init := xs[..|xs| - 1];
      var x := xs[|xs| - 1];
      assert CodesOf(xs)[..|xs| - 1] == CodesOf(init);
      CodesOfKeepFirst(init);
      var acc := KeepFirst(init, Codigo);
      HasKeyOfCodes(acc, x.codigo);
      if !HasKey(acc, Codigo, x.codigo) {
        assert CodesOf(acc + [x]) == CodesOf(acc) + [x.codigo];
      }
    }
  }

  /** The typed extraction lists the same codes, in the same order, as `extrairAtivos` of
      operationsUtils.ts. */
  lemma SameCodesAsUntyped(operacoes: seq<Operation>, correct: string -> string)
    ensures CodesOf(ExtractTypedCodes(operacoes, correct)) == ExtractCodes(operacoes, correct)
  {
    var valid := Where(operacoes, Contributes);
    CodesOfKeepFirst(TypedCodes(valid, correct));
    assert CodesOf(TypedCodes(valid, correct)) == CorrectedCodes(valid, correct);
  }
}
