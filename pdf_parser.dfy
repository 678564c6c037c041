/** The deterministic part of `parsePdfCorretagem`: the note number taken from the file name,
    the fallback extraction that stops when no asset is found, and the assembly of the note
    (valid operations, totals, fees) and of its extraction summary. */
module PdfParser {
  import opened Wrappers
  import opened Money
  import opened Text
  import opened AssetTypes
  import opened Operations
  import opened Grouping
  import opened BlockExtraction
  import opened PdfExtraction
  import OperationsUtils
  import AssetExtraction

  /** `file.name.replace(".pdf", "")`: a string pattern replaces its first occurrence only. */
  function NoteNumber(name: string): (r: string)
    ensures IndexOf(name, ".pdf", 0) == -1 ==> r == name
    ensures IndexOf(name, ".pdf", 0) != -1 ==> |r| + 4 == |name|
  {
    var i := IndexOf(name, ".pdf", 0);
    if i == -1 then name else name[..i] + name[i + 4..]
  }

  /** ".pdf" is removed exactly when the name contains it, and putting it back at the first
      occurrence gives the file name again. */
  lemma NoteNumberRestores(name: string)
    ensures Contains(name, ".pdf") <==> IndexOf(name, ".pdf", 0) != -1
    ensures var i := IndexOf(name, ".pdf", 0);
      i != -1 ==> 0 <= i <= |NoteNumber(name)| && name == NoteNumber(name)[..i] + ".pdf" + NoteNumber(name)[i..]
  {
    var i := IndexOf(name, ".pdf", 0);
    var r := NoteNumber(name);
    if i != -1 {
      assert r[..i] == name[..i];
      assert r[i..] == name[i + 4..];
      assert name == name[..i] + name[i..i + 4] + name[i + 4..];
    }
    if Contains(name, ".pdf") {
      var p: nat :| p <= |name| && OccursAt(name, ".pdf", p);
      IndexOfFirst(name, ".pdf", 0);
    }
  }

  lemma NoteNumberExamples()
    ensures NoteNumber("n1.pdf") == "n1"
    ensures NoteNumber("a.pdf.pdf") == "a.pdf"
  {
    var a, b := "n1.pdf", "a.pdf.pdf";
    assert a[0..4][0] != '.' && a[1..5][0] != '.' && a[2..6] == ".pdf";
    assert IndexOf(a, ".pdf", 0) == 2;
    assert b[0..4][0] != '.' && b[1..5] == ".pdf";
    assert IndexOf(b, ".pdf", 0) == 1;
  }

  /** The message of the error thrown when the fallback finds no asset. */
  const NoAssetsError: string := "Nenhum ativo encontrado no PDF! A nota pode estar ileg\U{00ED}vel ou o layout \U{00E9} diferente."

  /** The fallback extraction: the assets found in the text, or the error when there are none. */
  function FallbackAssets(text: string): (r: Result<Extraction, string>)
    ensures r.Failure? <==> Extract(text).ativos == []
    ensures r.Success? ==> r.value == Extract(text) && r.value.emBlocoValido
  {
    var e := Extract(text);
    ExtractAssets(text);
    if e.ativos == [] then Failure(NoAssetsError) else Success(e)
  }

  predicate IsValid(op: Operation) { op.emBlocoValido }

  /** `ops.reduce((acc, op) => acc + op.corretagem, 0)`. */
  function TotalBrokerage(ops: seq<Operation>): real
  {
    if ops == [] then 0.0 else TotalBrokerage(ops[..|ops| - 1]) + ops[|ops| - 1].corretagem
  }

  /** `taxas`. */
  datatype Fees = Fees(corretagem: real, liquidacao: real, registro: real, total: real)

  /** Settlement is 0.025% and registration 0.005% of the traded value, each rounded to
      cents; the total adds them to the brokerage and is rounded again. */
  function NoteFees(valorTotal: real, corretagem: real): (r: Fees)
    ensures r.corretagem == corretagem
    ensures valorTotal * 0.00025 - 0.005 <= r.liquidacao <= valorTotal * 0.00025 + 0.005
    ensures valorTotal * 0.00005 - 0.005 <= r.registro <= valorTotal * 0.00005 + 0.005
    ensures corretagem + valorTotal * 0.0003 - 0.015 <= r.total <= corretagem + valorTotal * 0.0003 + 0.015
  {
    var liquidacao := Round2(valorTotal * 0.00025);
    var registro := Round2(valorTotal * 0.00005);
    Fees(corretagem, liquidacao, registro, Round2(corretagem + liquidacao + registro))
  }

  /** No fee is negative when the traded value and the brokerage are not. */
  lemma NoteFeesNonNegative(valorTotal: real, corretagem: real)
    requires valorTotal >= 0.0 && corretagem >= 0.0
    ensures var f := NoteFees(valorTotal, corretagem);
      f.liquidacao >= 0.0 && f.registro >= 0.0 && f.total >= 0.0
  {
    Round2NonNegative(valorTotal * 0.00025);
    Round2NonNegative(valorTotal * 0.00005);
    var f := NoteFees(valorTotal, corretagem);
    Round2NonNegative(corretagem + f.liquidacao + f.registro);
  }

  /** One entry of `tiposAtivos`. */
  datatype TypeCount = TypeCount(tipo: AssetType, quantidade: nat)

  /** One step of the counting `reduce`: the entry for `t` is created at 0 when missing and
      then incremented; entries keep the order in which their types were first seen. */
  function Bump(acc: seq<TypeCount>, t: AssetType): seq<TypeCount>
  {
    if acc == [] then [TypeCount(t, 1)]
    else if acc[0].tipo == t then [TypeCount(t, acc[0].quantidade + 1)] + acc[1..]
    else [acc[0]] + Bump(acc[1..], t)
  }

  /** `Object.entries(ops.reduce(...))`: how many operations there are of each type. */
  function CountByType(ops: seq<Operation>): seq<TypeCount>
  {
    if ops == [] then [] else Bump(CountByType(ops[..|ops| - 1]), ops[|ops| - 1].tipoAtivo)
  }

  function CountSum(cs: seq<TypeCount>): nat
  {
    if cs == [] then 0 else cs[0].quantidade + CountSum(cs[1..])
  }

  /** The count listed for `t`, or 0 when `t` is not listed. */
  function CountOf(cs: seq<TypeCount>, t: AssetType): nat
  {
    if cs == [] then 0 else (if cs[0].tipo == t then cs[0].quantidade else 0) + CountOf(cs[1..], t)
  }

  /** Every count is positive and no type is listed twice. */
  predicate WellFormedCounts(cs: seq<TypeCount>)
  {
    (forall i :: 0 <= i < |cs| ==> cs[i].quantidade > 0) &&
    (forall i, j :: 0 <= i < j < |cs| ==> cs[i].tipo != cs[j].tipo)
  }

  lemma {:induction false} BumpSum(acc: seq<TypeCount>, t: AssetType)
    ensures CountSum(Bump(acc, t)) == CountSum(acc) + 1
  {
    if acc != [] && acc[0].tipo != t {
      BumpSum(acc[1..], t);
    }
  }

  lemma {:induction false} BumpCountOf(acc: seq<TypeCount>, t: AssetType, u: AssetType)
    requires WellFormedCounts(acc)
    ensures CountOf(Bump(acc, t), u) == CountOf(acc, u) + (if u == t then 1 else 0)
  {
    if acc != [] {
      if acc[0].tipo != t {
        BumpCountOf(acc[1..], t, u);
      } else {
        TypesOfTail(acc);
        CountOfAbsent(acc[1..], t);
      }
    }
  }

  lemma {:induction false} BumpTypes(acc: seq<TypeCount>, t: AssetType)
    ensures TypesOf(Bump(acc, t)) == TypesOf(acc) + {t}
  {
    if acc == [] {
      TypesOfCons(Bump(acc, t));
      assert Bump(acc, t)[1..] == [];
    } else {
      TypesOfCons(acc);
      if acc[0].tipo != t {
        BumpTypes(acc[1..], t);
        TypesOfCons(Bump(acc, t));
      } else {
        TypesOfCons(Bump(acc, t));
      }
    }
  }

  lemma {:induction false} BumpWellFormed(acc: seq<TypeCount>, t: AssetType)
    requires WellFormedCounts(acc)
    ensures WellFormedCounts(Bump(acc, t))
  {
    if acc != [] {
      TypesOfTail(acc);
      var r := Bump(acc, t);
      if acc[0].tipo != t {
        BumpWellFormed(acc[1..], t);
        BumpTypes(acc[1..], t);
        assert r[1..] == Bump(acc[1..], t);
      } else {
        assert r[1..] == acc[1..];
      }
      ConsWellFormed(r);
    }
  }

  /** The types of a non-empty list are its first type and those of its tail. */
  lemma TypesOfCons(cs: seq<TypeCount>)
    requires cs != []
    ensures TypesOf(cs) == {cs[0].tipo} + TypesOf(cs[1..])
  {
    forall u | u in TypesOf(cs) ensures u in {cs[0].tipo} + TypesOf(cs[1..]) {
      var i :| 0 <= i < |cs| && cs[i].tipo == u;
      if i > 0 {
        assert cs[1..][i - 1].tipo == u;
      }
    }
    forall u | u in TypesOf(cs[1..]) ensures u in TypesOf(cs) {
      var i :| 0 <= i < |cs[1..]| && cs[1..][i].tipo == u;
      assert cs[i + 1].tipo == u;
    }
  }

  /** In a well-formed list the first type does not recur, and the tail is well-formed. */
  lemma TypesOfTail(cs: seq<TypeCount>)
    requires cs != [] && WellFormedCounts(cs)
    ensures cs[0].tipo !in TypesOf(cs[1..]) && WellFormedCounts(cs[1..])
  {
    forall u | u in TypesOf(cs[1..])
      ensures u != cs[0].tipo
    {
      var i :| 0 <= i < |cs[1..]| && cs[1..][i].tipo == u;
      assert cs[1..][i] == cs[i + 1];
    }
  }

  /** A list is well-formed when its head is positive and new and its tail is well-formed. */
  lemma ConsWellFormed(cs: seq<TypeCount>)
    requires cs != [] && cs[0].quantidade > 0 && WellFormedCounts(cs[1..]) && cs[0].tipo !in TypesOf(cs[1..])
    ensures WellFormedCounts(cs)
  {
    forall i, j | 0 <= i < j < |cs|
      ensures cs[i].tipo != cs[j].tipo
    {
      assert cs[j] == cs[1..][j - 1];
      if i > 0 {
        assert cs[i] == cs[1..][i - 1];
      }
    }
    forall i | 0 <= i < |cs|
      ensures cs[i].quantidade > 0
    {
      if i > 0 {
        assert cs[i] == cs[1..][i - 1];
      }
    }
  }

  function TypesOf(cs: seq<TypeCount>): set<AssetType>
  {
    set i | 0 <= i < |cs| :: cs[i].tipo
  }

  lemma {:induction false} CountOfAbsent(cs: seq<TypeCount>, t: AssetType)
    requires t !in TypesOf(cs)
    ensures CountOf(cs, t) == 0
  {
    if cs != [] {
      TypesOfCons(cs);
      CountOfAbsent(cs[1..], t);
    }
  }

  /** The counts are positive, list each type once, add up to the number of operations,
      and give for every type the number of operations of that type. */
  lemma {:induction false} CountByTypeExact(ops: seq<Operation>)
    ensures WellFormedCounts(CountByType(ops))
    ensures CountSum(CountByType(ops)) == |ops|
    ensures forall t :: CountOf(CountByType(ops), t) == |Group(ops, TipoAtivo, t)|
  {
    if ops != [] {
      var init := ops[..|ops| - 1];
      var x := ops[|ops| - 1];
      assert ops == init + [x];
      CountByTypeExact(init);
      BumpSum(CountByType(init), x.tipoAtivo);
      BumpWellFormed(CountByType(init), x.tipoAtivo);
      forall t
        ensures CountOf(CountByType(ops), t) == |Group(ops, TipoAtivo, t)|
      {
        BumpCountOf(CountByType(init), x.tipoAtivo, t);
        GroupSnoc(init, x, TipoAtivo, t);
      }
    }
  }

  /** `notaCorretagem`; `resultadosPorTipo` is not part of it (see the README). */
  datatype Note = Note(
    numero: string,
    data: string,
    corretora: string,
    valorTotal: real,
    operacoes: seq<Operation>,
    resultadoDayTrade: real,
    resultadoSwingTrade: real,
    mes: string,
    taxas: Fees)

  /** `extraInfo`, without the random `divergencias`. */
  datatype ExtractionSummary = ExtractionSummary(
    success: bool,
    extraction: ExtractionMethod,
    ativos: seq<string>,
    tiposAtivos: seq<TypeCount>,
    totalAtivos: nat,
    blocoEncontrado: bool,
    usoExtracaoDireta: bool)

  datatype Parsed = Parsed(notaCorretagem: Note, extraInfo: ExtractionSummary)

  /** The note and the summary built from the operations: only valid operations are kept,
      the totals and fees are taken over them, and the results are those given. */
  function AssembleNote(numero: string, data: string, mes: string, emBlocoValido: bool,
                        metodo: ExtractionMethod, ativos: seq<CodeInfo>, operacoes: seq<Operation>,
                        resultadoDayTrade: real, resultadoSwingTrade: real): (r: Parsed)
    ensures r.extraInfo.totalAtivos == |r.notaCorretagem.operacoes| <= |operacoes|
    ensures r.extraInfo.blocoEncontrado == emBlocoValido && !r.extraInfo.usoExtracaoDireta
  {
    var operacoesValidas := Where(operacoes, IsValid);
    var valorTotal := Total(operacoesValidas);
    var nota := Note(numero, data, "XP Investimentos", valorTotal, operacoesValidas,
                     resultadoDayTrade, resultadoSwingTrade, mes,
                     NoteFees(valorTotal, TotalBrokerage(operacoesValidas)));
    var info := ExtractionSummary(emBlocoValido && |operacoesValidas| > 0, metodo, AssetExtraction.CodesOf(ativos),
                                  CountByType(operacoesValidas), |operacoesValidas|, emBlocoValido, false);
    Parsed(nota, info)
  }

  /** The note holds exactly the valid operations; the import succeeds exactly when a block
      was found and some operation is valid; the type counts are positive, list each type
      once and add up to the number of valid operations. */
  lemma AssembleNoteExact(numero: string, data: string, mes: string, emBlocoValido: bool,
                          metodo: ExtractionMethod, ativos: seq<CodeInfo>, operacoes: seq<Operation>,
                          resultadoDayTrade: real, resultadoSwingTrade: real)
    ensures var r := AssembleNote(numero, data, mes, emBlocoValido, metodo, ativos, operacoes,
                                  resultadoDayTrade, resultadoSwingTrade);
      (forall op :: op in r.notaCorretagem.operacoes <==> op in operacoes && op.emBlocoValido) &&
      (r.extraInfo.success <==> emBlocoValido && exists op :: op in operacoes && op.emBlocoValido) &&
      WellFormedCounts(r.extraInfo.tiposAtivos) &&
      CountSum(r.extraInfo.tiposAtivos) == r.extraInfo.totalAtivos
  {
    var valid := Where(operacoes, IsValid);
    WhereExact(operacoes, IsValid);
    CountByTypeExact(valid);
    if exists op :: op in operacoes && op.emBlocoValido {
      var op :| op in operacoes && op.emBlocoValido;
      assert op in valid;
    }
  }

  /** `parsePdfCorretagem` without its clock, its file and its random operations: the text
      comes from the demo extractor, the fallback stops when it finds no asset, and
      otherwise the generated operations (a parameter) are assembled into a note whose
      results are the flat-rate ones of `calcularResultadosPorTipo`. */
  method ParsePdfCorretagem(fileName: string, dataOperacao: string, mesOperacao: string,
                            operacoesGeradas: seq<Operation>) returns (r: Result<Parsed, string>)
    ensures r.Failure? <==> Extract(ExtractPdfText().text).ativos == []
    ensures r.Success? ==> r.value == AssembleNote(NoteNumber(fileName), dataOperacao, mesOperacao,
      Extract(ExtractPdfText().text).emBlocoValido, ExtractPdfText().extraction,
      Extract(ExtractPdfText().text).ativos, operacoesGeradas,
      Round2(Net(Where(Where(operacoesGeradas, IsValid), IsDayTrade))),
      Round2(Net(Where(Where(operacoesGeradas, IsValid), IsSwingTrade))))
  {
    var numeroNota := NoteNumber(fileName);
    var pdf := ExtractPdfText();
    var resultadoExtracao := FallbackAssets(pdf.text);
    if resultadoExtracao.Failure? {
      return Failure(resultadoExtracao.error);
    }
    var extracao := resultadoExtracao.value;
    var operacoesValidas := Where(operacoesGeradas, IsValid);
    var resultadoDayTrade, resultadoSwingTrade := OperationsUtils.ResultsByKind(operacoesValidas);
    r := Success(AssembleNote(numeroNota, dataOperacao, mesOperacao, extracao.emBlocoValido,
                              pdf.extraction, extracao.ativos, operacoesGeradas,
                              resultadoDayTrade, resultadoSwingTrade));
  }
}
