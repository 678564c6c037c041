/** The exchange catalogue of `stockService`: a fixed list of tickers, a case-insensitive
    membership test and the code filter of the quote lookup. */
module StockService {
  import opened Text
  import opened Constants

  /** `ativosB3`, in declaration order, one constant per source line. */
  const CatalogueLine0: seq<string> := ["ABEV3", "ALPA4", "AMER3", "ASAI3", "AZUL4", "B3SA3", "BBAS3", "BBDC3", "BBDC4", "BBSE3"]
  const CatalogueLine1: seq<string> := ["BEEF3", "BPAC11", "BRAP4", "BRFS3", "BRKM5", "BRML3", "CASH3", "CCRO3", "CIEL3", "CMIG4"]
  const CatalogueLine2: seq<string> := ["CMIN3", "COGN3", "CPFE3", "CPLE6", "CRFB3", "CSAN3", "CSNA3", "CVCB3", "CYRE3", "DXCO3"]
  const CatalogueLine3: seq<string> := ["EGIE3", "ELET3", "ELET6", "EMBR3", "ENBR3", "ENEV3", "ENGI11", "EQTL3", "EZTC3", "FLRY3"]
  const CatalogueLine4: seq<string> := ["GGBR4", "GOAU4", "GOLL4", "HAPV3", "HYPE3", "IGTI11", "IRBR3", "ITSA4", "ITUB4", "JBSS3"]
  const CatalogueLine5: seq<string> := ["JHSF3", "KLBN11", "LCAM3", "LWSA3", "MGLU3", "MRFG3", "MRVE3", "MULT3", "NTCO3", "PCAR3"]
  const CatalogueLine6: seq<string> := ["PETR3", "PETR4", "PETZ3", "POSI3", "PRIO3", "QUAL3", "RADL3", "RAIL3", "RAIZ4", "RDOR3"]
  const CatalogueLine7: seq<string> := ["RENT3", "RRRP3", "SANB11", "SBSP3", "SLCE3", "SMTO3", "SOMA3", "SUZB3", "TAEE11", "TIMS3"]
  const CatalogueLine8: seq<string> := ["TOTS3", "UGPA3", "USIM5", "VALE3", "VBBR3", "VIIA3", "VIVT3", "WEGE3", "YDUQ3"]

  const Catalogue: seq<string> :=
    CatalogueLine0 + CatalogueLine1 + CatalogueLine2 + CatalogueLine3 + CatalogueLine4 + CatalogueLine5 + CatalogueLine6 + CatalogueLine7 + CatalogueLine8

  /** `Array.prototype.includes` on a list of strings: a scan from the front. */
  predicate Listed(c: string, cat: seq<string>)
  {
    cat != [] && (cat[0] == c || Listed(c, cat[1..]))
  }

  /** The scan finds exactly the members of the list. */
  lemma {:induction false} ListedIff(c: string, cat: seq<string>)
    ensures Listed(c, cat) <==> c in cat
  {
    if cat != [] {
      ListedIff(c, cat[1..]);
      assert cat == [cat[0]] + cat[1..];
    }
  }

  /** `ativoExisteNaB3`: the upper-cased code is in the catalogue; blanks are not trimmed. */
  predicate ExistsOnB3(code: string)
  {
    Listed(Upper(code), Catalogue)
  }

  /** `getListaAtivosB3`: a copy of the catalogue, same entries in the same order. */
  function ListAssetsB3(): (r: seq<string>)
    ensures |r| == 89
    ensures forall i :: 0 <= i < |r| ==> r[i] == Catalogue[i]
  {
    Catalogue[..]
  }

  /** What every entry of the catalogue looks like: five or six characters of `[A-Z0-9]`,
      a letter first, no futures root, and none of the seven ETFs. */
  predicate IsCatalogueEntry(e: string)
  {
    (|e| == 5 || |e| == 6) && IsUpperLetter(e[0]) && !HasFuturesRoot(e) && e !in EtfCodes
    && forall i :: 0 <= i < |e| ==> IsWordChar(e[i])
  }

  lemma CatalogueLine0Entries()
    ensures forall e :: e in CatalogueLine0 ==> IsCatalogueEntry(e)
  {
  }

  lemma CatalogueLine1Entries()
    ensures forall e :: e in CatalogueLine1 ==> IsCatalogueEntry(e)
  {
  }

  lemma CatalogueLine2Entries()
    ensures forall e :: e in CatalogueLine2 ==> IsCatalogueEntry(e)
  {
  }

  lemma CatalogueLine3Entries()
    ensures forall e :: e in CatalogueLine3 ==> IsCatalogueEntry(e)
  {
  }

  lemma CatalogueLine4Entries()
    ensures forall e :: e in CatalogueLine4 ==> IsCatalogueEntry(e)
  {
  }

  lemma CatalogueLine5Entries()
    ensures forall e :: e in CatalogueLine5 ==> IsCatalogueEntry(e)
  {
  }

  lemma CatalogueLine6Entries()
    ensures forall e :: e in CatalogueLine6 ==> IsCatalogueEntry(e)
  {
  }

  lemma CatalogueLine7Entries()
    ensures forall e :: e in CatalogueLine7 ==> IsCatalogueEntry(e)
  {
  }

  lemma CatalogueLine8Entries()
    ensures forall e :: e in CatalogueLine8 ==> IsCatalogueEntry(e)
  {
  }

  /** No catalogue entry is an ETF, an option or a futures code, and each starts with a letter. */
  lemma CatalogueShapes()
    ensures forall e :: e in Catalogue ==>
      IsCatalogueEntry(e) && !IsOptionShape(e) && !IsFutureShape(e)
  {
    CatalogueLine0Entries();
    CatalogueLine1Entries();
    CatalogueLine2Entries();
    CatalogueLine3Entries();
    CatalogueLine4Entries();
    CatalogueLine5Entries();
    CatalogueLine6Entries();
    CatalogueLine7Entries();
    CatalogueLine8Entries();
  }

  /** Every code of `getListaAtivosB3` passes `ativoExisteNaB3`. */
  lemma ListedAssetsExist()
    ensures forall c :: c in ListAssetsB3() ==> ExistsOnB3(c)
  {
    CatalogueShapes();
    forall c | c in ListAssetsB3()
      ensures ExistsOnB3(c)
    {
      UpperOfWordChars(c);
      ListedIff(c, Catalogue);
    }
  }

  /** Upper case or lower case, a code is recognised alike. */
  lemma ExistsOnB3CaseInsensitive(code: string)
    ensures ExistsOnB3(code) <==> ExistsOnB3(Upper(code))
  {
    UpperIdempotent(code);
  }

  /** The check does not trim: a leading blank makes a listed code unknown. */
  lemma ExistsOnB3Examples()
    ensures ExistsOnB3("petr4")
    ensures !ExistsOnB3(" PETR4")
  {
    assert Upper("petr4") == "PETR4" == CatalogueLine6[1];
    ListedIff("PETR4", Catalogue);
    CatalogueShapes();
    assert Upper(" PETR4")[0] == ' ';
    ListedIff(Upper(" PETR4"), Catalogue);
  }

  /** The codes of `buscarCotacoes`: one per catalogued input code, in input order,
      upper-cased; none when no input code is catalogued. */
  function QuotedCodes(codes: seq<string>): (r: seq<string>)
    ensures |r| <= |codes|
    ensures forall c :: c in r ==> c in Catalogue
    ensures forall c :: c in codes && ExistsOnB3(c) ==> Upper(c) in r
    ensures r == [] <==> forall c :: c in codes ==> !ExistsOnB3(c)
  {
    if codes == [] then []
    else
      var rest := QuotedCodes(codes[1..]);
      assert forall c :: c in codes ==> c == codes[0] || c in codes[1..];
      ListedIff(Upper(codes[0]), Catalogue);
      if ExistsOnB3(codes[0]) then [Upper(codes[0])] + rest else rest
  }

  /** `toUpperCase` turns the dotless i into the ASCII letter I, so "ıtub4" is found. */
  lemma ExistsOnB3DotlessI()
    ensures ExistsOnB3("\U{0131}tub4")
  {
    assert Upper("\U{0131}tub4") == "ITUB4" == CatalogueLine4[8];
    ListedIff("ITUB4", Catalogue);
  }

  /** A single code is quoted, upper-cased, exactly when it is catalogued. */
  lemma QuotedCodesSingle(c: string)
    ensures QuotedCodes([c]) == if ExistsOnB3(c) then [Upper(c)] else []
  {
    assert [c][1..] == [];
  }

  /** One step of the filter: the first code is quoted, or dropped, ahead of the rest. */
  lemma QuotedCodesCons(codes: seq<string>)
    requires codes != []
    ensures QuotedCodes(codes) == QuotedHead(codes[0]) + QuotedCodes(codes[1..])
  {
  }

  /** What the filter contributes for one code. */
  function QuotedHead(c: string): seq<string>
  {
    if ExistsOnB3(c) then [Upper(c)] else []
  }

  /** Concatenation is associative. */
  lemma ConcatAssoc<T>(x: seq<T>, y: seq<T>, z: seq<T>)
    ensures x + (y + z) == (x + y) + z
  {
  }

  /** The filter step on a concatenation whose first part is not empty. */
  lemma QuotedCodesConsAppend(a: seq<string>, b: seq<string>)
    requires a != []
    ensures QuotedCodes(a + b) == QuotedHead(a[0]) + QuotedCodes(a[1..] + b)
  {
    assert (a + b)[0] == a[0];
    assert (a + b)[1..] == a[1..] + b;
    QuotedCodesCons(a + b);
  }

  /** The filter keeps input order and multiplicity: quoting a concatenation quotes each
      part in turn. */
  lemma {:induction false} QuotedCodesAppend(a: seq<string>, b: seq<string>)
    ensures QuotedCodes(a + b) == QuotedCodes(a) + QuotedCodes(b)
  {
    if a == [] {
      assert a + b == b;
    } else {
      var h := QuotedHead(a[0]);
      QuotedCodesCons(a);
      QuotedCodesConsAppend(a, b);
      QuotedCodesAppend(a[1..], b);
      ConcatAssoc(h, QuotedCodes(a[1..]), QuotedCodes(b));
    }
  }

  /** Repeating a catalogued code quotes it twice, in the order given; an unknown code
      between them is dropped. */
  lemma QuotedCodesExample()
    ensures QuotedCodes(["petr4", " PETR4", "petr4"]) == ["PETR4", "PETR4"]
  {
    var p, u := ["petr4"], [" PETR4"];
    calc {
      QuotedCodes(["petr4", " PETR4", "petr4"]);
    == { assert ["petr4", " PETR4", "petr4"] == p + (u + p); }
      QuotedCodes(p + (u + p));
    == { QuotedCodesAppend(p, u + p); QuotedCodesAppend(u, p); }
      QuotedCodes(p) + (QuotedCodes(u) + QuotedCodes(p));
    == { ExistsOnB3Examples(); QuotedCodesSingle("petr4"); QuotedCodesSingle(" PETR4");
         assert Upper("petr4") == "PETR4"; }
      ["PETR4"] + ([] + ["PETR4"]);
    ==
      ["PETR4", "PETR4"];
    }
  }
}
