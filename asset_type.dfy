/** `determinarTipoAtivo`: the priority-ordered classification of a ticker. */
module AssetTypes {
  import opened Text
  import opened Constants

  /** `TipoAtivo`. */
  datatype AssetType = Acao | Fii | Etf | Opcao | Futuro | Desconhecido

  /** `{codigo, tipo}`: a ticker and the type it was found or classified as. */
  datatype CodeInfo = CodeInfo(codigo: string, tipo: AssetType)

  /** The key by which the extractors remove duplicates. */
  function Codigo(c: CodeInfo): string
  {
    c.codigo
  }

  /** `ativo.toUpperCase().trim()`. */
  function Normalize(code: string): string
  {
    Trim(Upper(code))
  }

  /** Normalising a normalised code changes nothing. */
  lemma NormalizeIdempotent(code: string)
    ensures Normalize(Normalize(code)) == Normalize(code)
  {
    var u := Upper(code);
    UpperIdempotent(code);
    TrimUpperCommute(u);
    assert Upper(Trim(u)) == Trim(u);
    TrimIdempotent(u);
  }

  /** The tests of the classifier, in their fixed order, on an already normalised code:
      FII shape outside the ETF list, the ETF list, option shape, futures shape, stock
      shape; anything else is unknown. */
  function Classify(n: string): (t: AssetType)
    ensures t == Etf <==> n in EtfCodes
    ensures t == Futuro ==> IsFutureShape(n)
    ensures t == Acao ==> IsStockShape(n) && !IsFutureShape(n)
  {
    if IsFiiShape(n) && n !in EtfCodes then Fii
    else if n in EtfCodes then Etf
    else if IsOptionShape(n) then Opcao
    else if IsFutureShape(n) then Futuro
    else if IsStockShape(n) then Acao
    else Desconhecido
  }

  /** `determinarTipoAtivo(ativo)`. */
  function DetermineAssetType(code: string): AssetType
  {
    Classify(Normalize(code))
  }

  /** The result depends only on the upper-cased, trimmed code. */
  lemma DetermineAssetTypeNormalized(code: string)
    ensures DetermineAssetType(code) == DetermineAssetType(Normalize(code))
  {
    NormalizeIdempotent(code);
  }

  /** A four-letter code ending in 11 outside the ETF list is an FII, and only such a code. */
  lemma FiiRule(n: string)
    ensures Classify(n) == Fii <==> IsFiiShape(n) && n !in EtfCodes
  {
    if Classify(n) == Fii {
      EtfCodesAreFiiShaped();
    }
  }

  /** The seven ETFs are ETFs and never FIIs, though they have the FII shape. */
  lemma EtfRule(n: string)
    requires n in EtfCodes
    ensures Classify(n) == Etf && IsFiiShape(n)
  {
    EtfCodesAreFiiShaped();
  }

  /** Five letters and two or three digits make an option, and only such a code. */
  lemma OptionRule(n: string)
    ensures Classify(n) == Opcao <==> IsOptionShape(n)
  {
    if IsOptionShape(n) {
      EtfCodesAreFiiShaped();
      assert n !in EtfCodes;
    }
  }

  /** A futures code is a future unless it also has the FII shape (a two-digit year of 11). */
  lemma FutureRule(n: string)
    requires IsFutureShape(n) && !IsFiiShape(n)
    ensures Classify(n) == Futuro
  {
    EtfCodesAreFiiShaped();
    assert !IsUpperLetter(n[4]);
  }

  /** Four letters and 3 or 4 make a stock when the code is not also a futures code. */
  lemma StockRule(n: string)
    requires IsStockShape(n) && !IsFutureShape(n)
    ensures Classify(n) == Acao
  {
    EtfCodesAreFiiShaped();
  }

  /** Examples of the priority order: WINJ3 has both the futures and the stock shape and
      is a future; WINZ11 has both the futures and the FII shape and is an FII; BRKM5 and
      CPLE6 end in 5 or 6 and are unknown. */
  lemma ClassificationExamples()
    ensures Classify("WINJ3") == Futuro
    ensures Classify("WINZ11") == Fii
    ensures Classify("BRKM5") == Desconhecido
    ensures Classify("CPLE6") == Desconhecido
  {
    EtfCodesAreFiiShaped();
    assert IsFutureShape("WINJ3");
    assert IsFiiShape("WINZ11");
  }
}
