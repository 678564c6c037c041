/** The section markers of a brokerage note and the five ticker patterns used to scan it.
    Each pattern is modelled by `MatchLen`, the length of the match that a regular
    expression with the global flag finds when it is tried at one offset, and `Scan`
    reproduces `matchAll`: after a match it resumes at the match end, after a failure it
    moves on by one character. */
module Constants {
  import opened Text

  /** `BLOCOS_VALIDOS`, in declaration order. */
  const Markers: seq<string> := [
    "NEGOCIA\U{00C7}\U{00C3}O",
    "MERCADO",
    "ESPECIFICA\U{00C7}\U{00C3}O DO T\U{00CD}TULO",
    "RESUMO DAS OPERA\U{00C7}\U{00D5}ES",
    "T\U{00CD}TULOS NEGOCIADOS",
    "COMPRAS",
    "VENDAS",
    "NOTA DE CORRETAGEM",
    "BOLSA DE VALORES",
    "OP\U{00C7}\U{00C3}O DE COMPRA",
    "OP\U{00C7}\U{00C3}O DE VENDA",
    "NEG\U{00D3}CIOS REALIZADOS"
  ]

  /** The seven exchange-traded funds, in the order of `REGEX_ETFS`. */
  const EtfCodes: seq<string> := ["BOVA11", "IVVB11", "SMAL11", "HASH11", "ECOO11", "BBSD11", "XINA11"]

  /** The month letters of futures contracts, `[FGHJKMNQUVXZ]`. */
  const MonthLetters: set<char> := {'F', 'G', 'H', 'J', 'K', 'M', 'N', 'Q', 'U', 'V', 'X', 'Z'}

  predicate UpperLetters(t: string, lo: nat, hi: nat)
    requires lo <= hi <= |t|
  {
    forall k :: lo <= k < hi ==> IsUpperLetter(t[k])
  }

  predicate Digits(t: string, lo: nat, hi: nat)
    requires lo <= hi <= |t|
  {
    forall k :: lo <= k < hi ==> IsDigit(t[k])
  }

  /** `[A-Z]{4}[3-4]` over the whole of `t`. */
  predicate IsStockShape(t: string)
  {
    |t| == 5 && UpperLetters(t, 0, 4) && (t[4] == '3' || t[4] == '4')
  }

  /** `[A-Z]{4}11` over the whole of `t`. */
  predicate IsFiiShape(t: string)
  {
    |t| == 6 && UpperLetters(t, 0, 4) && t[4] == '1' && t[5] == '1'
  }

  /** `[A-Z]{4}[A-Z][0-9]{2,3}` over the whole of `t`. */
  predicate IsOptionShape(t: string)
  {
    (|t| == 7 || |t| == 8) && UpperLetters(t, 0, 5) && Digits(t, 5, |t|)
  }

  /** `t` starts with WIN, WDO or IND. */
  predicate HasFuturesRoot(t: string)
  {
    |t| >= 3 &&
    ((t[0] == 'W' && t[1] == 'I' && t[2] == 'N') || (t[0] == 'W' && t[1] == 'D' && t[2] == 'O')
     || (t[0] == 'I' && t[1] == 'N' && t[2] == 'D'))
  }

  /** `(WIN|WDO|IND)[FGHJKMNQUVXZ][0-9]{1,2}` over the whole of `t`. */
  predicate IsFutureShape(t: string)
  {
    (|t| == 5 || |t| == 6) && HasFuturesRoot(t) && t[3] in MonthLetters && Digits(t, 4, |t|)
  }

  /** The five ticker patterns. */
  datatype Pattern = Acoes | Fiis | Etfs | Opcoes | MiniContratos

  /** What a match of pattern `p` looks like. */
  predicate ShapeOf(p: Pattern, t: string)
  {
    match p
    case Acoes => IsStockShape(t)
    case Fiis => IsFiiShape(t)
    case Etfs => t in EtfCodes
    case Opcoes => IsOptionShape(t)
    case MiniContratos => IsFutureShape(t)
  }

  /** The negative look-ahead `(?![A-Z0-9])` tried at offset `j`. */
  predicate NotFollowedByWord(s: string, j: nat)
  {
    j >= |s| || !IsWordChar(s[j])
  }

  /** `t` is a match of length `n` of shape `p` at offset `i` of `s`. */
  predicate ShapeAt(p: Pattern, s: string, i: nat, n: nat)
  {
    i + n <= |s| && ShapeOf(p, s[i..i + n])
  }

  /** The length of the match of `p` that starts at offset `i` of `s`, 0 when there is none.
      The quantifier `{2,3}` of the option pattern is greedy and backtracks to two digits
      when the look-ahead fails after three; `{1,2}` of the futures pattern has no
      look-ahead, so it takes two digits whenever there are two. */
  function MatchLen(p: Pattern, s: string, i: nat): (n: nat)
    ensures n == 0 || (5 <= n <= 8 && ShapeAt(p, s, i, n))
  {
    match p
    case Acoes => if ShapeAt(Acoes, s, i, 5) && NotFollowedByWord(s, i + 5) then 5 else 0
    case Fiis => if ShapeAt(Fiis, s, i, 6) && NotFollowedByWord(s, i + 6) then 6 else 0
    case Etfs => if ShapeAt(Etfs, s, i, 6) then 6 else 0
    case Opcoes =>
      if ShapeAt(Opcoes, s, i, 8) && NotFollowedByWord(s, i + 8) then 8
      else if ShapeAt(Opcoes, s, i, 7) && NotFollowedByWord(s, i + 7) then 7
      else 0
    case MiniContratos =>
      if ShapeAt(MiniContratos, s, i, 6) then 6
      else if ShapeAt(MiniContratos, s, i, 5) then 5
      else 0
  }

  /** One element of `matchAll`: where the match starts and what it matched. */
  datatype Hit = Hit(pos: nat, text: string)

  /** `[...s.matchAll(p)]` restricted to matches starting at or after `from`. */
  function Scan(p: Pattern, s: string, from: nat): (hits: seq<Hit>)
    ensures forall h :: h in hits ==> from <= h.pos && h.pos + |h.text| <= |s|
    decreases |s| - from, 1
  {
    if from >= |s| then [] else ScanAt(p, s, from)
  }

  /** One step of `matchAll` at offset `from`: take the match there and go on after it, or
      go on at the next offset. */
  function ScanAt(p: Pattern, s: string, from: nat): (hits: seq<Hit>)
    requires from < |s|
    ensures forall h :: h in hits ==> from <= h.pos && h.pos + |h.text| <= |s|
    decreases |s| - from, 0
  {
    var n := MatchLen(p, s, from);
    if n > 0 then [Hit(from, s[from..from + n])] + Scan(p, s, from + n)
    else Scan(p, s, from + 1)
  }

  /** `matchAll` finds nothing exactly when the pattern matches at no offset. */
  lemma {:induction false} ScanEmptyIff(p: Pattern, s: string, from: nat)
    ensures Scan(p, s, from) == [] <==> forall j :: from <= j < |s| ==> MatchLen(p, s, j) == 0
    decreases |s| - from
  {
    if from < |s| {
      ScanEmptyIff(p, s, from + 1);
      if MatchLen(p, s, from) == 0 {
        assert forall j :: from <= j < |s| ==> MatchLen(p, s, j) == 0 <==> from + 1 <= j < |s| ==> MatchLen(p, s, j) == 0;
      }
    }
  }

  /** Every hit starts at or after `lo` and each ends at or before the start of the next. */
  predicate InTextOrder(hits: seq<Hit>, lo: nat)
  {
    hits == [] || (lo <= hits[0].pos && InTextOrder(hits[1..], hits[0].pos + |hits[0].text|))
  }

  lemma ConsInTextOrder(h: Hit, rest: seq<Hit>, lo: nat)
    requires lo <= h.pos && InTextOrder(rest, h.pos + |h.text|)
    ensures InTextOrder([h] + rest, lo)
  {
    assert ([h] + rest)[1..] == rest;
  }

  /** The matches of `matchAll` come in text order and never overlap. */
  lemma {:induction false} ScanOrdered(p: Pattern, s: string, from: nat)
    ensures InTextOrder(Scan(p, s, from), from)
    decreases |s| - from
  {
    if from < |s| {
      var n := MatchLen(p, s, from);
      if n > 0 {
        ScanOrdered(p, s, from + n);
        ConsInTextOrder(Hit(from, s[from..from + n]), Scan(p, s, from + n), from);
      } else {
        ScanOrdered(p, s, from + 1);
      }
    }
  }

  /** Each hit of `matchAll` is a match of the pattern at its offset, and its text is the
      slice of `s` found there. */
  lemma {:induction false} ScanHitsMatch(p: Pattern, s: string, from: nat)
    ensures forall h :: h in Scan(p, s, from) ==>
      MatchLen(p, s, h.pos) == |h.text| > 0 && h.pos + |h.text| <= |s| && h.text == s[h.pos..h.pos + |h.text|]
    decreases |s| - from
  {
    if from < |s| {
      var n := MatchLen(p, s, from);
      if n > 0 {
        ScanHitsMatch(p, s, from + n);
      } else {
        ScanHitsMatch(p, s, from + 1);
      }
    }
  }

  /** The stock, FII and option patterns never end right before a letter or digit. */
  lemma GuardedMatchEnd(p: Pattern, s: string, i: nat)
    requires p == Acoes || p == Fiis || p == Opcoes
    requires MatchLen(p, s, i) > 0
    ensures NotFollowedByWord(s, i + MatchLen(p, s, i))
  {
  }

  /** A full stock-shaped code with no letter or digit after it is matched whole. */
  lemma StockMatched(s: string, i: nat)
    requires ShapeAt(Acoes, s, i, 5) && NotFollowedByWord(s, i + 5)
    ensures MatchLen(Acoes, s, i) == 5
  {
  }

  /** A five-letter code followed by exactly two or three digits and then no letter or
      digit is matched whole. */
  lemma OptionMatched(s: string, i: nat, n: nat)
    requires n == 7 || n == 8
    requires ShapeAt(Opcoes, s, i, n) && NotFollowedByWord(s, i + n)
    ensures MatchLen(Opcoes, s, i) == n
  {
    if n == 7 && i + 8 <= |s| {
      assert s[i..i + 8][7] == s[i + 7];
    }
  }

  /** The futures pattern has no look-ahead: it stops after two digits whatever follows,
      and the option pattern does not match five letters followed by four digits. */
  lemma PatternExamples()
    ensures MatchLen(MiniContratos, "WINJ25X", 0) == 6
    ensures MatchLen(MiniContratos, "WDOF1", 0) == 5
    ensures MatchLen(Opcoes, "PETRA123", 0) == 8
    ensures MatchLen(Opcoes, "PETRA12 ", 0) == 7
    ensures MatchLen(Opcoes, "PETRA1234", 0) == 0
    ensures MatchLen(Acoes, "PETR4X", 0) == 0
  {
    assert "PETRA123"[0..8] == "PETRA123";
    assert "PETRA12 "[0..7] == "PETRA12";
    assert !IsDigit("PETRA12 "[0..8][7]);
  }

  /** The ETF pattern lists seven codes, all of them FII-shaped and none a futures code. */
  lemma EtfCodesAreFiiShaped()
    ensures |EtfCodes| == 7
    ensures forall c :: c in EtfCodes ==> IsFiiShape(c) && !IsFutureShape(c)
  {
  }

  lemma MarkersUpperCase0()
    ensures Upper(Markers[0]) == Markers[0]
    ensures Upper(Markers[1]) == Markers[1]
    ensures Upper(Markers[2]) == Markers[2]
  {
    UpperOfNoLower(Markers[0]);
    UpperOfNoLower(Markers[1]);
    UpperOfNoLower(Markers[2]);
  }

  lemma MarkersUpperCase1()
    ensures Upper(Markers[3]) == Markers[3]
    ensures Upper(Markers[4]) == Markers[4]
    ensures Upper(Markers[5]) == Markers[5]
  {
    UpperOfNoLower(Markers[3]);
    UpperOfNoLower(Markers[4]);
    UpperOfNoLower(Markers[5]);
  }

  lemma MarkersUpperCase2()
    ensures Upper(Markers[6]) == Markers[6]
    ensures Upper(Markers[7]) == Markers[7]
    ensures Upper(Markers[8]) == Markers[8]
  {
    UpperOfNoLower(Markers[6]);
    UpperOfNoLower(Markers[7]);
    UpperOfNoLower(Markers[8]);
  }

  lemma MarkersUpperCase3()
    ensures Upper(Markers[9]) == Markers[9]
    ensures Upper(Markers[10]) == Markers[10]
    ensures Upper(Markers[11]) == Markers[11]
  {
    UpperOfNoLower(Markers[9]);
    UpperOfNoLower(Markers[10]);
    UpperOfNoLower(Markers[11]);
  }

  /** Every character of a match of any pattern is in `[A-Z0-9]`. */
  lemma ShapeWordChars(p: Pattern, t: string)
    requires ShapeOf(p, t)
    ensures forall i :: 0 <= i < |t| ==> IsWordChar(t[i])
  {
    if p == Etfs {
      EtfCodesAreFiiShaped();
    }
  }

  lemma MarkersNonEmpty()
    ensures |Markers| == 12
    ensures forall j :: 0 <= j < |Markers| ==> |Markers[j]| > 0
  {
  }

  /** Twelve non-empty markers, each already in upper case. */
  lemma MarkersUpperCase()
    ensures |Markers| == 12
    ensures forall j :: 0 <= j < |Markers| ==> |Markers[j]| > 0 && Upper(Markers[j]) == Markers[j]
  {
    MarkersNonEmpty();
    MarkersUpperCase0();
    MarkersUpperCase1();
    MarkersUpperCase2();
    MarkersUpperCase3();
  }
}
