/** `extrairAtivosDoTexto`: the tickers found inside the sections of a brokerage note.
    Every occurrence of every marker in the upper-cased text is an offset; the sorted
    offsets cut the text into spans, each running to the next offset (the last one to the
    end of the text); the five patterns are run over each span in the order stock, FII,
    ETF, option, futures; catalogued codes are kept once, the first occurrence winning. */
module BlockExtraction {
  import opened Text
  import opened Constants
  import opened AssetTypes
  import opened StockService
  import opened Dedup
  import opened Sorting

  /** The result of the extractor. */
  datatype Extraction = Extraction(ativos: seq<CodeInfo>, emBlocoValido: bool, indicesBlocos: seq<nat>)

  /** The offsets that `indexOf(m, from)` and its repetitions from one past each hit return. */
  function Occurrences(u: string, m: string, from: nat): seq<nat>
    requires |m| > 0
    decreases |u| + 1 - from
  {
    var i := IndexOf(u, m, from);
    if i == -1 then [] else [i] + Occurrences(u, m, i + 1)
  }

  /** The repeated `indexOf` lists only offsets at or after `from` where `m` occurs. */
  lemma {:induction false} OccurrencesSound(u: string, m: string, from: nat, k: nat)
    requires |m| > 0 && k < |Occurrences(u, m, from)|
    ensures from <= Occurrences(u, m, from)[k] && OccursAt(u, m, Occurrences(u, m, from)[k])
    decreases |u| + 1 - from
  {
    var i := IndexOf(u, m, from);
    var rest := Occurrences(u, m, i + 1);
    assert Occurrences(u, m, from) == [i] + rest;
    if k > 0 {
      OccurrencesSound(u, m, i + 1, k - 1);
      assert ([i] + rest)[k] == rest[k - 1];
    }
  }

  /** The repeated `indexOf` lists every offset at or after `from` where `m` occurs. */
  lemma {:induction false} OccurrencesComplete(u: string, m: string, from: nat, p: nat)
    requires |m| > 0 && from <= p && OccursAt(u, m, p)
    ensures p in Occurrences(u, m, from)
    decreases |u| + 1 - from
  {
    var i := IndexOf(u, m, from);
    IndexOfFirst(u, m, from);
    assert i != -1;
    assert Occurrences(u, m, from) == [i] + Occurrences(u, m, i + 1);
    if p != i {
      OccurrencesComplete(u, m, i + 1, p);
    }
  }

  /** Both halves together. */
  lemma OccurrencesExact(u: string, m: string, from: nat)
    requires |m| > 0
    ensures forall k :: 0 <= k < |Occurrences(u, m, from)| ==>
      from <= Occurrences(u, m, from)[k] && OccursAt(u, m, Occurrences(u, m, from)[k])
    ensures forall p: nat :: from <= p && OccursAt(u, m, p) ==> p in Occurrences(u, m, from)
  {
    forall k | 0 <= k < |Occurrences(u, m, from)|
      ensures from <= Occurrences(u, m, from)[k] && OccursAt(u, m, Occurrences(u, m, from)[k])
    {
      OccurrencesSound(u, m, from, k);
    }
    forall p: nat | from <= p && OccursAt(u, m, p)
      ensures p in Occurrences(u, m, from)
    {
      OccurrencesComplete(u, m, from, p);
    }
  }

  /** One step of the repeated `indexOf`. */
  lemma OccurrencesUnfold(u: string, m: string, from: nat)
    requires |m| > 0 && IndexOf(u, m, from) != -1
    ensures IndexOf(u, m, from) < |u|
    ensures Occurrences(u, m, from) == [IndexOf(u, m, from)] + Occurrences(u, m, IndexOf(u, m, from) + 1)
  {
  }

  /** The offsets pushed for the markers `ms`, marker by marker. */
  function MarkerOffsets(u: string, ms: seq<string>): seq<nat>
    requires forall j :: 0 <= j < |ms| ==> |ms[j]| > 0
  {
    if ms == [] then []
    else MarkerOffsets(u, ms[..|ms| - 1]) + Occurrences(u, ms[|ms| - 1], 0)
  }

  /** Some marker of `ms` occurs at offset `p` of `u`. */
  predicate MarkerAt(u: string, ms: seq<string>, p: nat)
  {
    exists j :: 0 <= j < |ms| && OccursAt(u, ms[j], p)
  }

  /** Each offset is where some marker occurs, and every occurrence of every marker is there. */
  lemma {:induction false} MarkerOffsetsExact(u: string, ms: seq<string>)
    requires forall j :: 0 <= j < |ms| ==> |ms[j]| > 0
    ensures forall k :: 0 <= k < |MarkerOffsets(u, ms)| ==> MarkerAt(u, ms, MarkerOffsets(u, ms)[k])
    ensures forall j, p: nat :: 0 <= j < |ms| && OccursAt(u, ms[j], p) ==> p in MarkerOffsets(u, ms)
  {
    if ms != [] {
      var init := ms[..|ms| - 1];
      var last := ms[|ms| - 1];
      MarkerOffsetsExact(u, init);
      OccurrencesExact(u, last, 0);
      var a := MarkerOffsets(u, init);
      var o := Occurrences(u, last, 0);
      assert MarkerOffsets(u, ms) == a + o;
      forall k | 0 <= k < |a + o|
        ensures MarkerAt(u, ms, (a + o)[k])
      {
        if k < |a| {
          assert MarkerAt(u, init, a[k]);
          var j :| 0 <= j < |init| && OccursAt(u, init[j], a[k]);
          assert ms[j] == init[j] && (a + o)[k] == a[k];
          assert OccursAt(u, ms[j], (a + o)[k]);
        } else {
          assert (a + o)[k] == o[k - |a|];
          assert OccursAt(u, ms[|ms| - 1], (a + o)[k]);
        }
      }
      forall j, p: nat | 0 <= j < |ms| && OccursAt(u, ms[j], p)
        ensures p in a + o
      {
        if j < |init| {
          assert init[j] == ms[j];
          assert p in a;
        } else {
          assert p in o;
        }
      }
    }
  }

  /** Every marker offset lies inside the text. */
  lemma MarkerOffsetsInText(u: string, ms: seq<string>)
    requires forall j :: 0 <= j < |ms| ==> |ms[j]| > 0
    ensures forall k :: 0 <= k < |MarkerOffsets(u, ms)| ==> MarkerOffsets(u, ms)[k] < |u|
  {
    MarkerOffsetsExact(u, ms);
    forall k | 0 <= k < |MarkerOffsets(u, ms)|
      ensures MarkerOffsets(u, ms)[k] < |u|
    {
      assert MarkerAt(u, ms, MarkerOffsets(u, ms)[k]);
      var j :| 0 <= j < |ms| && OccursAt(u, ms[j], MarkerOffsets(u, ms)[k]);
    }
  }

  /** Offsets that can cut `u` into spans: ascending, each inside the text. */
  predicate ValidOffsets(u: string, idx: seq<nat>)
  {
    Sorted(idx) && forall k :: 0 <= k < |idx| ==> idx[k] < |u|
  }

  lemma SortedOffsetsValid(u: string, raw: seq<nat>)
    requires forall k :: 0 <= k < |raw| ==> raw[k] < |u|
    ensures ValidOffsets(u, SortAscending(raw))
  {
    var idx := SortAscending(raw);
    SortAscendingSorted(raw);
    forall k | 0 <= k < |idx|
      ensures idx[k] < |u|
    {
      assert idx[k] in multiset(raw);
    }
  }

  function SpanEnd(u: string, idx: seq<nat>, i: nat): nat
    requires i < |idx|
  {
    if i < |idx| - 1 then idx[i + 1] else |u|
  }

  /** `textUpperCase.substring(inicio, fim)` for the `i`-th offset. */
  function Span(u: string, idx: seq<nat>, i: nat): string
    requires i < |idx|
  {
    Substring(u, idx[i], SpanEnd(u, idx, i))
  }

  /** The type each pattern tags its matches with. */
  function PatternTag(p: Pattern): AssetType
  {
    match p
    case Acoes => Acao
    case Fiis => Fii
    case Etfs => Etf
    case Opcoes => Opcao
    case MiniContratos => Futuro
  }

  /** `[...b.matchAll(p)].map(m => ({match: m[0], tipo}))`. */
  function Tagged(p: Pattern, b: string): seq<CodeInfo>
  {
    var hits := Scan(p, b, 0);
    seq(|hits|, k requires 0 <= k < |hits| => CodeInfo(hits[k].text, PatternTag(p)))
  }

  /** `todosMatches` of one span. */
  function TaggedHits(b: string): seq<CodeInfo>
  {
    Tagged(Acoes, b) + Tagged(Fiis, b) + Tagged(Etfs, b) + Tagged(Opcoes, b) + Tagged(MiniContratos, b)
  }

  /** `todosMatches` of the first `n` spans, in offset order. */
  function HitsUpTo(u: string, idx: seq<nat>, n: nat): (hs: seq<seq<CodeInfo>>)
    requires n <= |idx|
    ensures |hs| == n
  {
    if n == 0 then [] else HitsUpTo(u, idx, n - 1) + [TaggedHits(Span(u, idx, n - 1))]
  }

  /** `todosMatches` of every span, in offset order. */
  function SpanHits(u: string, idx: seq<nat>): (hs: seq<seq<CodeInfo>>)
    ensures |hs| == |idx|
  {
    HitsUpTo(u, idx, |idx|)
  }

  lemma {:induction false} HitsUpToAt(u: string, idx: seq<nat>, n: nat, j: nat)
    requires j < n <= |idx|
    ensures HitsUpTo(u, idx, n)[j] == TaggedHits(Span(u, idx, j))
  {
    if j < n - 1 {
      HitsUpToAt(u, idx, n - 1, j);
    }
  }

  /** Entry `j` holds the matches of span `j`. */
  lemma SpanHitsAt(u: string, idx: seq<nat>, j: nat)
    requires j < |idx|
    ensures SpanHits(u, idx)[j] == TaggedHits(Span(u, idx, j))
  {
    HitsUpToAt(u, idx, |idx|, j);
  }

  /** The matches of the first `n` spans, in visiting order. */
  function AllHits(hs: seq<seq<CodeInfo>>, n: nat): seq<CodeInfo>
    requires n <= |hs|
  {
    if n == 0 then [] else AllHits(hs, n - 1) + hs[n - 1]
  }

  /** Whether any of the first `n` spans has a match. */
  predicate AnyHits(hs: seq<seq<CodeInfo>>, n: nat)
    requires n <= |hs|
  {
    n > 0 && (AnyHits(hs, n - 1) || hs[n - 1] != [])
  }

  /** `AnyHits` says that some span among the first `n` has a match. */
  lemma {:induction false} AnyHitsExists(hs: seq<seq<CodeInfo>>, n: nat)
    requires n <= |hs|
    ensures AnyHits(hs, n) <==> exists j :: 0 <= j < n && hs[j] != []
  {
    if n > 0 {
      AnyHitsExists(hs, n - 1);
    }
  }

  /** The matches whose code passes `ativoExisteNaB3`, in order. */
  function Catalogued(xs: seq<CodeInfo>): seq<CodeInfo>
  {
    if xs == [] then []
    else
      var x := xs[|xs| - 1];
      Catalogued(xs[..|xs| - 1]) + (if ExistsOnB3(x.codigo) then [x] else [])
  }

  /** The filter keeps only catalogued matches, and only matches it was given. */
  lemma {:induction false} CataloguedSubset(xs: seq<CodeInfo>)
    ensures forall x :: x in Catalogued(xs) ==> x in xs && ExistsOnB3(x.codigo)
  {
    if xs != [] {
      var init := xs[..|xs| - 1];
      CataloguedSubset(init);
      assert forall x :: x in init ==> x in xs;
    }
  }

  /** One pass of `todosMatches.forEach`: push `x` when its code is catalogued and not yet kept. */
  function NextAssets(ativos: seq<CodeInfo>, x: CodeInfo): seq<CodeInfo>
  {
    if ExistsOnB3(x.codigo) && !HasKey(ativos, Codigo, x.codigo) then ativos + [x] else ativos
  }

  lemma NextAssetsStep(xs: seq<CodeInfo>, x: CodeInfo)
    ensures KeepFirst(Catalogued(xs + [x]), Codigo) == NextAssets(KeepFirst(Catalogued(xs), Codigo), x)
  {
    var ys := xs + [x];
    assert ys[..|ys| - 1] == xs;
    if ExistsOnB3(x.codigo) {
      var c := Catalogued(xs);
      assert Catalogued(ys) == c + [x];
      assert (c + [x])[..|c|] == c;
    } else {
      assert Catalogued(ys) == Catalogued(xs);
    }
  }

  /** The loop step of `AbsorbMatches`, stated on the prefixes of the matches. */
  lemma AbsorbStep(before: seq<CodeInfo>, ms: seq<CodeInfo>, k: nat)
    requires k < |ms|
    ensures KeepFirst(Catalogued(before + ms[..k + 1]), Codigo) ==
      NextAssets(KeepFirst(Catalogued(before + ms[..k]), Codigo), ms[k])
  {
    assert before + ms[..k + 1] == (before + ms[..k]) + [ms[k]];
    NextAssetsStep(before + ms[..k], ms[k]);
  }

  /** What the extractor returns for `text`. */
  function Extract(text: string): Extraction
  {
    var u := Upper(text);
    MarkersNonEmpty();
    var raw := MarkerOffsets(u, Markers);
    if raw == [] then Extraction([], false, [])
    else
      MarkerOffsetsInText(u, Markers);
      SortedOffsetsValid(u, raw);
      var idx := SortAscending(raw);
      var hs := SpanHits(u, idx);
      Extraction(KeepFirst(Catalogued(AllHits(hs, |hs|)), Codigo), AnyHits(hs, |hs|), idx)
  }

  /** The `while (idx !== -1)` loop for one marker: push every offset where it occurs. */
  method PushOccurrences(u: string, m: string, acc: seq<nat>) returns (indicesBlocos: seq<nat>)
    requires |m| > 0
    ensures indicesBlocos == acc + Occurrences(u, m, 0)
  {
    indicesBlocos := acc;
    ghost var from := 0;
    var idx := IndexOf(u, m, 0);
    while idx != -1
      invariant from <= |u| + 1
      invariant idx == IndexOf(u, m, from)
      invariant indicesBlocos + Occurrences(u, m, from) == acc + Occurrences(u, m, 0)
      decreases |u| + 1 - from
    {
      OccurrencesUnfold(u, m, from);
      assert (indicesBlocos + [idx]) + Occurrences(u, m, idx + 1) == indicesBlocos + Occurrences(u, m, from);
      indicesBlocos := indicesBlocos + [idx];
      from := idx + 1;
      idx := IndexOf(u, m, idx + 1);
    }
  }

  /** `BLOCOS_VALIDOS.forEach(...)`: the offsets of all markers, marker by marker. */
  method FindMarkerOffsets(u: string) returns (indicesBlocos: seq<nat>)
    ensures forall j :: 0 <= j < |Markers| ==> |Markers[j]| > 0
    ensures indicesBlocos == MarkerOffsets(u, Markers)
  {
    MarkersNonEmpty();
    indicesBlocos := [];
    var b := 0;
    while b < |Markers|
      invariant 0 <= b <= |Markers|
      invariant indicesBlocos == MarkerOffsets(u, Markers[..b])
    {
      indicesBlocos := PushOccurrences(u, Markers[b], indicesBlocos);
      assert Markers[..b + 1][..b] == Markers[..b];
      b := b + 1;
    }
    assert Markers[..b] == Markers;
  }

  /** `todosMatches.forEach(...)`: push each catalogued match whose code is not yet kept. */
  method AbsorbMatches(acc: seq<CodeInfo>, ghost before: seq<CodeInfo>, todosMatches: seq<CodeInfo>)
    returns (ativos: seq<CodeInfo>)
    requires acc == KeepFirst(Catalogued(before), Codigo)
    ensures ativos == KeepFirst(Catalogued(before + todosMatches), Codigo)
  {
    ativos := acc;
    var k := 0;
    assert before + todosMatches[..0] == before;
    while k < |todosMatches|
      invariant 0 <= k <= |todosMatches|
      invariant ativos == KeepFirst(Catalogued(before + todosMatches[..k]), Codigo)
    {
      AbsorbStep(before, todosMatches, k);
      ativos := AbsorbMatch(ativos, todosMatches[k]);
      k := k + 1;
    }
    assert todosMatches[..k] == todosMatches;
  }

  /** The body of `todosMatches.forEach`: push `x` when its code is catalogued and new. */
  method AbsorbMatch(ativos: seq<CodeInfo>, x: CodeInfo) returns (ativos': seq<CodeInfo>)
    ensures ativos' == NextAssets(ativos, x)
  {
    ativos' := ativos;
    var ativo := x.codigo;
    if ExistsOnB3(ativo) && !HasKey(ativos, Codigo, ativo) {
      ativos' := ativos + [x];
    }
  }

  /** The `if (todosMatches.length > 0)` of one span: flag the block and absorb its matches. */
  method AbsorbSpan(acc: seq<CodeInfo>, found: bool, ghost before: seq<CodeInfo>, todosMatches: seq<CodeInfo>)
    returns (ativos: seq<CodeInfo>, emBlocoValido: bool)
    requires acc == KeepFirst(Catalogued(before), Codigo)
    ensures ativos == KeepFirst(Catalogued(before + todosMatches), Codigo)
    ensures emBlocoValido == (found || todosMatches != [])
  {
    ativos, emBlocoValido := acc, found;
    if |todosMatches| > 0 {
      emBlocoValido := true;
      ativos := AbsorbMatches(ativos, before, todosMatches);
    } else {
      assert before + todosMatches == before;
    }
  }

  /** One turn of the loop over the spans: cut span `i` out of the text and match it. */
  method SpanMatches(u: string, indicesBlocos: seq<nat>, i: nat) returns (todosMatches: seq<CodeInfo>)
    requires i < |indicesBlocos|
    ensures todosMatches == SpanHits(u, indicesBlocos)[i]
  {
    var inicio := indicesBlocos[i];
    var fim := if i < |indicesBlocos| - 1 then indicesBlocos[i + 1] else |u|;
    var blocoTexto := Substring(u, inicio, fim);
    assert blocoTexto == Span(u, indicesBlocos, i);
    todosMatches := TaggedHits(blocoTexto);
    SpanHitsAt(u, indicesBlocos, i);
  }

  /** The `for` loop over the spans. */
  method ScanSpans(u: string, indicesBlocos: seq<nat>) returns (ativos: seq<CodeInfo>, emBlocoValido: bool)
    ensures emBlocoValido == AnyHits(SpanHits(u, indicesBlocos), |indicesBlocos|)
    ensures ativos == KeepFirst(Catalogued(AllHits(SpanHits(u, indicesBlocos), |indicesBlocos|)), Codigo)
  {
    ghost var hs := SpanHits(u, indicesBlocos);
    ghost var seen: seq<CodeInfo> := [];
    ativos := [];
    emBlocoValido := false;
    var i := 0;
    while i < |indicesBlocos|
      invariant 0 <= i <= |indicesBlocos|
      invariant emBlocoValido == AnyHits(hs, i)
      invariant seen == AllHits(hs, i)
      invariant ativos == KeepFirst(Catalogued(seen), Codigo)
    {
      var todosMatches := SpanMatches(u, indicesBlocos, i);
      ativos, emBlocoValido := AbsorbSpan(ativos, emBlocoValido, seen, todosMatches);
      seen := seen + todosMatches;
      i := i + 1;
    }
  }

  /** `extrairAtivosDoTexto(text)`. */
  method ExtractAssetsFromText(text: string) returns (ativos: seq<CodeInfo>, emBlocoValido: bool, indicesBlocos: seq<nat>)
    ensures Extraction(ativos, emBlocoValido, indicesBlocos) == Extract(text)
  {
    var u := Upper(text);
    indicesBlocos := FindMarkerOffsets(u);
    if |indicesBlocos| == 0 {
      return [], false, [];
    }
    MarkerOffsetsInText(u, Markers);
    SortedOffsetsValid(u, indicesBlocos);
    indicesBlocos := SortAscending(indicesBlocos);
    ativos, emBlocoValido := ScanSpans(u, indicesBlocos);
  }

  /** A match carries the type of the pattern that found it, and has that pattern's shape. */
  predicate TagFits(x: CodeInfo)
  {
    match x.tipo
    case Acao => IsStockShape(x.codigo)
    case Fii => IsFiiShape(x.codigo)
    case Etf => x.codigo in EtfCodes
    case Opcao => IsOptionShape(x.codigo)
    case Futuro => IsFutureShape(x.codigo)
    case Desconhecido => false
  }

  /** Each match has the shape of its pattern. */
  lemma HitsShaped(p: Pattern, b: string)
    ensures forall k :: 0 <= k < |Scan(p, b, 0)| ==> ShapeOf(p, Scan(p, b, 0)[k].text)
  {
    var hits := Scan(p, b, 0);
    ScanHitsMatch(p, b, 0);
    forall k | 0 <= k < |hits|
      ensures ShapeOf(p, hits[k].text)
    {
      var h := hits[k];
      assert h in hits;
      var n := MatchLen(p, b, h.pos);
      assert ShapeAt(p, b, h.pos, n);
    }
  }

  lemma ShapeFitsTag(p: Pattern, t: string)
    requires ShapeOf(p, t)
    ensures TagFits(CodeInfo(t, PatternTag(p)))
  {
  }

  lemma TaggedFits(p: Pattern, b: string)
    ensures forall x :: x in Tagged(p, b) ==> TagFits(x)
  {
    var hits := Scan(p, b, 0);
    HitsShaped(p, b);
    forall x | x in Tagged(p, b)
      ensures TagFits(x)
    {
      var k :| 0 <= k < |hits| && x == CodeInfo(hits[k].text, PatternTag(p));
      ShapeFitsTag(p, hits[k].text);
    }
  }

  lemma TaggedHitsFit(b: string)
    ensures forall x :: x in TaggedHits(b) ==> TagFits(x)
  {
    TaggedFits(Acoes, b);
    TaggedFits(Fiis, b);
    TaggedFits(Etfs, b);
    TaggedFits(Opcoes, b);
    TaggedFits(MiniContratos, b);
  }

  lemma {:induction false} AllHitsFit(u: string, idx: seq<nat>, n: nat)
    requires n <= |idx|
    ensures forall x :: x in AllHits(SpanHits(u, idx), n) ==> TagFits(x)
  {
    if n > 0 {
      var hs := SpanHits(u, idx);
      AllHitsFit(u, idx, n - 1);
      TaggedHitsFit(Span(u, idx, n - 1));
      SpanHitsAt(u, idx, n - 1);
      var before := AllHits(hs, n - 1);
      var more := hs[n - 1];
      assert AllHits(hs, n) == before + more;
      forall x | x in before + more
        ensures TagFits(x)
      {
        if x !in before {
          assert x in more;
        }
      }
    }
  }

  /** Matches exist only when some span has one. */
  lemma {:induction false} AllHitsNonEmpty(hs: seq<seq<CodeInfo>>, n: nat)
    requires n <= |hs|
    ensures AllHits(hs, n) != [] ==> AnyHits(hs, n)
  {
    if n > 0 {
      AllHitsNonEmpty(hs, n - 1);
    }
  }

  /** A match of one pattern is text found in the span it was searched in. */
  lemma TaggedOccurs(p: Pattern, b: string, x: CodeInfo)
    requires x in Tagged(p, b)
    ensures exists q: nat :: OccursAt(b, x.codigo, q)
  {
    var hits := Scan(p, b, 0);
    var k :| 0 <= k < |hits| && Tagged(p, b)[k] == x;
    ScanHitsMatch(p, b, 0);
    assert hits[k] in hits;
    assert OccursAt(b, x.codigo, hits[k].pos);
  }

  /** A match of any pattern is text found in the span it was searched in. */
  lemma TaggedHitsOccur(b: string, x: CodeInfo)
    requires x in TaggedHits(b)
    ensures exists q: nat :: OccursAt(b, x.codigo, q)
  {
    if x in Tagged(Acoes, b) {
      TaggedOccurs(Acoes, b, x);
    } else if x in Tagged(Fiis, b) {
      TaggedOccurs(Fiis, b, x);
    } else if x in Tagged(Etfs, b) {
      TaggedOccurs(Etfs, b, x);
    } else if x in Tagged(Opcoes, b) {
      TaggedOccurs(Opcoes, b, x);
    } else {
      TaggedOccurs(MiniContratos, b, x);
    }
  }

  /** What occurs at offset `q` of span `j` occurs at offset `idx[j] + q` of the text. */
  lemma SpanOccurrence(u: string, idx: seq<nat>, j: nat, c: string, q: nat)
    requires ValidOffsets(u, idx) && j < |idx|
    requires OccursAt(Span(u, idx, j), c, q)
    ensures OccursAt(u, c, idx[j] + q)
  {
    var e := SpanEnd(u, idx, j);
    assert idx[j] <= e <= |u| by {
      if j < |idx| - 1 {
        assert idx[j] <= idx[j + 1];
      }
    }
    var b := u[idx[j]..e];
    assert Span(u, idx, j) == b;
    assert q + |c| <= |b| && b[q..q + |c|] == c;
    assert u[idx[j] + q..idx[j] + q + |c|] == b[q..q + |c|];
  }

  /** Every match among the first `n` spans occurs in the text at or after the first
      offset. */
  lemma {:induction false} AllHitsOccur(u: string, idx: seq<nat>, n: nat, x: CodeInfo)
    requires ValidOffsets(u, idx) && n <= |idx|
    requires x in AllHits(SpanHits(u, idx), n)
    ensures exists p: nat :: idx[0] <= p && OccursAt(u, x.codigo, p)
  {
    var hs := SpanHits(u, idx);
    assert AllHits(hs, n) == AllHits(hs, n - 1) + hs[n - 1];
    if x in AllHits(hs, n - 1) {
      AllHitsOccur(u, idx, n - 1, x);
    } else {
      SpanHitsAt(u, idx, n - 1);
      TaggedHitsOccur(Span(u, idx, n - 1), x);
      var q: nat :| OccursAt(Span(u, idx, n - 1), x.codigo, q);
      SpanOccurrence(u, idx, n - 1, x.codigo, q);
      assert idx[0] <= idx[n - 1] + q;
    }
  }

  /** A text in which no marker occurs has no sections, no codes and the flag down; otherwise
      the sections start at every occurrence of every marker, in ascending order, and at
      nothing else. */
  lemma ExtractOffsets(text: string)
    ensures var e := Extract(text);
      Sorted(e.indicesBlocos) &&
      (forall k :: 0 <= k < |e.indicesBlocos| ==> MarkerAt(Upper(text), Markers, e.indicesBlocos[k])) &&
      (forall j, p: nat :: 0 <= j < |Markers| && OccursAt(Upper(text), Markers[j], p) ==> p in e.indicesBlocos)
    ensures Extract(text).indicesBlocos == [] ==> Extract(text) == Extraction([], false, [])
  {
    var u := Upper(text);
    MarkersNonEmpty();
    var raw := MarkerOffsets(u, Markers);
    MarkerOffsetsExact(u, Markers);
    if raw != [] {
      var idx := SortAscending(raw);
      SortAscendingSorted(raw);
      assert Extract(text).indicesBlocos == idx;
      forall k | 0 <= k < |idx|
        ensures MarkerAt(u, Markers, idx[k])
      {
        assert idx[k] in multiset(idx);
        var k' :| 0 <= k' < |raw| && raw[k'] == idx[k];
      }
      forall p | p in raw
        ensures p in idx
      {
        assert p in multiset(raw);
      }
    }
  }

  /** `emBlocoValido` is set exactly when some section holds a match of some pattern. */
  lemma ExtractFlag(text: string)
    ensures var e := Extract(text);
      ValidOffsets(Upper(text), e.indicesBlocos) &&
      (e.emBlocoValido <==>
        exists j :: 0 <= j < |e.indicesBlocos| && SpanHits(Upper(text), e.indicesBlocos)[j] != [])
  {
    var u := Upper(text);
    MarkersNonEmpty();
    var raw := MarkerOffsets(u, Markers);
    if raw != [] {
      MarkerOffsetsInText(u, Markers);
      SortedOffsetsValid(u, raw);
      var idx := SortAscending(raw);
      AnyHitsExists(SpanHits(u, idx), |idx|);
    }
  }

  /** The kept codes are distinct and catalogued, each is the first match with its code, each
      was found by the stock or the FII pattern (the catalogue holds no ETF, option or
      futures code), and codes are found only when the flag is up. */
  lemma ExtractAssets(text: string)
    ensures var e := Extract(text);
      DistinctKeys(e.ativos, Codigo) &&
      (forall a :: a in e.ativos ==> a.codigo in Catalogue && (a.tipo == Acao || a.tipo == Fii)) &&
      (e.ativos != [] ==> e.emBlocoValido)
  {
    var u := Upper(text);
    MarkersNonEmpty();
    var raw := MarkerOffsets(u, Markers);
    if raw != [] {
      MarkerOffsetsInText(u, Markers);
      SortedOffsetsValid(u, raw);
      var idx := SortAscending(raw);
      var all := AllHits(SpanHits(u, idx), |idx|);
      var cat := Catalogued(all);
      var ativos := KeepFirst(cat, Codigo);
      assert Extract(text).ativos == ativos;
      KeepFirstSound(cat, Codigo);
      CataloguedSubset(all);
      AllHitsFit(u, idx, |idx|);
      CatalogueShapes();
      forall a | a in ativos
        ensures a.codigo in Catalogue && (a.tipo == Acao || a.tipo == Fii)
      {
        assert a in cat && a in all;
        ShapeWordChars(match a.tipo
                       case Acao => Acoes
                       case Fii => Fiis
                       case Etf => Etfs
                       case Opcao => Opcoes
                       case _ => MiniContratos, a.codigo);
        UpperOfWordChars(a.codigo);
        ListedIff(a.codigo, Catalogue);
      }
      if ativos != [] {
        assert ativos[0] in cat;
        AllHitsNonEmpty(SpanHits(u, idx), |idx|);
      }
    }
  }

  /** Of several matches with the same code, the one in the earliest section, and within a
      section the one of the earliest pattern, is kept. */
  lemma ExtractFirstWins(text: string)
    ensures var e := Extract(text);
      ValidOffsets(Upper(text), e.indicesBlocos) &&
      var cat := Catalogued(AllHits(SpanHits(Upper(text), e.indicesBlocos), |e.indicesBlocos|));
      forall a :: a in e.ativos ==> HasKey(cat, Codigo, a.codigo) && cat[FirstIndex(cat, Codigo, a.codigo)] == a
  {
    var u := Upper(text);
    MarkersNonEmpty();
    var raw := MarkerOffsets(u, Markers);
    if raw != [] {
      MarkerOffsetsInText(u, Markers);
      SortedOffsetsValid(u, raw);
      var idx := SortAscending(raw);
      KeepFirstIsFirst(Catalogued(AllHits(SpanHits(u, idx), |idx|)), Codigo);
    }
  }

  /** The text before the first section is never searched: every kept code occurs in the
      upper-cased text at or after the first offset. */
  lemma ExtractCodesAfterFirstOffset(text: string)
    ensures var e := Extract(text);
      forall a :: a in e.ativos ==>
        e.indicesBlocos != [] && exists p: nat :: e.indicesBlocos[0] <= p && OccursAt(Upper(text), a.codigo, p)
  {
    var u := Upper(text);
    MarkersNonEmpty();
    var raw := MarkerOffsets(u, Markers);
    if raw != [] {
      MarkerOffsetsInText(u, Markers);
      SortedOffsetsValid(u, raw);
      var idx := SortAscending(raw);
      var all := AllHits(SpanHits(u, idx), |idx|);
      var cat := Catalogued(all);
      assert Extract(text) == Extraction(KeepFirst(cat, Codigo), AnyHits(SpanHits(u, idx), |idx|), idx);
      KeepFirstSound(cat, Codigo);
      CataloguedSubset(all);
      forall a | a in KeepFirst(cat, Codigo)
        ensures exists p: nat :: idx[0] <= p && OccursAt(u, a.codigo, p)
      {
        AllHitsOccur(u, idx, |idx|, a);
      }
    }
  }
}
