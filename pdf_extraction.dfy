/** `isPdfImage`, the text-or-image heuristic, and `extractPdfText`, which stands in for a
    real PDF reader by returning a fixed text whatever the file. */
module PdfExtraction {
  import opened Text
  import opened Constants
  import opened BlockExtraction

  /** `BLOCOS_VALIDOS.some(bloco => u.includes(bloco))`. */
  predicate AnyMarker(u: string)
  {
    exists j :: 0 <= j < |Markers| && Contains(u, Markers[j])
  }

  /** `isPdfImage`: a text shorter than 100 characters, or one in which no section marker
      occurs once upper-cased, is taken for a scanned image. */
  function IsPdfImage(text: string): (r: bool)
    ensures !r ==> |text| >= 100 && AnyMarker(Upper(text))
  {
    if |text| < 100 then true else !AnyMarker(Upper(text))
  }

  /** A text is an image exactly when it is short or no marker occurs at any offset. */
  lemma IsPdfImageIff(text: string)
    ensures IsPdfImage(text) <==>
      |text| < 100 || forall j, p: nat :: 0 <= j < |Markers| ==> !OccursAt(Upper(text), Markers[j], p)
  {
    var u := Upper(text);
    if exists j, p: nat :: 0 <= j < |Markers| && OccursAt(u, Markers[j], p) {
      var j, p: nat :| 0 <= j < |Markers| && OccursAt(u, Markers[j], p);
      assert Contains(u, Markers[j]);
    }
  }

  /** The heuristic and the block extractor agree: a long text passes as text exactly when
      the extractor finds at least one section offset in it. */
  lemma IsPdfImageAgreesWithExtract(text: string)
    requires |text| >= 100
    ensures IsPdfImage(text) <==> Extract(text).indicesBlocos == []
  {
    var u := Upper(text);
    var idx := Extract(text).indicesBlocos;
    ExtractOffsets(text);
    if AnyMarker(u) {
      var j :| 0 <= j < |Markers| && Contains(u, Markers[j]);
      var p: nat :| p <= |u| && OccursAt(u, Markers[j], p);
      assert p in idx;
    }
    if idx != [] {
      assert MarkerAt(u, Markers, idx[0]);
      var j :| 0 <= j < |Markers| && OccursAt(u, Markers[j], idx[0]);
      assert Contains(u, Markers[j]);
    }
  }

  /** `method: 'text' | 'ocr'`, the field `method` of the result. */
  datatype ExtractionMethod = TextMethod | Ocr

  /** `{text, isImage, method}`. */
  datatype PdfText = PdfText(text: string, isImage: bool, extraction: ExtractionMethod)

  /** The fixed text the demo extractor returns, written as its opening marker and the
      rest. */
  const DemoText: string := DemoHead + DemoTail

  const DemoHead: string := "NOTA DE CORRETAGEM"

  const DemoTail: string :=
    " MERCADO \U{00C0} VISTA CORRETORA XP INVESTIMENTOS NEGOCIA\U{00C7}\U{00C3}O DE VALORES MOBILI\U{00C1}RIOS PETR4 100 VALE3 200 ITUB4 150 RESUMO DAS OPERA\U{00C7}\U{00D5}ES RESUMO FINANCEIRO"

  /** `extractPdfText`: the fixed text, classified by the heuristic; OCR is reported
      exactly when the text is taken for an image. */
  function ExtractPdfText(): (r: PdfText)
    ensures r.text == DemoText && r.isImage == IsPdfImage(DemoText)
    ensures r.extraction == Ocr <==> r.isImage
  {
    var isImage := IsPdfImage(DemoText);
    PdfText(DemoText, isImage, if isImage then Ocr else TextMethod)
  }

  /** The demo text opens with the marker "NOTA DE CORRETAGEM". */
  lemma DemoTextOpensWithMarker()
    ensures OccursAt(Upper(DemoText), Markers[7], 0)
  {
    assert DemoText[..18] == DemoHead == Markers[7];
    UpperOfNoLower(DemoHead);
    assert Upper(DemoText)[0..18] == Upper(DemoHead);
  }

  /** The demo text is long enough and holds a marker, so it is read as text, not OCR, and
      the block extractor finds a section starting at offset 0. */
  lemma DemoTextIsText()
    ensures !ExtractPdfText().isImage && ExtractPdfText().extraction == TextMethod
    ensures Extract(DemoText).indicesBlocos != []
  {
    DemoTextOpensWithMarker();
    assert |DemoText| == 164;
    assert Contains(Upper(DemoText), Markers[7]);
    IsPdfImageAgreesWithExtract(DemoText);
  }
}
