# NoteFlow trade pipeline in Dafny

This project models the trade-processing core of NoteFlow, a dashboard that reads
Brazilian brokerage notes ("notas de corretagem") and turns them into portfolio positions
and income-tax figures. It also proves properties of that model. The model follows the TypeScript
modules one by one:

- **Ticker patterns and markers** (`Constants`, `src/utils/pdf/constants.ts`): the twelve
  section markers, and the five ticker regular expressions. Each expression is a match-length
  function plus a scanner with `matchAll` semantics.
- **Asset classifier** (`AssetTypes`, `src/utils/pdf/assetTypeDetermination.ts`): the
  priority-ordered `determinarTipoAtivo`.
- **Exchange catalogue** (`StockService`, `src/services/stockService.ts`): the 89
  catalogued tickers, `ativoExisteNaB3`, `getListaAtivosB3` and the code filter of
  `buscarCotacoes`.
- **Block-scoped extraction** (`BlockExtraction`, `src/utils/pdf/assetExtraction.ts`): the
  loops of `extrairAtivosDoTexto` as methods, proved against a functional specification
  `Extract`.
- **Text source** (`PdfExtraction`, `src/utils/pdfExtraction.ts`): `isPdfImage` and the
  constant `extractPdfText`.
- **Operation normalisation** (`OperationsConversion`,
  `src/utils/pdf/operationsConversion.ts`): the conversion loop, date rewriting, the
  brokerage fee and the day-trade marking.
- **Results and taxes**, in the three variants the repository carries:
  - the flat-rate `calcularResultadosPorTipo`, `calcularImpostos` and `extrairAtivos`
    (`OperationsUtils`);
  - the per-type results (`TradeCalculations`, with the six-field record `TypeBuckets`);
  - the type-aware taxes (`TaxCalculations`).
- **Code extraction** (`AssetExtraction`, `src/utils/assetExtraction.ts`): the
  `{codigo, tipo}` list, deduplicated by code.
- **Note assembly** (`PdfParser`, `src/utils/pdfParser.ts`): the deterministic part of
  `parsePdfCorretagem`.
- **Portfolio recomputation**: the netting version of `usePdfProcessor` (`PdfProcessor`)
  and the naive version of `DashboardProvider` (`DashboardContext`). Their shared data and
  position rules are in `Dashboard`.
- **Widget layout**: the pure list updates (`WidgetLayout`), and the two
  `useDashboardWidgets` hooks as classes holding `layout` and `isEditMode`
  (`DashboardWidgets`, `SimpleDashboardWidgets`).

Helper modules:

- `Wrappers`: `Option` and `Result`.
- `Money`: `Round2`, which is `parseFloat(x.toFixed(2))`.
- `Text`: `toUpperCase`, `trim`, `indexOf` and `substring`.
- `Operations`: the operation record and its sums.
- `Dedup`: first-wins deduplication.
- `Sorting`: the numeric sort.
- `Grouping`: dictionary grouping in first-seen key order.

Amounts are exact reals, and `toFixed(2)` is written out as `Round2`. `Round2` rounds the
magnitude to the nearest cent, and a half-way amount away from zero, as ECMAScript
specifies.

The code fixes these rules, and the model follows them as written:

- The option rule of the classifier is exactly five letters followed by two or three digits
  (src/utils/pdf/assetTypeDetermination.ts:20).
- The FII test runs before the futures test, so a code such as WINZ11 is `fii`.
- The type-aware tax engine groups swing trades by type within each date and then adds
  across dates. `TaxCalculations.PerTypeSwing` proves that this equals grouping over the
  whole history.

## Model

| member | source | states |
|---|---|---|
| Money.Max | src/utils/pdf/operationsConversion.ts:32 | the larger of two amounts: at least both, and one of them |
| Money.Max0 | src/utils/operationsUtils.ts:76-78 | `Math.max(0, x)`: never negative, at least `x`, and either 0 or `x` |
| Money.Round2 | src/utils/operationsUtils.ts:33-34 | `parseFloat(x.toFixed(2))` is a whole number of cents within half a cent of `x`: strictly above the lower bound for a non-negative `x`, strictly below the upper bound for a non-positive one, and on a tie the amount half a cent further from zero |
| Money.RoundCents | src/utils/operationsUtils.ts:33-34 | a non-negative amount rounds to a non-negative whole number of cents within half a cent, the upper one on a tie |
| Money.Round2Ties | src/utils/operationsUtils.ts:33-34 | `toFixed` rounds the magnitude: rounding is symmetric about zero and half a cent rounds away from zero |
| Money.Round2Monotone | src/utils/operationsUtils.ts:81-83 | rounding to cents preserves order |
| Money.Round2NonNegative | src/utils/operationsUtils.ts:81-83 | rounding a non-negative amount gives a non-negative amount |
| Money.Round2OfCents | src/utils/pdf/operationsConversion.ts:32 | a whole number of cents is unchanged by rounding |
| Money.Round2AtLeast | src/utils/pdf/operationsConversion.ts:32 | rounding an amount of at least `c` cents gives at least `c` cents (the R$5.00 fee floor survives `toFixed(2)`) |
| Text.UpperChar | src/utils/pdf/assetTypeDetermination.ts:6 | `toUpperCase` on one character, for the single-character mappings the model covers: under this mapping `[A-Z]` comes only from `[A-Za-z]`, the dotless i and the long s, and digits stay digits |
| Text.Upper | src/utils/pdf/assetExtraction.ts:12 | `toUpperCase` keeps the length and maps every character by `UpperChar` |
| Text.TrimStart | src/utils/pdf/assetTypeDetermination.ts:6 | the result is a suffix of the input that does not start with white space |
| Text.TrimEnd | src/utils/pdf/assetTypeDetermination.ts:6 | the result is a prefix of the input that does not end with white space |
| Text.UpperCharSpace | src/utils/pdf/assetTypeDetermination.ts:6 | upper-casing a character never makes or removes white space |
| Text.UpperIdempotent | src/utils/pdf/assetTypeDetermination.ts:6 | upper-casing twice is upper-casing once |
| Text.TrimStartUpper | src/utils/pdf/assetTypeDetermination.ts:6 | trimming the start commutes with upper-casing |
| Text.TrimEndUpper | src/utils/pdf/assetTypeDetermination.ts:6 | trimming the end commutes with upper-casing |
| Text.TrimUpperCommute | src/utils/pdf/assetTypeDetermination.ts:6 | `trim` and `toUpperCase` commute |
| Text.TrimStartOfTrimmed | src/utils/pdf/assetTypeDetermination.ts:6 | a string that starts with no blank is its own start-trim |
| Text.TrimEndOfTrimmed | src/utils/pdf/assetTypeDetermination.ts:6 | a string that ends with no blank is its own end-trim |
| Text.TrimmedEnds | src/utils/pdf/assetTypeDetermination.ts:6 | a trimmed string neither starts nor ends with white space |
| Text.TrimIdempotent | src/utils/pdf/assetTypeDetermination.ts:6 | trimming twice is trimming once |
| Text.IndexOf | src/utils/pdf/assetExtraction.ts:19-22 | `indexOf(pat, from)` is -1 or an offset at or after `from` where `pat` occurs |
| Text.IndexOfFirst | src/utils/pdf/assetExtraction.ts:19-22 | `indexOf` gives the first occurrence: none lies before it, and -1 means none at all |
| Text.Substring | src/utils/pdf/assetExtraction.ts:36 | `substring(start, end)` is the slice between the two ends, swapped when the start is past the end |
| Text.UpperOfNoLower | src/utils/pdf/constants.ts:3-16 | upper-casing a string without lower-case letters changes nothing |
| Text.UpperOfWordChars | src/services/stockService.ts:71 | upper-casing a `[A-Z0-9]` string changes nothing |
| Constants.MatchLen | src/utils/pdf/constants.ts:19-23 | the length of the match at an offset is 0 or 5 to 8 characters of that pattern's shape |
| Constants.Scan | src/utils/pdf/constants.ts:19-23 | `matchAll` from an offset: every hit starts at or after it and ends inside the text |
| Constants.ScanAt | src/utils/pdf/constants.ts:19-23 | one step of `matchAll`: every hit starts at or after the offset and ends inside the text |
| Constants.ScanEmptyIff | src/utils/pdf/constants.ts:19-23 | `matchAll` finds nothing exactly when the pattern matches at no offset |
| Constants.ConsInTextOrder | src/utils/pdf/constants.ts:19-23 | a hit placed before hits in text order keeps them in text order |
| Constants.ScanOrdered | src/utils/pdf/constants.ts:19-23 | the matches come in text order and never overlap |
| Constants.ScanHitsMatch | src/utils/pdf/constants.ts:19-23 | every hit is a match at its offset and its text is the slice found there |
| Constants.GuardedMatchEnd | src/utils/pdf/constants.ts:19-22 | stock, FII and option matches are never followed by a letter or digit |
| Constants.StockMatched | src/utils/pdf/constants.ts:19 | four letters and 3 or 4, with no letter or digit after, are matched whole |
| Constants.OptionMatched | src/utils/pdf/constants.ts:22 | five letters and two or three digits, then no letter or digit, are matched whole |
| Constants.PatternExamples | src/utils/pdf/constants.ts:19-23 | `{2,3}` is greedy with backtracking; the futures pattern has no look-ahead and takes two digits; PETR4X is no stock match |
| Constants.EtfCodesAreFiiShaped | src/utils/pdf/constants.ts:21 | the ETF pattern lists seven codes, each FII-shaped and none a futures code |
| Constants.MarkersUpperCase0 | src/utils/pdf/constants.ts:4-6 | the first three markers are in upper case |
| Constants.MarkersUpperCase1 | src/utils/pdf/constants.ts:7-9 | markers four to six are in upper case |
| Constants.MarkersUpperCase2 | src/utils/pdf/constants.ts:10-12 | markers seven to nine are in upper case |
| Constants.MarkersUpperCase3 | src/utils/pdf/constants.ts:13-15 | the last three markers are in upper case |
| Constants.ShapeWordChars | src/utils/pdf/constants.ts:19-23 | a match of any pattern is made of `[A-Z0-9]` only |
| Constants.MarkersNonEmpty | src/utils/pdf/constants.ts:3-16 | twelve markers, none empty |
| Constants.MarkersUpperCase | src/utils/pdf/constants.ts:3-16 | twelve non-empty markers, each already in upper case |
| AssetTypes.NormalizeIdempotent | src/utils/pdf/assetTypeDetermination.ts:6 | normalising a normalised code changes nothing |
| AssetTypes.Classify | src/utils/pdf/assetTypeDetermination.ts:9-34 | the result is `etf` exactly for the seven ETF codes; `futuro` only for the futures shape; `acao` only for a stock shape that is not a futures code |
| AssetTypes.DetermineAssetTypeNormalized | src/utils/pdf/assetTypeDetermination.ts:6 | the type depends only on the upper-cased, trimmed code |
| AssetTypes.FiiRule | src/utils/pdf/assetTypeDetermination.ts:9-12 | `fii` exactly for four letters and 11 outside the ETF list |
| AssetTypes.EtfRule | src/utils/pdf/assetTypeDetermination.ts:9-17 | the seven ETFs are `etf`, and never `fii` although they have the FII shape |
| AssetTypes.OptionRule | src/utils/pdf/assetTypeDetermination.ts:20-22 | `opcao` exactly for five letters and two or three digits |
| AssetTypes.FutureRule | src/utils/pdf/assetTypeDetermination.ts:25-27 | a futures-shaped code is `futuro` unless it also has the FII shape |
| AssetTypes.StockRule | src/utils/pdf/assetTypeDetermination.ts:30-32 | four letters and 3 or 4 is `acao` unless it is also a futures code |
| AssetTypes.ClassificationExamples | src/utils/pdf/assetTypeDetermination.ts:9-34 | WINJ3 is `futuro` (the futures test comes first), WINZ11 is `fii`, BRKM5 and CPLE6 are `desconhecido` |
| StockService.ListedIff | src/services/stockService.ts:71 | `includes` finds exactly the members of the list |
| StockService.ListAssetsB3 | src/services/stockService.ts:75-77 | `getListaAtivosB3` has the 89 entries of the catalogue in the same order |
| StockService.CatalogueLine0Entries | src/services/stockService.ts:14 | every entry of the line is five or six `[A-Z0-9]` characters starting with a letter, has no futures root and is none of the seven ETFs |
| StockService.CatalogueLine1Entries | src/services/stockService.ts:15 | every entry of the line is five or six `[A-Z0-9]` characters starting with a letter, has no futures root and is none of the seven ETFs |
| StockService.CatalogueLine2Entries | src/services/stockService.ts:16 | every entry of the line is five or six `[A-Z0-9]` characters starting with a letter, has no futures root and is none of the seven ETFs |
| StockService.CatalogueLine3Entries | src/services/stockService.ts:17 | every entry of the line is five or six `[A-Z0-9]` characters starting with a letter, has no futures root and is none of the seven ETFs |
| StockService.CatalogueLine4Entries | src/services/stockService.ts:18 | every entry of the line is five or six `[A-Z0-9]` characters starting with a letter, has no futures root and is none of the seven ETFs |
| StockService.CatalogueLine5Entries | src/services/stockService.ts:19 | every entry of the line is five or six `[A-Z0-9]` characters starting with a letter, has no futures root and is none of the seven ETFs |
| StockService.CatalogueLine6Entries | src/services/stockService.ts:20 | every entry of the line is five or six `[A-Z0-9]` characters starting with a letter, has no futures root and is none of the seven ETFs |
| StockService.CatalogueLine7Entries | src/services/stockService.ts:21 | every entry of the line is five or six `[A-Z0-9]` characters starting with a letter, has no futures root and is none of the seven ETFs |
| StockService.CatalogueLine8Entries | src/services/stockService.ts:22 | every entry of the line is five or six `[A-Z0-9]` characters starting with a letter, has no futures root and is none of the seven ETFs |
| StockService.CatalogueShapes | src/services/stockService.ts:13-23 | no catalogue entry is an ETF code or has the option or the futures shape |
| StockService.ListedAssetsExist | src/services/stockService.ts:70-77 | every code of `getListaAtivosB3` passes `ativoExisteNaB3` |
| StockService.ExistsOnB3CaseInsensitive | src/services/stockService.ts:70-72 | the check gives the same answer for a code and its upper-cased form |
| StockService.ExistsOnB3Examples | src/services/stockService.ts:71 | "petr4" is found; " PETR4" is not, since nothing is trimmed |
| StockService.ExistsOnB3DotlessI | src/services/stockService.ts:71 | a dotless i upper-cases to I, so "ıtub4" is found |
| StockService.QuotedCodes | src/services/stockService.ts:34-52 | the quoted codes are catalogue entries, include the upper-cased form of every catalogued input, and are empty exactly when no input is catalogued |
| StockService.QuotedCodesSingle | src/services/stockService.ts:34-52 | one code is quoted, upper-cased, exactly when its upper-cased form is catalogued, and otherwise dropped |
| StockService.QuotedCodesAppend | src/services/stockService.ts:34-52 | the filter and map keep input order and multiplicity: quoting a concatenation is quoting each part in turn |
| StockService.QuotedCodesExample | src/services/stockService.ts:34-52 | a catalogued code given twice is quoted twice, in order, and an unknown code between them is dropped |
| BlockExtraction.OccurrencesSound | src/utils/pdf/assetExtraction.ts:19-23 | every offset the repeated `indexOf` pushes is at or after the start and is an occurrence of the marker |
| BlockExtraction.OccurrencesComplete | src/utils/pdf/assetExtraction.ts:19-23 | every occurrence of the marker at or after the start is pushed |
| BlockExtraction.OccurrencesExact | src/utils/pdf/assetExtraction.ts:19-23 | the pushed offsets are exactly the occurrences of the marker |
| BlockExtraction.OccurrencesUnfold | src/utils/pdf/assetExtraction.ts:19-23 | one turn of the `while (idx !== -1)` loop: push the hit and search again one past it |
| BlockExtraction.MarkerOffsetsExact | src/utils/pdf/assetExtraction.ts:18-24 | each offset found for a list of markers is where one of them occurs, and every occurrence of every marker is found |
| BlockExtraction.MarkerOffsetsInText | src/utils/pdf/assetExtraction.ts:18-24 | every marker offset lies inside the text |
| BlockExtraction.SortedOffsetsValid | src/utils/pdf/assetExtraction.ts:30 | sorting offsets that lie inside the text gives ascending offsets that can cut it into spans |
| BlockExtraction.HitsUpTo | src/utils/pdf/assetExtraction.ts:33-55 | the per-span match lists of the first `n` spans: one list per span |
| BlockExtraction.SpanHits | src/utils/pdf/assetExtraction.ts:33-55 | one match list per section offset |
| BlockExtraction.HitsUpToAt | src/utils/pdf/assetExtraction.ts:33-55 | entry `j` of the first `n` lists is `todosMatches` of span `j` |
| BlockExtraction.SpanHitsAt | src/utils/pdf/assetExtraction.ts:33-55 | entry `j` is `todosMatches` of the text between offset `j` and the next offset (or the end) |
| BlockExtraction.AnyHitsExists | src/utils/pdf/assetExtraction.ts:57-58 | the flag after `n` spans is up exactly when one of those spans has a match |
| BlockExtraction.CataloguedSubset | src/utils/pdf/assetExtraction.ts:64 | the catalogue filter keeps only matches it was given whose code passes `ativoExisteNaB3` |
| BlockExtraction.NextAssetsStep | src/utils/pdf/assetExtraction.ts:59-67 | pushing one more match is the first-wins list of the catalogued matches so far, extended by that match |
| BlockExtraction.AbsorbStep | src/utils/pdf/assetExtraction.ts:59-67 | the same step stated on prefixes of one span's matches |
| BlockExtraction.PushOccurrences | src/utils/pdf/assetExtraction.ts:19-23 | the `while` loop appends to `indicesBlocos` exactly the offsets of the repeated `indexOf` |
| BlockExtraction.FindMarkerOffsets | src/utils/pdf/assetExtraction.ts:18-24 | `BLOCOS_VALIDOS.forEach` collects the offsets of all markers, marker by marker |
| BlockExtraction.AbsorbMatches | src/utils/pdf/assetExtraction.ts:59-67 | `todosMatches.forEach` leaves `ativos` as the first-wins list of the catalogued matches seen so far |
| BlockExtraction.AbsorbMatch | src/utils/pdf/assetExtraction.ts:60-66 | one match is pushed exactly when its code is catalogued and not yet kept |
| BlockExtraction.AbsorbSpan | src/utils/pdf/assetExtraction.ts:57-68 | a span with matches raises the flag and absorbs them; a span without leaves both alone |
| BlockExtraction.SpanMatches | src/utils/pdf/assetExtraction.ts:34-55 | the loop body cuts span `i` with `substring` and collects its matches in pattern order |
| BlockExtraction.ScanSpans | src/utils/pdf/assetExtraction.ts:33-69 | after the `for` loop the flag says whether any span had a match, and `ativos` is the first-wins list of the catalogued matches of all spans in order |
| BlockExtraction.ExtractAssetsFromText | src/utils/pdf/assetExtraction.ts:7-74 | the imperative extractor returns exactly `Extract(text)` |
| BlockExtraction.HitsShaped | src/utils/pdf/constants.ts:19-23 | each match of a pattern has that pattern's shape |
| BlockExtraction.ShapeFitsTag | src/utils/pdf/assetExtraction.ts:50-54 | a match of a pattern, tagged with that pattern's type, has the shape of its type |
| BlockExtraction.TaggedFits | src/utils/pdf/assetExtraction.ts:50-54 | every tagged match of one pattern has the shape of its type |
| BlockExtraction.TaggedHitsFit | src/utils/pdf/assetExtraction.ts:49-55 | every entry of `todosMatches` has the shape of its type |
| BlockExtraction.AllHitsFit | src/utils/pdf/assetExtraction.ts:33-55 | every match of the first `n` spans has the shape of its type |
| BlockExtraction.AllHitsNonEmpty | src/utils/pdf/assetExtraction.ts:57-66 | a match can be kept only when some span had a match |
| BlockExtraction.TaggedOccurs | src/utils/pdf/assetExtraction.ts:50-54 | every tagged match of one pattern is text found in the span searched |
| BlockExtraction.TaggedHitsOccur | src/utils/pdf/assetExtraction.ts:49-55 | every entry of `todosMatches` is text found in its span |
| BlockExtraction.SpanOccurrence | src/utils/pdf/assetExtraction.ts:34-36 | what occurs inside span `j` occurs in the text shifted by that span's offset |
| BlockExtraction.AllHitsOccur | src/utils/pdf/assetExtraction.ts:33-55 | every match of the first `n` spans occurs in the text at or after the first offset |
| BlockExtraction.ExtractCodesAfterFirstOffset | src/utils/pdf/assetExtraction.ts:30-64 | text before the first section is never searched: each kept code occurs in the upper-cased text at or after `indicesBlocos[0]` |
| BlockExtraction.ExtractOffsets | src/utils/pdf/assetExtraction.ts:18-30 | `indicesBlocos` is ascending, each entry is where a marker occurs in the upper-cased text, every occurrence of every marker is listed; with no marker the result is `([], false, [])` |
| BlockExtraction.ExtractFlag | src/utils/pdf/assetExtraction.ts:57-58 | `emBlocoValido` holds exactly when some span has a raw match, catalogued or not |
| BlockExtraction.ExtractAssets | src/utils/pdf/assetExtraction.ts:64-66 | the kept codes are pairwise distinct catalogue entries tagged `acao` or `fii`, and some are kept only when the flag is up |
| BlockExtraction.ExtractFirstWins | src/utils/pdf/assetExtraction.ts:49-64 | each kept entry is the first catalogued match with its code, in span order and then in pattern order |
| PdfExtraction.IsPdfImage | src/utils/pdfExtraction.ts:5-11 | a text read as text (not image) has at least 100 characters and contains a marker once upper-cased |
| PdfExtraction.IsPdfImageIff | src/utils/pdfExtraction.ts:5-11 | a text is an image exactly when it is shorter than 100 characters or no marker occurs in it upper-cased |
| PdfExtraction.IsPdfImageAgreesWithExtract | src/utils/pdfExtraction.ts:7-10 | for a long text, the heuristic says image exactly when the block extractor finds no section |
| PdfExtraction.ExtractPdfText | src/utils/pdfExtraction.ts:15-24 | the stub returns the fixed text, classified by `isPdfImage`, with method `ocr` exactly when it is an image |
| PdfExtraction.DemoTextOpensWithMarker | src/utils/pdfExtraction.ts:17 | the demo text opens with the marker "NOTA DE CORRETAGEM" |
| PdfExtraction.DemoTextIsText | src/utils/pdfExtraction.ts:17-22 | the demo text is read as text with method `text`, and the extractor finds sections in it |
| Operations.Where | src/utils/operationsUtils.ts:10-11 | `filter` never lengthens the list |
| Operations.WhereExact | src/utils/operationsUtils.ts:10-11 | `filter` keeps exactly the operations that satisfy the test |
| Operations.WhereAppend | src/utils/operationsUtils.ts:10-11 | filtering a concatenation concatenates the filtered parts |
| Operations.TotalAppend | src/utils/operationsUtils.ts:21-22 | the `reduce` sum of values is additive over concatenation |
| Operations.NetAppend | src/utils/operationsUtils.ts:19-23 | sales minus purchases is additive over concatenation |
| Operations.NetSnoc | src/utils/operationsUtils.ts:19-23 | one more sale adds its value, one more purchase takes its value away |
| Operations.NetEmpty | src/utils/operationsUtils.ts:12 | nothing bought or sold nets to 0 |
| Operations.NetPartition | src/utils/operationsUtils.ts:10-11 | splitting by a flag and its negation and adding the two nets gives the net of all operations |
| Operations.DayAndSwingPartition | src/utils/tradeCalculations.ts:10-11 | every operation is a day trade or a swing trade and never both: the counts and the nets of the two lists add up |
| Operations.WhereCommute | src/utils/operationsUtils.ts:19-20 | filtering by two tests in either order gives the same list |
| Dedup.HasKeyOfExtension | src/utils/assetExtraction.ts:14-19 | after a push, a key is present exactly when it was before or is the pushed element's |
| Dedup.AddIfNewStep | src/utils/assetExtraction.ts:15-18 | one step of the dedup loop keeps its invariant: only input elements, the same keys as the input, no key twice |
| Dedup.KeepFirst | src/utils/assetExtraction.ts:14-19 | the dedup loop run over the whole list never lengthens it |
| Dedup.KeepFirstSound | src/utils/assetExtraction.ts:14-19 | what is kept comes from the input, every key of the input is kept, and no key twice |
| Dedup.FirstIndex | src/utils/assetExtraction.ts:16 | the index of the first element with a key: it has the key and no earlier element does |
| Dedup.FirstIndexOfExtension | src/utils/assetExtraction.ts:16 | a push does not move the first occurrence of a key already present |
| Dedup.FirstIndexOfNewKey | src/utils/assetExtraction.ts:15-18 | a key first seen at the pushed element is first found there |
| Dedup.KeepFirstIsFirst | src/utils/assetExtraction.ts:15-18 | each kept element is the first input element with its key |
| Dedup.KeepFirstPairInOrder | src/utils/assetExtraction.ts:15-18 | two kept elements are in the order of the first occurrences of their keys |
| Dedup.KeepFirstInOrder | src/utils/operationsUtils.ts:91 | the kept elements appear in first-occurrence order |
| Sorting.Insert | src/utils/pdf/assetExtraction.ts:30 | inserting adds exactly one element to the multiset |
| Sorting.InsertLowerBound | src/utils/pdf/assetExtraction.ts:30 | a lower bound of the element and the list bounds the result |
| Sorting.InsertSorted | src/utils/pdf/assetExtraction.ts:30 | inserting into an ascending list keeps it ascending |
| Sorting.SortAscending | src/utils/pdf/assetExtraction.ts:30 | `sort((a, b) => a - b)` returns a permutation of the offsets |
| Sorting.SortAscendingSorted | src/utils/pdf/assetExtraction.ts:30 | and that permutation is ascending |
| Grouping.GroupSnoc | src/utils/operationsUtils.ts:14-17 | pushing one more operation extends only the list under its own key |
| Grouping.KeysOfExact | src/utils/operationsUtils.ts:14-17 | each key is listed once, the key of every operation is listed, and every listed key holds an operation |
| Grouping.GroupOfWhere | src/utils/operationsUtils.ts:56-62 | filtering a group is grouping the filtered list |
| Grouping.GroupCommute | src/utils/taxCalculations.ts:13-40 | grouping by one key and then by another is grouping in the other order |
| Grouping.GroupOfListedKey | src/utils/operationsUtils.ts:15 | a listed key holds at least one operation |
| Grouping.GroupOfAbsentKey | src/utils/operationsUtils.ts:15 | a key no operation has holds no operations |
| Grouping.GroupExact | src/utils/operationsUtils.ts:14-17 | the members of a group are exactly the operations with its key |
| Grouping.GroupOfUniform | src/utils/operationsUtils.ts:14-17 | a list whose every element has key `k` is all kept under `k` |
| Grouping.GroupOfOther | src/utils/operationsUtils.ts:14-17 | a list none of whose elements has key `k` keeps nothing under `k` |
| Grouping.GroupElement | src/utils/operationsUtils.ts:14-17 | each element of a group is one of the operations and has the group's key |
| Grouping.SumOverGroupsExtend | src/utils/operationsUtils.ts:18-24 | summing over one more key adds that group's net |
| Grouping.SumOverGroupsSnoc | src/utils/operationsUtils.ts:18-24 | one more operation changes the sum over distinct keys by its own signed value when its key is among them |
| Grouping.GroupedNet | src/utils/operationsUtils.ts:13-24 | grouping changes no total: the sum of the group nets over distinct covering keys is the net of all operations |
| Grouping.SumOverGroupsOfEmpty | src/utils/operationsUtils.ts:12 | no operations sum to 0 over any keys |
| Grouping.GroupedNetByKeys | src/utils/operationsUtils.ts:13-24 | summing over the dictionary's own keys gives the net of all operations |
| Grouping.GroupBy | src/utils/operationsUtils.ts:13-17 | the `forEach` that fills the dictionary returns its keys in insertion order and, under each, the operations with that key in input order |
| Grouping.TypeIndex | src/utils/tradeCalculations.ts:14-21 | every asset type has a place in the fixed key order |
| Grouping.SumOverAllTypes | src/utils/tradeCalculations.ts:14-21 | the sum over the six type buckets is the sum of the six group nets |
| Grouping.AllTypesExact | src/utils/tradeCalculations.ts:14-21 | the six buckets are distinct and cover every type |
| OperationsUtils.FlatTaxRule | src/utils/operationsUtils.ts:76-84 | the three flat figures are never negative, a result of 0 or less owes no tax, and no loss is carried when the combined result is 0 or more |
| OperationsUtils.AddAssetResults | src/utils/operationsUtils.ts:13-24 | the per-asset loop adds to the accumulator exactly the net of the day trades |
| OperationsUtils.ResultsByKind | src/utils/operationsUtils.ts:6-36 | `calcularResultadosPorTipo` gives the rounded net of the day trades and the rounded net of the swing trades |
| OperationsUtils.DatedNetIsGrouped | src/utils/operationsUtils.ts:44-75 | what the per-date loop accumulates is the sum of the per-date group nets |
| OperationsUtils.DatedNetTotal | src/utils/operationsUtils.ts:44-75 | splitting by date changes no total: over all dates the loop accumulates the net of the filtered operations |
| OperationsUtils.AddDate | src/utils/operationsUtils.ts:54-74 | one date adds its day-trade net and its swing-trade net to the two accumulators |
| OperationsUtils.FlatTaxes | src/utils/operationsUtils.ts:39-85 | `calcularImpostos` gives the flat rule applied to the net of all day trades and of all swing trades, whatever the dates |
| OperationsUtils.CorrectedCodes | src/utils/operationsUtils.ts:90 | the corrected code of each operation, in order |
| OperationsUtils.ExtractCodesExact | src/utils/operationsUtils.ts:88-92 | a code is listed exactly when it is the corrected code of an operation in a valid block with a catalogued asset, and no code is listed twice |
| OperationsUtils.ExtractCodesInOrder | src/utils/operationsUtils.ts:91 | the codes come in the order of their first occurrence |
| TradeCalculations.CreditBoth | src/utils/tradeCalculations.ts:24-69 | the two loops credit every type exactly its day-trade and swing credits and accumulate the two nets |
| TradeCalculations.ResultsByType | src/utils/tradeCalculations.ts:5-76 | the two totals are the rounded nets of the day trades and of the swing trades; the per-type figures are the unrounded credits |
| TradeCalculations.PerTypeSums | src/utils/tradeCalculations.ts:40-68 | the per-type figures add up to the unrounded totals, which add up to the net of all operations |
| TradeCalculations.PerTypeOfAbsentType | src/utils/tradeCalculations.ts:14-21 | a type without operations keeps both figures at 0 |
| TradeCalculations.PerTypeOfConsistentTypes | src/utils/tradeCalculations.ts:33-56 | when every asset has one type, each type's figures are the nets of its own day trades and swing trades |
| TypeBuckets.ByType.Set | src/utils/tradeCalculations.ts:41 | writing one field of the per-type record changes that field and no other |
| TypeBuckets.ByTypeExt | src/utils/tradeCalculations.ts:14-21 | two per-type records with the same six fields are equal |
| TypeBuckets.SumsOfSet | src/utils/tradeCalculations.ts:41-68 | changing one field changes the sums by the change of that field |
| TypeBuckets.CreditedToStep | src/utils/tradeCalculations.ts:32-42 | one more asset credits its group's result to the type of the group's first operation |
| TypeBuckets.WithCreditsGet | src/utils/tradeCalculations.ts:41-68 | each type receives its own day-trade and swing credit |
| TypeBuckets.WithCreditsOfSteps | src/utils/tradeCalculations.ts:24-69 | running the day-trade loop and then the swing loop yields both credits |
| TypeBuckets.NoCredits | src/utils/tradeCalculations.ts:14-21 | no operations credit nothing |
| TypeBuckets.WithCreditsSums | src/utils/tradeCalculations.ts:40-68 | the loops add exactly the nets of their lists to the two sums |
| TypeBuckets.CreditedToSum | src/utils/tradeCalculations.ts:32-42 | each asset group is credited to exactly one type, so the six credits add up to the sum of the group nets |
| TypeBuckets.DayTradeCreditTotal | src/utils/tradeCalculations.ts:32-42 | the day-trade credits of the six types add up to the net of the day trades |
| TypeBuckets.SwingCreditTotal | src/utils/tradeCalculations.ts:55-69 | the swing credits of the six types add up to the net of the swing trades |
| TypeBuckets.CreditedToAbsent | src/utils/tradeCalculations.ts:33-41 | a type none of whose operations is grouped is credited nothing |
| TypeBuckets.CreditsOfAbsentType | src/utils/tradeCalculations.ts:14-21 | a type without operations keeps both credits at 0 |
| TypeBuckets.CreditedToByType | src/utils/tradeCalculations.ts:33-41 | when every asset has one type, crediting each group to its first operation's type is summing the groups of that type |
| TypeBuckets.DayTradeCreditByType | src/utils/tradeCalculations.ts:33-41 | when every asset has one type, a type's day-trade credit is the net of its own day trades |
| TypeBuckets.CreditGroupsGet | src/utils/tradeCalculations.ts:32-42 | visiting the asset keys adds to each type exactly its credited results |
| TypeBuckets.CreditTypesGet | src/utils/tradeCalculations.ts:59-69 | visiting distinct types adds to each visited type the net of its own list |
| TypeBuckets.CreditDayTrades | src/utils/tradeCalculations.ts:24-42 | the day-trade loop adds each type's credit to its `dayTrade` and the day-trade net to the total |
| TypeBuckets.GroupByType | src/utils/tradeCalculations.ts:46-57 | pushing into the six-list record puts under each type exactly its operations in order |
| TypeBuckets.CreditSwingTrades | src/utils/tradeCalculations.ts:44-69 | the swing loop adds each type's credit to its `swingTrade` and the swing net to the total |
| AssetExtraction.TypedCodes | src/utils/assetExtraction.ts:8-11 | one `{codigo, tipo}` per operation: its corrected code and its type |
| AssetExtraction.ExtractAssets | src/utils/assetExtraction.ts:6-22 | the dedup loop returns exactly the first-wins list of the typed codes of the contributing operations |
| AssetExtraction.ExtractTypedCodesExact | src/utils/assetExtraction.ts:7-19 | every entry comes from a contributing operation, every contributing operation's code is listed, no code twice |
| AssetExtraction.ExtractTypedCodesFirstWins | src/utils/assetExtraction.ts:15-18 | the type kept for a code is that of the first contributing operation with that code |
| AssetExtraction.CodesOf | src/utils/assetExtraction.ts:8-11 | the codes of a list of entries, in order |
| AssetExtraction.HasKeyOfCodes | src/utils/assetExtraction.ts:16 | a code is among the entries exactly when it is among their codes |
| AssetExtraction.CodesOfKeepFirst | src/utils/assetExtraction.ts:14-19 | dropping repeated entries and then taking codes is dropping repeated codes |
| AssetExtraction.SameCodesAsUntyped | src/utils/assetExtraction.ts:6-22 | the typed extraction lists the same codes in the same order as `extrairAtivos` of operationsUtils |
| AssetExtraction.ExtractTypedCodes | src/utils/assetExtraction.ts:7-19 | no more entries than contributing operations |
| TaxCalculations.TaxTableGet | src/utils/taxCalculations.ts:89-114 | each type is taxed on its own figures only: 20% of its day-trade figure, 15% of its swing figure (20% for `fii`), each clamped at 0 |
| TaxCalculations.CreditDate | src/utils/taxCalculations.ts:34-83 | one date's operations, split by the `dayTrade` flag, are credited to the per-type figures and the two totals |
| TaxCalculations.CreditLists | src/utils/taxCalculations.ts:35-82 | each of a date's two lists, when not empty, adds its per-type credits and its net to the totals |
| TaxCalculations.CreditDates | src/utils/taxCalculations.ts:11-83 | the loop over the dates in insertion order leaves the figures of all dates |
| TaxCalculations.CalculateTaxes | src/utils/taxCalculations.ts:5-125 | `calcularImpostos` returns the per-type tax table of the per-type figures, the rounded sums of its columns, and the rounded carried loss of the day-trade and swing nets |
| TaxCalculations.TaxesNonNegative | src/utils/taxCalculations.ts:86-122 | every tax, per type and in total, and the carried loss are at least 0 |
| TaxCalculations.DatedSums | src/utils/taxCalculations.ts:34-83 | throughout the date loop the running totals are the sums of the per-type figures and the sums of the per-date nets |
| TaxCalculations.DatedTotals | src/utils/taxCalculations.ts:13-83 | splitting by date changes no total: over all dates the totals are the nets of the day trades and of the swing trades, each operation counted once |
| TaxCalculations.DatedSwing | src/utils/taxCalculations.ts:57-82 | a type's swing figure is the sum, date by date, of its swing nets |
| TaxCalculations.DatedDayTrade | src/utils/taxCalculations.ts:36-54 | with one type per asset, a type's day-trade figure is the sum, date by date, of its day-trade nets |
| TaxCalculations.TypeNetByDate | src/utils/taxCalculations.ts:13-18 | summing one type's per-date groups over all dates gives that type's net |
| TaxCalculations.PerTypeSwing | src/utils/taxCalculations.ts:57-82 | a type's swing figure is the net of its swing trades, whatever their dates |
| TaxCalculations.AgreesWithTradeCalculations | src/utils/taxCalculations.ts:34-83 | with one type per asset, the date-by-date per-type figures equal those of tradeCalculations.ts |
| TaxCalculations.TaxTableAtLeastFlat | src/utils/taxCalculations.ts:89-117 | clamping each type at 0 before adding never gives less than clamping the sum: a loss in one type never lowers another type's tax |
| TaxCalculations.TaxesFromAtLeastFlat | src/utils/taxCalculations.ts:86-123 | from figures that add up to the totals, the typed taxes are at least the flat-rate ones and the carried loss is the same |
| TaxCalculations.TypedTaxesAtLeastFlat | src/utils/taxCalculations.ts:5-125 | this `calcularImpostos` never charges less than the flat-rate one of operationsUtils.ts on the same operations |
| OperationsConversion.FormatDateIso | src/utils/pdf/operationsConversion.ts:25-29 | a `DD/MM/YYYY` date becomes an ISO date with the same day, month and year; anything else passes unchanged |
| OperationsConversion.FormatDateIdempotent | src/utils/pdf/operationsConversion.ts:25-29 | rewriting a rewritten date changes nothing |
| OperationsConversion.BrokerageFee | src/utils/pdf/operationsConversion.ts:32-42 | the fee is never below R$ 5.00 |
| OperationsConversion.BrokerageFeeCases | src/utils/pdf/operationsConversion.ts:32-42 | up to R$ 2000 the fee is exactly R$ 5.00; above, it is 0.25% of the value to the nearest cent |
| OperationsConversion.Converted | src/utils/pdf/operationsConversion.ts:14-48 | the first loop never produces more operations than it reads |
| OperationsConversion.ConvertOne | src/utils/pdf/operationsConversion.ts:21-47 | the pushed object has the type determined from the code, the side from `tipo`, the rewritten date, the fee, the value copied, and is valid and not yet a day trade |
| OperationsConversion.RewriteDate | src/utils/pdf/operationsConversion.ts:25-29 | the imperative rewrite returns the date formatted as specified |
| OperationsConversion.ConvertListed | src/utils/pdf/operationsConversion.ts:14-48 | the `for...of` loop converts the catalogued operations and skips the others, in order |
| OperationsConversion.ConvertedExact | src/utils/pdf/operationsConversion.ts:14-47 | every catalogued input is converted; every output is catalogued, valid, not yet a day trade, and typed by its code |
| OperationsConversion.LastDashOf | src/utils/pdf/operationsConversion.ts:55 | in `${data}-${ativo}` with a dash-free code, the last dash is the separator |
| OperationsConversion.ChaveInjective | src/utils/pdf/operationsConversion.ts:55 | the key tells date and code apart when codes have no `-` |
| OperationsConversion.ListedCodeHasNoDash | src/utils/pdf/operationsConversion.ts:16-55 | catalogued codes have no `-` |
| OperationsConversion.DayTradeGroupIff | src/utils/pdf/operationsConversion.ts:64-68 | the `length >= 2` test is implied: a group qualifies exactly when it has a buy and a sale |
| OperationsConversion.MarkedUpTo | src/utils/pdf/operationsConversion.ts:63-74 | the marking loop keeps the number of operations |
| OperationsConversion.SetDayTrade | src/utils/pdf/operationsConversion.ts:69-71 | `op.dayTrade = true` on exactly the operations with the key; the others are unchanged |
| OperationsConversion.MarkDayTrades | src/utils/pdf/operationsConversion.ts:51-74 | grouping by key and marking every group with a buy and a sale gives the marked list |
| OperationsConversion.MarkedIff | src/utils/pdf/operationsConversion.ts:51-74 | after marking, an operation is a day trade exactly when it was or its key group has a buy and a sale; nothing else changes |
| OperationsConversion.ConvertToOperations | src/utils/pdf/operationsConversion.ts:8-77 | `converterParaOperations` is the conversion followed by the marking |
| OperationsConversion.ConversionDayTrades | src/utils/pdf/operationsConversion.ts:51-74 | in the result an operation is a day trade exactly when the operations of its date and asset include a buy and a sale |
| OperationsConversion.ConversionConsistentTypes | src/utils/pdf/operationsConversion.ts:21-37 | every converted operation is typed by its code, so each asset has one type |
| PdfParser.NoteNumber | src/utils/pdfParser.ts:44 | without ".pdf" the name is kept; otherwise exactly four characters are removed |
| PdfParser.NoteNumberRestores | src/utils/pdfParser.ts:44 | ".pdf" is removed exactly when the name contains it, and putting it back at its first occurrence restores the name |
| PdfParser.NoteNumberExamples | src/utils/pdfParser.ts:44 | only the first ".pdf" is removed: "a.pdf.pdf" gives "a.pdf" |
| PdfParser.FallbackAssets | src/utils/pdfParser.ts:70-78 | the fallback fails with the "Nenhum ativo" error exactly when the text yields no asset; otherwise it returns the extraction, whose block flag is then set |
| PdfParser.NoteFees | src/utils/pdfParser.ts:158-180 | settlement is 0.025% and registration 0.005% of the traded value, and the total is brokerage plus both, each within half a cent |
| PdfParser.NoteFeesNonNegative | src/utils/pdfParser.ts:158-180 | no fee is negative when the traded value and the brokerage are not |
| PdfParser.BumpSum | src/utils/pdfParser.ts:188-191 | one counting step raises the total count by one |
| PdfParser.BumpCountOf | src/utils/pdfParser.ts:188-191 | one counting step raises the count of the operation's type by one and no other |
| PdfParser.BumpTypes | src/utils/pdfParser.ts:188-191 | one counting step adds the operation's type to the listed types |
| PdfParser.BumpWellFormed | src/utils/pdfParser.ts:188-191 | counts stay positive and list each type once |
| PdfParser.CountOfAbsent | src/utils/pdfParser.ts:188-195 | an unlisted type has count 0 |
| PdfParser.CountByTypeExact | src/utils/pdfParser.ts:188-196 | `tiposAtivos` lists each type once with a positive count, the counts add up to the number of valid operations, and each count is the number of operations of that type |
| PdfParser.AssembleNote | src/utils/pdfParser.ts:150-198 | `totalAtivos` is the number of operations kept, never more than given; `blocoEncontrado` is the block flag |
| PdfParser.AssembleNoteExact | src/utils/pdfParser.ts:150-197 | the note holds exactly the valid operations; success holds exactly when a block was found and some operation is valid; the type counts are well formed and add up to `totalAtivos` |
| PdfParser.ParsePdfCorretagem | src/utils/pdfParser.ts:41-210 | the parse fails exactly when the text yields no asset; otherwise it returns the note assembled from the valid generated operations with their rounded day-trade and swing results |
| Dashboard.AllOperationsSnoc | src/hooks/usePdfProcessor.ts:29-32 | appending a note appends its operations after those of the earlier notes |
| Dashboard.QuantityAppend | src/hooks/usePdfProcessor.ts:71-72 | the summed quantity of two lists is the sum of their quantities |
| Dashboard.NetQuantitySnoc | src/contexts/DashboardContext.tsx:116-124 | a purchase adds its quantity to the net, a sale takes it away |
| Dashboard.PositionOf | src/hooks/usePdfProcessor.ts:109-116 | a held position keeps its value; an empty or short one has price and value 0 |
| Dashboard.PositionOfPrice | src/hooks/usePdfProcessor.ts:109-115 | a held position's average price times its quantity is its value |
| PdfProcessor.DayStepQuantity | src/hooks/usePdfProcessor.ts:67-107 | whatever the netting, a date moves the quantity by the shares bought minus the shares sold |
| PdfProcessor.DayStepOneSided | src/hooks/usePdfProcessor.ts:96-105 | a purchase-only (sale-only) date adds (subtracts) the whole quantity and value |
| PdfProcessor.DayStepNetted | src/hooks/usePdfProcessor.ts:78-95 | on a date with both sides, equal quantities leave the position as it was; a residual purchase is valued at the day's average purchase price, a residual sale at the day's average sale price |
| PdfProcessor.ValuedResidual | src/hooks/usePdfProcessor.ts:86-94 | moving a position by some shares at one price moves its value by price times shares |
| PdfProcessor.NettedHolding | src/hooks/usePdfProcessor.ts:55-107 | the per-date loop leaves the accumulators of the netting specification over the asset's dates in first-seen order |
| PdfProcessor.SettleDay | src/hooks/usePdfProcessor.ts:67-106 | one date's body moves the accumulators as the specification's day step does |
| PdfProcessor.NettedQuantityOverDates | src/hooks/usePdfProcessor.ts:67-107 | the netted quantity is the date-by-date sum of net quantities |
| PdfProcessor.QuantityOverDatesSnoc | src/hooks/usePdfProcessor.ts:55-61 | one more operation changes the date-by-date sum by its signed quantity when its date is listed |
| PdfProcessor.QuantityOverDatesOfEmpty | src/hooks/usePdfProcessor.ts:55-61 | no operations move no quantity |
| PdfProcessor.GroupedQuantity | src/hooks/usePdfProcessor.ts:55-67 | grouping by distinct dates that cover every operation loses and repeats none: the date-by-date sum is the net quantity |
| PdfProcessor.NettedQuantity | src/hooks/usePdfProcessor.ts:55-107 | netting never changes the quantity: over all dates it is the shares bought minus the shares sold |
| PdfProcessor.NettedPortfolioOf | src/hooks/usePdfProcessor.ts:51-117 | the `map`/`filter` over the assets gives the netted portfolio |
| PdfProcessor.NettedPortfolioExact | src/hooks/usePdfProcessor.ts:51-117 | the portfolio holds exactly the netted positions of the listed assets with a positive quantity |
| PdfProcessor.SameHoldingsAsNaive | src/hooks/usePdfProcessor.ts:51-117 | the netting hook and the provider list the same assets in the same order with the same quantities; only values and prices can differ |
| PdfProcessor.KeysOfOneDate | src/hooks/usePdfProcessor.ts:55-61 | operations on one date form one group |
| PdfProcessor.OneDay | src/hooks/usePdfProcessor.ts:51-117 | one asset's operations on one date give the position of a single day step |
| PdfProcessor.PairSides | src/hooks/usePdfProcessor.ts:68-69 | a purchase followed by a sale splits into its two sides |
| PdfProcessor.SingleSums | src/hooks/usePdfProcessor.ts:71-75 | a one-operation list sums to its own quantity and value |
| PdfProcessor.PartialDayTradeExample | src/hooks/usePdfProcessor.ts:86-89 | buying 200 at 20.00 and selling 100 at 21.00 on one date leaves 100 shares at 20.00 |
| PdfProcessor.FullDayTradeExample | src/hooks/usePdfProcessor.ts:95-117 | buying and selling 100 shares on one date leaves no position |
| PdfProcessor.AddNote | src/hooks/usePdfProcessor.ts:27-127 | the note is appended after the earlier ones; taxes, assets and the netted portfolio are recomputed from all operations; dividends are kept |
| DashboardContext.NaiveHolding | src/contexts/DashboardContext.tsx:113-124 | the quantity is shares bought minus shares sold and the value is paid minus received, with no netting |
| DashboardContext.NaivePortfolioOf | src/contexts/DashboardContext.tsx:110-134 | the `map`/`filter` over the assets gives the naive portfolio |
| DashboardContext.NaivePositionMeaning | src/contexts/DashboardContext.tsx:110-133 | a position's quantity is the asset's net quantity; when held its value is paid minus received and its price is value per share; otherwise both are 0 |
| DashboardContext.NaivePortfolioExact | src/contexts/DashboardContext.tsx:110-134 | the portfolio holds exactly the naive positions of the listed assets with a positive quantity |
| DashboardContext.AddNote | src/contexts/DashboardContext.tsx:96-143 | the note is appended after the earlier ones; taxes, assets and the naive portfolio are recomputed from all operations; dividends are kept |
| WidgetLayout.OrDefault | src/hooks/useDashboardWidgets.tsx:16 | the logical or of an optional title and a default gives the title when present and non-empty, otherwise the default |
| WidgetLayout.Appended | src/hooks/useDashboardWidgets.tsx:27-30 | the widgets are the old ones followed by the new one; `columns` is kept |
| WidgetLayout.Removed | src/hooks/useDashboardWidgets.tsx:33-38 | filtering never lengthens the list |
| WidgetLayout.RemovedExact | src/hooks/useDashboardWidgets.tsx:33-38 | exactly the widgets with another id survive |
| WidgetLayout.RemovedAppend | src/hooks/useDashboardWidgets.tsx:36 | removal keeps order: it distributes over concatenation |
| WidgetLayout.RemovedAbsent | src/hooks/useDashboardWidgets.tsx:36 | removing an absent id changes nothing |
| WidgetLayout.RemovedIdempotent | src/hooks/useDashboardWidgets.tsx:36 | removing twice is removing once |
| WidgetLayout.Updated | src/hooks/useDashboardWidgets.tsx:43-45 | the map keeps the length and rewrites exactly the widgets with the id |
| WidgetLayout.UpdatedPositionOnly | src/hooks/useDashboardWidgets.tsx:40-46 | a move sets the position of the matching widgets and changes nothing else |
| WidgetLayout.UpdatedSizeOnly | src/hooks/useDashboardWidgets.tsx:54-61 | a resize sets the size of the matching widgets and changes nothing else |
| WidgetLayout.UpdatedVisibilityOnly | src/hooks/useDashboardWidgets.tsx:63-70 | a toggle flips visibility of exactly the matching widgets and changes nothing else |
| WidgetLayout.MoveTwice | src/hooks/useDashboardWidgets.tsx:40-46 | a second move of the same widgets overrides the first |
| WidgetLayout.ToggleTwice | src/hooks/useDashboardWidgets.tsx:63-70 | toggling twice restores visibility, and restores the widget itself once its flag was set |
| WidgetLayout.ToggledTwice | src/hooks/useDashboardWidgets.tsx:67 | for one widget, `!!visible` restores visibility, and the widget when the flag was set |
| WidgetLayout.FirstIndex | src/hooks/useDashboardWidgets.tsx:74 | the index of the first widget with the id, or -1 when none has it |
| WidgetLayout.Find | src/hooks/useDashboardWidgets.tsx:74 | `find` returns a widget of the list with the id, and nothing exactly when none has it |
| WidgetLayout.Duplicated | src/hooks/useDashboardWidgets.tsx:72-87 | an unknown id returns the layout unchanged; otherwise the copy of the first match is appended |
| WidgetLayout.DuplicatedCopiesFirst | src/hooks/useDashboardWidgets.tsx:77-81 | the copy differs from the first match only in its fresh id and its title, marked " (cópia)" |
| WidgetLayout.NewWidget | src/hooks/useDashboardWidgets.tsx:15-25 | the new widget has the fresh id, the type, the custom or default title, is visible and has no position or size |
| WidgetLayout.DropData | src/hooks/useDashboardWidgets.tsx:97-106 | a dragged widget gives its title and type; a serialized one gives its parse result |
| WidgetLayout.DroppedWidget | src/hooks/useDashboardWidgets.tsx:110-117 | the dropped widget is visible, titled from the data or "Novo Widget" and marked " (cópia)", typed from the data or "resumo" |
| WidgetLayout.AfterDrop | src/hooks/useDashboardWidgets.tsx:95-136 | a parse failure leaves the layout; otherwise the dropped widget is appended |
| WidgetLayout.RemoveUndoesAppend | src/hooks/useDashboardWidgets.tsx:27-38 | removing a widget added under a fresh id restores the widget list |
| DashboardWidgets.WidgetBoard.constructor | src/hooks/useDashboardWidgets.tsx:9-10 | the layout starts as given and edit mode off |
| DashboardWidgets.WidgetBoard.SetLayout | src/hooks/useDashboardWidgets.tsx:9-167 | the exported setter replaces the layout only |
| DashboardWidgets.WidgetBoard.ToggleEditMode | src/hooks/useDashboardWidgets.tsx:13 | flips edit mode and keeps the layout |
| DashboardWidgets.WidgetBoard.AddWidget | src/hooks/useDashboardWidgets.tsx:15-31 | appends the new widget with the custom or default title; edit mode is kept |
| DashboardWidgets.WidgetBoard.RemoveWidget | src/hooks/useDashboardWidgets.tsx:33-38 | keeps exactly the widgets with another id |
| DashboardWidgets.WidgetBoard.UpdateWidgetPosition | src/hooks/useDashboardWidgets.tsx:40-52 | only the positions of the matching widgets change |
| DashboardWidgets.WidgetBoard.UpdateWidgetSize | src/hooks/useDashboardWidgets.tsx:54-61 | only the sizes of the matching widgets change |
| DashboardWidgets.WidgetBoard.ToggleWidgetVisibility | src/hooks/useDashboardWidgets.tsx:63-70 | exactly the matching widgets flip visibility |
| DashboardWidgets.WidgetBoard.DuplicateWidget | src/hooks/useDashboardWidgets.tsx:72-93 | appends a copy of the first match; an unknown id changes nothing |
| DashboardWidgets.WidgetBoard.HandleWidgetDrop | src/hooks/useDashboardWidgets.tsx:95-136 | appends the dropped widget; a parse failure changes nothing |
| SimpleDashboardWidgets.SimpleWidgetBoard.constructor | src/hooks/useDashboardWidgets.ts:9-10 | the layout starts as given and edit mode off |
| SimpleDashboardWidgets.SimpleWidgetBoard.SetLayout | src/hooks/useDashboardWidgets.ts:9-74 | the exported setter replaces the layout only |
| SimpleDashboardWidgets.SimpleWidgetBoard.ToggleEditMode | src/hooks/useDashboardWidgets.ts:13 | flips edit mode and keeps the layout |
| SimpleDashboardWidgets.SimpleWidgetBoard.AddWidget | src/hooks/useDashboardWidgets.ts:15-28 | appends a shown widget titled "Novo <type>" with the fresh id |
| SimpleDashboardWidgets.SimpleWidgetBoard.RemoveWidget | src/hooks/useDashboardWidgets.ts:30-35 | keeps exactly the widgets with another id |
| SimpleDashboardWidgets.SimpleWidgetBoard.UpdateWidgetPosition | src/hooks/useDashboardWidgets.ts:37-44 | only the positions of the matching widgets change |
| SimpleDashboardWidgets.SimpleWidgetBoard.UpdateWidgetSize | src/hooks/useDashboardWidgets.ts:46-53 | only the sizes of the matching widgets change |
| SimpleDashboardWidgets.SimpleWidgetBoard.ToggleWidgetVisibility | src/hooks/useDashboardWidgets.ts:55-62 | exactly the matching widgets flip visibility |

## Left out

- Lengths and offsets of strings (the `text.length < 100` test of `isPdfImage`, the `indexOf` and `substring` offsets, `indicesBlocos`) are counted in Unicode code points, where JavaScript counts UTF-16 code units; the two agree only on text within the Basic Multilingual Plane.
- File and PDF input, OCR and the `async`/`Promise` plumbing are not modelled. `extractPdfText` is the constant it is in the source. The file is reduced to its name, the only part that `parsePdfCorretagem` reads.
- The simulated operations that the fallback of `parsePdfCorretagem` generates at random, and the random `divergencias`, are not modelled. The generated operations are a parameter of `PdfParser.ParsePdfCorretagem`.
- The quote prices, timestamps and `setTimeout` of `buscarCotacoes`, and `useCotacoes.ts`, are not modelled. These are random or clock-driven, and only the code filter is modelled.
- The clock and the locale (`new Date()`, `toISOString`, `toLocaleString`) are not modelled. The operation date and month are parameters.
- React, toasts, `localStorage` and the `saveLayout` callbacks are not modelled, nor the `icon` and `content` fields of a widget. These are presentation and storage side effects.
- `uuidv4()` is the parameter `newId`.
- `corrigirNomeAtivo` is imported but not defined in the catalogue service. It is the parameter `correct`.
- `JSON.parse` in `handleWidgetDrop` is given as its outcome: an `Option` whose `None` is the caught parse error.
- The direct-extraction branch of `parsePdfCorretagem` (src/utils/pdfParser.ts:58-67) is not modelled. It needs an `operacoes` field that `extractPdfText` never returns and a function that does not exist, so it is never taken. The source then never sets `usoExtracaoDireta`: it stays undefined, which its readers treat as false, and `PdfParser.AssembleNote` sets it to false.
- `resultadosPorTipo` is not part of the modelled note. src/utils/pdfParser.ts:156 destructures it from a `calcularResultadosPorTipo` that does not return it.
- The two dashboard updaters append the whole `{notaCorretagem, extraInfo}` object returned by `parsePdfCorretagem` as if it were a note. The model appends a note.
- The updater of `usePdfProcessor` also copies `cotacoes: prev.cotacoes` (src/hooks/usePdfProcessor.ts:125). That field is not declared in `DashboardData` (src/models/dashboardTypes.ts), is otherwise only set to an empty list by the initial configuration (src/config/dashboardConfig.tsx:22) and filled by the quote code, which is not modelled. The modelled dashboard state therefore has no quote list, and `PdfProcessor.AddNote` does not carry one.
- The `ativoExisteNaB3` warning loop of `usePdfProcessor` (src/hooks/usePdfProcessor.ts:35-42) only logs, so it is not modelled.
- `Object.values` visits integer-like keys first, in numeric order, and the others in insertion order; the model visits dates and codes in first-seen order. The two orders can differ, but nothing depends on it: the per-key sums are proved equal to the sum over all operations for any list of distinct keys that covers them (`Grouping.GroupedNet`, `Grouping.GroupedNetByKeys`, `Grouping.SumOverGroupsExtend`), and so is the date-by-date quantity (`PdfProcessor.GroupedQuantity`, `PdfProcessor.NettedQuantity`).
- Floating point is not modelled. Amounts are exact reals, so sums are associative and rounding happens only where the source calls `toFixed(2)`.
- Operation quantities are natural numbers. A negative quantity, which the source's types do not exclude, is not modelled.
- Text.UpperChar: models one-for-one case mappings only: ASCII, Latin-1 (with ÿ and µ), the dotless i and the long s. JavaScript's `toUpperCase` also expands characters, for example ß to SS and the ligature ﬁ to FI. It maps other scripts as well. Upper-casing is applied to the note's text and to codes, not only to tickers. So input holding such characters can yield, in the source, ticker-shaped matches, catalogued codes or a raised `emBlocoValido` that the model misses. For example, "ßß3" becomes the stock-shaped "SSSS3". Expansions would change string lengths and offsets, which the model keeps fixed.
- DashboardWidgets.WidgetBoard.ToggleEditMode: flips the current flag. The source's callback closes over `isEditMode` and can act on a stale value between renders; that is not modelled.
- The block extraction of the fixed demo text (PETR4, VALE3 and ITUB4, all `acao`) is not proved. Evaluating the scanner over the whole text is beyond the verifier's budget. The general properties of `BlockExtraction` apply to it.
- The R$ 20,000 monthly exemption flag of the IR widget is presentation logic, so it is not modelled.
