# Healthcare form extraction pipeline — a Dafny model

The backend of MedicoDataExtracter takes an uploaded healthcare form, a PDF or a
scanned image, and turns it into a patient record. This project models the
deterministic core of that backend in Dafny and proves properties about it.

- **Flattening** (`PdfParser`, `OcrParser`).
  - The layout tree (page → block → line → span) and the OCR tree (page → block → line → word) become a flat list of positioned text blocks.
  - Page numbers are 1-based.
  - The library documents are inputs; the libraries are not modelled.
- **File classification and dispatch** (`Paths`, `PdfParser.IsPdfFile`, `OcrParser.IsImageFile`, `AppCompatible`).
  - The `pathlib` suffix rule, the case-insensitive extension checks and the `%PDF` header check are modelled.
  - Dispatch tries the PDF route first, then the image route, and otherwise raises `ValueError`.
- **Prompt assembly and answer repair** (`LlmExtractor`).
  - The blocks are stable-sorted by `(page, y0, x0)`, with missing keys read as 0.
  - The text is rendered with one page banner per page.
  - The model's JSON answer is repaired by filling missing or null fields.
  - It is then checked against the schema.
  - The fallback record carries a sample of the text, cut to 50 characters.
- **Record normalisation** (`Validator`, `AppCompatible`).
  - `validator.validate` rewrites the caller's dictionary in place.
  - `FormData` defaults and its gender and date validators are modelled.
  - The construction fallback is modelled.
  - `app_compatible.validate` only converts string list fields.
- **Summary rendering** (`FormFiller`).
  - The vertical position of every row of the drawn summary is modelled, with the font's line height as a parameter.
  - So are the exact text of the plain-text fallback file and the choice between the two artifacts.

Shared pieces:

- `Text`: Python's `lower`, `title`, `strip`, `split`, `join` and `str(int)`, on ASCII.
- `Records`: the form record and the pydantic schema shared by `HealthcareFormFields` and `app_compatible.FormData`.
- `Blocks`: the text block and the exceptions.
- `Wrappers`: `Option` and `Result`.

A record is a `map<Key, Value>`:

- `Key` is either one of the fourteen form fields or any other dictionary key.
- `Value` is `Null | Str | Lst | Other`, where `Other` stands for a JSON object.

A dictionary the source mutates in place is a `Records.FormDict` object. The methods that change it carry `modifies` clauses.

## Model

| member | source | states |
|---|---|---|
| PdfParser.FlattenPages | backend/pdf_parser.py:28-53 | The nested loops produce exactly `PagesOut(pages)`: each span's block, in page → block → line → span order. |
| PdfParser.AppendLines | backend/pdf_parser.py:38-53 | The line loop appends exactly the blocks of the lines that have spans, in order. |
| PdfParser.AppendBlocks | backend/pdf_parser.py:36-53 | The block loop appends exactly the blocks of the layout blocks that have lines, in order. |
| PdfParser.AppendSpans | backend/pdf_parser.py:40-53 | The span loop appends one block per span, in order. |
| PdfParser.ExtractTextWithLayout | backend/pdf_parser.py:11-58 | A missing file raises `FileNotFoundError("PDF file not found: " + path)` and the document is never closed. Otherwise the result is the flattened document and the document is closed exactly once. |
| PdfParser.Document.Close | backend/pdf_parser.py:56 | Closing counts one more close. |
| PdfParser.PagesOutLength | backend/pdf_parser.py:31-53 | The output has exactly one block per span of a line that has spans, inside a block that has lines. |
| PdfParser.PagesOutPageNumbers | backend/pdf_parser.py:31-51 | Every block has `page` between 1 and the page count, and text, font, size and colour present. Page numbers never decrease along the output. |
| PdfParser.BlocksOutFromPage | backend/pdf_parser.py:42-52 | Every block flattened from page `n` carries `page == n`, all four coordinates and the font, size and colour defaults. |
| PdfParser.SpansOutCopies | backend/pdf_parser.py:40-53 | Block `k` of a line's output is span `k`: its text and bbox copied, and its font, size and colour or the defaults `""`, 0 and 0. |
| PdfParser.BlockWithoutLinesIgnored | backend/pdf_parser.py:37 | A block without `lines` contributes nothing to the output. |
| PdfParser.LineWithoutSpansIgnored | backend/pdf_parser.py:39 | A line without `spans` contributes nothing to the output. |
| PdfParser.BlocksOutAppend | backend/pdf_parser.py:36-53 | Flattening distributes over concatenation of a page's blocks. |
| PdfParser.LinesOutAppend | backend/pdf_parser.py:38-53 | Flattening distributes over concatenation of a block's lines. |
| PdfParser.IsPdfFile | backend/pdf_parser.py:61-81 | True iff the lower-cased suffix is `.pdf` and the file could be read and starts with the 4 bytes `%PDF`. A read failure or a short file gives false. |
| PdfParser.IsPdfFileIgnoresContentWithoutSuffix | backend/pdf_parser.py:72-73 | Without a `.pdf` suffix the answer is false whatever the contents, so the file is never read. |
| OcrParser.FlattenPages | backend/ocr_parser.py:41-75 | The nested loops produce exactly `PagesOut(pages)`: one block per word, in page → block → line → word order. |
| OcrParser.AppendBlocks | backend/ocr_parser.py:46-75 | The block loop appends exactly the blocks of each OCR block's lines, in order. |
| OcrParser.AppendLines | backend/ocr_parser.py:48-75 | The line loop appends exactly the blocks of each line's words, in order. |
| OcrParser.AppendWords | backend/ocr_parser.py:50-75 | The word loop appends one block per word, in order. |
| OcrParser.ExtractTextFromImage | backend/ocr_parser.py:21-77 | A missing file raises `FileNotFoundError("Image file not found: " + path)` before any recognition. Otherwise the result is the flattened prediction. |
| OcrParser.PagesOutLength | backend/ocr_parser.py:44-75 | The output has exactly one block per recognised word. |
| OcrParser.PagesOutPageNumbers | backend/ocr_parser.py:44-73 | Every block's page is between 1 and the page count. Word text and confidence are present. Page numbers never decrease. |
| OcrParser.BlocksOutFromPage | backend/ocr_parser.py:65-73 | Every block built on page `n` carries `page == n`, a text and a confidence, and no font. |
| OcrParser.WordsOutCopies | backend/ocr_parser.py:50-75 | Block `k` of a line's output is word `k`: its value as text, its confidence and its box, unchanged. |
| OcrParser.IsImageFileByExtension | backend/ocr_parser.py:80-91 | For a file `stem + ext`, the answer is true iff the lower-cased extension is one of the six image extensions. |
| OcrParser.HiddenFileIsNotImage | backend/ocr_parser.py:80-91 | A dot-file such as `.png` has no suffix, so it is not an image. |
| Paths.Suffix | backend/pdf_parser.py:72 | `pathlib`'s suffix is either empty or a dot followed by at least one character, with no further dot, and it ends the file name. |
| Paths.SuffixOfNamedFile | backend/ocr_parser.py:91 | The suffix of `dir/stem.ext` is `.ext`. |
| Paths.HiddenFileHasNoSuffix | backend/ocr_parser.py:91 | A file name made only of a dot and an extension has no suffix. |
| Paths.FileNameUnderDir | backend/pdf_parser.py:72 | The file name of `dir/name` is `name`. |
| Paths.LastIndexOf | backend/pdf_parser.py:72 | The result is the last position of the character, or -1 when it does not occur. |
| AppCompatible.ConvertListFields | backend/app_compatible.py:263-270 | The loop rewrites the caller's dictionary to exactly `Converted(old)`. |
| AppCompatible.ConvertListField | backend/app_compatible.py:265-270 | One pass: a string list field becomes its list. Nothing else changes. |
| AppCompatible.ConvertedSpec | backend/app_compatible.py:264-270 | Keys are kept. A non-empty string list field becomes its stripped comma-separated items, one more than its commas. An empty string becomes `[]`. `None`, lists and every non-list key are unchanged. |
| AppCompatible.ConvertedIdempotent | backend/app_compatible.py:264-270 | Converting twice is the same as converting once. |
| AppCompatible.ConvertedAgainstNormalized | backend/app_compatible.py:264-265 | Compared with `validator.validate`: string list fields agree. Here a `None` list field stays `None` where the validator gives `[]`, and a `None` required field stays `None` where the validator gives "Unknown". |
| AppCompatible.ConvertedFits | backend/app_compatible.py:264-273 | After conversion a field passes the schema iff it held a string list field or already fitted. |
| AppCompatible.Validate | backend/app_compatible.py:253-276 | The dictionary is converted in place and the result is the schema check of the converted dictionary. |
| AppCompatible.ValidateAccepts | backend/app_compatible.py:233-273 | The schema check of a converted dictionary succeeds iff every field fits after conversion. |
| AppCompatible.ExtractTextWithLayout | backend/app_compatible.py:52-106 | Without PyMuPDF the result is the one mock block `Mock PDF text` on page 1, even for a missing file. Otherwise it behaves like the PDF parser. |
| AppCompatible.RouteOf | backend/app_compatible.py:447-457 | A file goes to the PDF route iff it is a PDF, and to the image route iff it is an image and not a PDF. |
| AppCompatible.FakePdfRefused | backend/app_compatible.py:109-143 | A `.pdf` file without the `%PDF` header is refused: it is neither a PDF nor an image. |
| AppCompatible.ImageRoutedToImage | backend/app_compatible.py:447-453 | An image is never read as a PDF, whatever its contents. |
| AppCompatible.ExtractTextFromFile | backend/app_compatible.py:437-457 | A PDF goes to the layout extractor and an image to the image extractor. Anything else gives `ValueError("Unsupported file type: " + suffix)`. The document is closed once on the PDF route with PyMuPDF and an existing file; on every other route its close count is unchanged. |
| LlmExtractor.SortBlocksSortedPermutation | backend/llm_extractor.py:167-170 | The sorted blocks are in non-decreasing `(page, y0, x0)` order and are a permutation of the input. |
| LlmExtractor.SortBlocksStable | backend/llm_extractor.py:167-170 | For every key, the blocks having that key appear in their input order. |
| LlmExtractor.InsertPermutes | backend/llm_extractor.py:167-170 | Inserting adds exactly one block. |
| LlmExtractor.InsertSorted | backend/llm_extractor.py:167-170 | Inserting into a sorted list keeps it sorted. |
| LlmExtractor.MissingKeysSortAsZero | backend/llm_extractor.py:169 | A block missing `page`, `y0` or `x0` sorts exactly as if that key were 0. |
| LlmExtractor.RenderBlocks | backend/llm_extractor.py:173-184 | The loop's result is the banners interleaved with each block's text and one space. A block without text raises `KeyError("text")`. |
| LlmExtractor.CombineTextBlocks | backend/llm_extractor.py:156-184 | `_combine_text_blocks` renders the sorted blocks. It raises `KeyError("text")` iff some block has no text. |
| LlmExtractor.CombinedEmpty | backend/llm_extractor.py:173-184 | No blocks give `""`. |
| LlmExtractor.SortedPagesAscending | backend/llm_extractor.py:167-180 | After sorting, page numbers never decrease. |
| LlmExtractor.BannerBeforeFirstBlockOfPage | backend/llm_extractor.py:176-180 | On page-ordered blocks, a banner comes before block `i` iff no earlier block has the same page. |
| LlmExtractor.OneBannerPerPage | backend/llm_extractor.py:174-180 | The number of banners equals the number of distinct pages. |
| LlmExtractor.BannerInjective | backend/llm_extractor.py:179 | Different pages have different banners. |
| LlmExtractor.RenderSinglePage | backend/llm_extractor.py:173-184 | Blocks all on one page render as one banner followed by each text plus a space. |
| LlmExtractor.SortedHaveText | backend/llm_extractor.py:167-182 | Sorting neither adds nor removes a block without text. |
| LlmExtractor.FillMissing | backend/llm_extractor.py:112-120 | Every listed field that is missing or null gets the filler. Every other key keeps its presence and value. |
| LlmExtractor.PatchFields | backend/llm_extractor.py:107-120 | Required fields that are missing or null become "Unknown" and list fields become `[]`. Existing non-null values and all other keys are unchanged. |
| LlmExtractor.PatchThenConform | backend/llm_extractor.py:107-123 | The repaired answer passes the schema iff each non-null schema field has the right type. The result then keeps those values and has a string in every required field and a list in every list field. |
| LlmExtractor.SampleText | backend/llm_extractor.py:131-136 | The sample is at most 53 characters and `""` for no blocks. A joined text over 50 characters is cut to its first 50 plus "...". |
| LlmExtractor.SampleIgnoresLaterBlocks | backend/llm_extractor.py:134 | Only the first five blocks contribute to the sample. |
| LlmExtractor.FallbackConforms | backend/llm_extractor.py:139-154 | The fallback record has exactly the schema's fields, with strings in required fields and `[]` in list fields, and itself passes the schema. |
| LlmExtractor.FallbackValueKind | backend/llm_extractor.py:139-154 | Each fallback value has its field's type: a string, an empty list or `None`. |
| LlmExtractor.HandleAnswer | backend/llm_extractor.py:91-154 | The result is always complete. A failed call gives the fallback with its message. A valid answer keeps its non-null values. A schema failure gives the fallback. |
| LlmExtractor.ExtractFields | backend/llm_extractor.py:44-154 | A block without text raises `KeyError` outside the `try`. Otherwise the result is as for `HandleAnswer`, with the sample text of the input blocks. |
| Records.Conform | backend/llm_extractor.py:13-28 | The schema check succeeds iff every field fits. On success, given values are kept, absent fields take their defaults and the keys are exactly the schema's. On failure it names a field that does not fit. |
| Records.ConformedShape | backend/app_compatible.py:233-249 | A conformed record has a string in every required field, `None` or a list in list fields, and `None` or a string in optional fields. |
| Records.ConformComplete | backend/llm_extractor.py:13-28 | A record with exactly the schema's keys, all fitting, passes unchanged. |
| Records.StringToList | backend/validator.py:189-194 | A string becomes a list with one item per comma plus one, or `[]` when empty. Any other value is unchanged. |
| Records.CommaItemsSpec | backend/validator.py:192 | There is one item per comma plus one. No item contains a comma or starts or ends with whitespace. |
| Records.CommaItemsJoin | backend/validator.py:192 | When no piece has surrounding whitespace, the items are the pieces and joining them with commas gives back the string. |
| Records.FieldGroups | backend/validator.py:179-185 | The fields are partitioned into 8 required, 3 list and 3 optional fields, 14 in all. |
| Validator.NormalizeInPlace | backend/validator.py:178-194 | The two loops rewrite the caller's dictionary to exactly `Normalized(old)`. |
| Validator.NormalizeRequiredFields | backend/validator.py:179-182 | Required fields are normalised. Keys and all other values are unchanged. |
| Validator.NormalizeListFields | backend/validator.py:185-194 | List fields are normalised. Keys and all other values are unchanged. |
| Validator.NormalizeRequiredField | backend/validator.py:181-182 | One pass: a present `None` becomes "Unknown". Nothing else changes. |
| Validator.NormalizeListField | backend/validator.py:186-194 | One pass: the list field's value is normalised. Nothing else changes. |
| Validator.NormalizedSpec | backend/validator.py:178-194 | Keys are kept and absent fields are not added. A `None` required field becomes "Unknown". A list field holding `None` or `""` becomes `[]`. A non-empty string becomes stripped items, one more than its commas. Lists and other keys are unchanged. |
| Validator.NormalizedIdempotent | backend/validator.py:178-194 | Normalising twice is the same as normalising once. |
| Validator.NormalizedAccepted | backend/validator.py:178-198 | After normalisation, a record whose fields hold only `None`, strings or lists in list fields always constructs `FormData`. |
| Validator.Validate | backend/validator.py:168-214 | The dictionary is normalised in place. The result is the constructed form, or on failure the fallback form whose complaint starts "Error in validation: ". |
| Validator.FromRecord | backend/validator.py:96-140 | Construction succeeds iff every field fits. It then has exactly the schema's keys and each validated given-or-default value, the gender passing through the check as written. |
| Validator.AbsentFieldsTakeDefaults | backend/validator.py:99-112 | An absent field takes its `FormData` default. |
| Validator.NoFieldsAccepted | backend/validator.py:99-112 | Every field has a default, so a record without any form field is accepted. |
| Validator.FromRecordTypes | backend/validator.py:99-112 | A constructed form has strings in required fields, lists in list fields, and `None` or strings in optional fields. |
| Validator.FromRecordGender | backend/validator.py:114-122 | The constructed gender is the gender validator as written applied to the given string. |
| Validator.FromRecordPreferNotToSay | backend/validator.py:114-122 | A form given any casing of "prefer not to say" keeps that gender exactly as given. |
| Validator.FromRecordKeeps | backend/validator.py:124-140 | Every field other than gender keeps its given-or-default value. |
| Validator.OnlyGenderValidatorChanges | backend/validator.py:124-140 | The date validator changes nothing. |
| Validator.ValidateGender | backend/validator.py:114-122 | As written: the result is non-empty and is "Unknown", a listed value or the input unchanged. Apart from "Unknown", it equals the input up to case. |
| Validator.ValidateGenderIdempotent | backend/validator.py:114-122 | The gender validator as written is idempotent. |
| Validator.ValidateGenderNormalisesWords | backend/validator.py:119-121 | Any casing of "Male", "Female" or "Other" becomes the listed spelling. |
| Validator.PreferNotToSayKeptAsWritten | backend/validator.py:119-122 | Any casing of "prefer not to say" is returned unchanged, because its `title()` is never the listed spelling. |
| Validator.ValidateGenderCorrected | backend/validator.py:114-122 | Same contract as the validator as written, with case-insensitive matching against the list. |
| Validator.ValidateGenderCorrectedNormalises | backend/validator.py:119-121 | Every casing of every listed gender, "Prefer not to say" included, becomes the listed spelling. |
| Validator.ValidateGenderCorrectedIdempotent | backend/validator.py:114-122 | The corrected validator is idempotent. |
| Validator.LongAnswersKeptAsWritten | backend/validator.py:119-122 | The validator as written keeps every answer as long as "Prefer not to say" unchanged. |
| Validator.CorrectionOnListed | backend/validator.py:114-122 | On an answer matching a listed gender up to case, the corrected validator gives that gender. The validator as written gives it too, except for "Prefer not to say", where it keeps the answer. |
| Validator.CorrectionOnUnlisted | backend/validator.py:114-122 | An answer matching no listed gender up to case is kept by both validators. |
| Validator.CorrectionOnlyAffectsPreferNotToSay | backend/validator.py:114-122 | The two validators differ exactly where the corrected one gives "Prefer not to say" for an answer spelled otherwise. There the validator as written keeps the answer. |
| Validator.ValidateDateFormat | backend/validator.py:124-140 | `None`, `""`, well-formed and malformed date strings are all returned unchanged. |
| FormFiller.DrawFieldAdvance | backend/form_filler.py:155-168 | Without a newline the advance is 25. Otherwise it is `(newlines + 1) * line_height`, at least two lines. |
| FormFiller.DrawListFieldAdvance | backend/form_filler.py:170-182 | A falsy value advances 25. A non-empty list advances `len * line_height`. The advance is positive when `line_height > 0`. |
| FormFiller.FalsyMeansNothingToVisit | backend/form_filler.py:174 | A value is falsy iff iterating it would visit nothing. |
| FormFiller.DrawRows | backend/form_filler.py:72-135 | Threading `y_pos` through the rows gives exactly `Layout` for the row tops and `EndY` for the final position. |
| FormFiller.DrawRow | backend/form_filler.py:75-135 | One row: a heading adds its gap and 30, a field adds its advance and 10, and a list adds its advance and 20. |
| FormFiller.LayoutDescends | backend/form_filler.py:72-135 | For `line_height > 0`, row tops strictly increase and stay between the start and the final `y_pos`. |
| FormFiller.LayoutStartsAt100 | backend/form_filler.py:72-75 | The summary has 18 rows and the first section header is drawn at `y = 100`. |
| FormFiller.PlainLayoutFixed | backend/form_filler.py:155-182 | When no value has a newline and no list is non-empty, the layout depends on neither the data nor the line height. |
| FormFiller.MissingFieldsInFallback | backend/form_filler.py:79-84 | A missing scalar renders as "N/A". A missing list renders as an empty list in both renderings. |
| FormFiller.WriteFallback | backend/form_filler.py:189-224 | The sequence of writes produces exactly `FallbackText`. It fails when a list field holds `None`. |
| FormFiller.FallbackTextLines | backend/form_filler.py:190-224 | The file text is the fallback lines, each ending in a newline. |
| FormFiller.FallbackLineCount | backend/form_filler.py:208-218 | The file has 25 lines plus one per list item. Line `16 + i` is "- " followed by the i-th medical history item. |
| FormFiller.FallbackSectionOrder | backend/form_filler.py:190-224 | The ID header comes first, then PATIENT, INSURANCE, MEDICAL and APPOINTMENT at fixed positions. |
| FormFiller.FallbackReadsBack | backend/form_filler.py:189-224 | Splitting the file on newlines gives back its lines, plus the empty tail. |
| FormFiller.NoneListBreaksFallback | backend/form_filler.py:174-176 | A list field holding `None` draws as "None" but makes the text fallback fail. |
| FormFiller.CreateFormVisualization | backend/form_filler.py:32-148 | With PIL and a successful drawing the result is `{form_id}_screenshot.png` with the layout. Otherwise it is `{form_id}_screenshot.txt` with the fallback text. If that write fails too, the result is `None`. |
| FormFiller.UnlinesJoin | backend/form_filler.py:190-224 | Writing lines each ending in a newline is joining them with newlines, plus a final newline. |
| Text.TitleIdempotent | backend/validator.py:120 | `title()` is idempotent. |
| Text.TitleIgnoresCase | backend/validator.py:120 | `title()` depends only on the lower-cased string. |
| Text.StripIdempotent | backend/validator.py:192 | `strip()` is idempotent. |
| Text.StripEnds | backend/validator.py:192 | A stripped string neither starts nor ends with whitespace. |
| Text.SplitPieces | backend/validator.py:192 | `split` gives one piece per separator plus one, and no piece contains the separator. |
| Text.JoinSplit | backend/validator.py:192 | Joining the pieces of a split with its separator gives back the string. |
| Text.SplitJoin | backend/form_filler.py:161 | Splitting a join of separator-free pieces gives back the pieces. |
| Text.IntToStringInjective | backend/llm_extractor.py:179 | Different page numbers print differently. |
| Text.ParseNatToString | backend/llm_extractor.py:179 | The decimal text of a natural number reads back as that number. |

## Left out

- The Groq call and `json.loads` (backend/llm_extractor.py:41-42, 92-105) are a remote, nondeterministic call. The parsed answer or the exception text is the function parameter `llm` of `LlmExtractor.ExtractFields`.
- PyMuPDF, docTR and PIL are not modelled. The layout tree and the OCR prediction are input datatypes. Whether a file exists or can be read, and whether drawing or writing succeeds, are boolean parameters. File contents are an `Option<seq<bv8>>`.
- OCR coordinates are abstract integers. The floating-point scaling `int(coords * width)` and the image-size lookup (backend/ocr_parser.py:56-62) are not modelled.
- Drawing, fonts and `font.getsize` are not modelled; `line_height` is a parameter. The header, footer and `image.save` draw nothing the model tracks.
- Pydantic and Pandera internals are not modelled: type coercion, error-message wording and the Pandera schema with `validate_dataframe`. A value fits a `str` field only if it is a string, and a list field only if it is a list. The exception text is a model string naming the field.
- `Value.Other` stands for a JSON object. It is rejected by every schema field, shown by `str()` as `{}` and iterated as empty. Numbers and booleans are not separate values.
- FormFiller.Show: Python's list repr is modelled as each item, unescaped, in single quotes, separated by ", ". Python escapes newlines, backslashes and quotes and may switch to double quotes; none of that is modelled. So for an item holding a newline, such as `["a\nb"]`, Python's repr is one line and advances 25, while `Show` holds a newline, advances `2 * line_height` and adds a line to the text fallback. Validation (backend/validator.py:186-194) strips only the ends of items split from a string, so an item with an inner newline still reaches the form drawn at backend/app.py:87.
- Text.Lower and Text.Title work on ASCII letters only. Unicode case mapping is not modelled.
- FormFiller.InDir: path joining is `dir + "/" + name`. `pathlib` normalisation is not modelled.
- Paths.Suffix works on `/`-separated strings. Windows separators are not modelled. `Paths.FileName` of a path ending in `/` is `""`, where `pathlib` drops the trailing separator (`a/b/` has name `b`); the suffix of such a path is then `""` rather than that of its last component.
- AppCompatible.ExtractTextWithLayout: the mock block's coordinates are written as the reals 0.0, 0.0, 100.0 and 20.0, where the source writes the integers 0, 0, 100 and 20.
- The mock image extractor and the mock field extractor of backend/app_compatible.py (lines 147-229) return constants. The image route's answer is the parameter `imageBlocks` of `AppCompatible.ExtractTextFromFile`.
- The FastAPI apps (app.py, simple_app.py, simple_extract_app.py, app_with_mocks.py and the endpoints of app_compatible.py), upload saving, CORS and uvicorn are HTTP and file glue.
- backend/config.py is environment loading and `mkdir` only.
- Logging, `uuid` generation and `print` are side effects with no bearing on the results.
- The text fallback is modelled as the whole text its writes produce. A file left partly written when iterating a `None` list raises is not modelled: the result is `None` and no artifact.
- Records are keyed by `Key` (a form field or any other key), not by raw strings. Other keys are carried along unchanged, as the source does. `Key.Extra(name)` is not kept apart from the field names: `Extra("gender")` and the field `gender` may both be present, which no Python dictionary allows, so records are a superset of real dictionaries.
- backend/tests/test_validator.py:64-100 expects a `ValueError` for a missing `patient_name` and a reformatted date. The model follows the code: a default name, and the date unchanged.

## Findings

| source | as written | input that shows it | evidently intended | confidence | as-written member | corrected member |
|---|---|---|---|---|---|---|
| backend/validator.py:119-121 | The gender is normalised only when `v.title()` is in the list, but `title()` capitalises every word | "prefer not to say" (or any casing of it) is kept as written, because its `title()` is "Prefer Not To Say" | Every casing of a listed gender, "Prefer not to say" included, is replaced by the listed spelling | high (not executed) | Validator.ValidateGender, Validator.PreferNotToSayKeptAsWritten | Validator.ValidateGenderCorrected, Validator.ValidateGenderCorrectedNormalises |

`Validator.FromRecord`, and so `Validator.Validate`, use the gender validator as written, as `FormData` does. The corrected validator stands beside it; `Validator.CorrectionOnlyAffectsPreferNotToSay` states where the two differ.
