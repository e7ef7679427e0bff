# KYC document analyzer: a Dafny model of its decision logic

The analyzer is a FastAPI service. It accepts an uploaded KYC document, such as a
PAN card, Aadhar card, passport, driving licence or utility bill. It extracts the
document's text with pdfplumber, python-docx, pandas or Tesseract OCR, asks OpenAI
which type of document it is, and then asks for the fields of that type.

Every library and network call is modelled as an oracle value that either returns
or raises (`Outcomes.Attempt`). The model covers the decisions the service makes
around those calls:

- **`textract.dfy` (`extract_text_from_upload`).** It routes on the lower-cased path
  suffix. A PDF's direct text wins; otherwise OCR runs on at most five pages. DOCX,
  TXT and table files take a single attempt. Images go through the 17-call OCR
  cascade, which keeps the non-blank candidates and returns the longest, with the
  earliest winning ties. The page loop and the image cascade are methods proved
  against specification functions. The stable insertion sort that ranks the candidates lives in `ranking.dfy`.
- **`openai.dfy`.** The configuration check, the mapping from a chat reply to the
  classification dict and the analysis dict, and the dispatch from document type to
  extraction template in `_get_kyc_prompt`.
- **`api.dfy` (`main.py`).** Covers:
  - `validate_file`, with `pathlib`'s `suffix`;
  - the `FRONTEND_ORIGINS` parsing;
  - the `/analyze` handler, as a specification function and as an imperative method
    over a temporary directory.
- **`text.dfy`.** Python's `isspace`, `strip`, `lower`, `endswith`, `split` and
  `join`.
- **`pyjson.dfy`.** The values `json.loads` returns and their `str()`.

## Model

| member | source | states |
|---|---|---|
| Text.Strip | textract_service.py:82-84 | `s.strip()` has no whitespace at either end, and it is empty exactly when `s` is blank (the `if x.strip():` test) |
| Text.Lower | main.py:35 | definition of `s.lower()` on ASCII letters; it keeps the length, and the suffix proofs (`Api.LowerSlice`) rely on it commuting with slicing |
| Text.Join | main.py:39 | definition of `sep.join(xs)`; `Text.Split` proves it inverts `split`, `Text.JoinSplitAt` that it splits at every part boundary, and `Text.JoinBlank` when it is blank |
| Text.StripIsInfix | textract_service.py:84 | `strip` removes only whitespace, and only at the two ends: `s` is a blank prefix, then `s.strip()`, then a blank suffix |
| Text.Split | main.py:21 | `s.split(',')` has one more piece than `s` has commas, no piece holds a comma, and joining the pieces with "," gives `s` back |
| Text.JoinBlank | textract_service.py:115-116 | a join with a whitespace separator is blank exactly when every part is blank |
| Text.JoinOfStrippedParts | textract_service.py:98-105 | joining non-blank stripped parts gives a stripped string, which is blank only when there are no parts |
| Ranking.SortByLengthSorts | textract_service.py:349-351 | the stable sort by descending length is a permutation of `all_texts`, ordered longest first |
| Ranking.SortByLength | textract_service.py:351 | definition of `all_texts.sort(key=len, reverse=True)` as a stable insertion sort; `Ranking.SortByLengthSorts` proves it ordered and a permutation |
| Ranking.InsertPermutes | textract_service.py:351 | each insertion step of the sort adds exactly the inserted candidate |
| Ranking.InsertKeepsOrder | textract_service.py:351 | each insertion step keeps the list longest first |
| Ranking.EarliestLongestExists | textract_service.py:349-352 | a non-empty candidate list has an earliest candidate of greatest length |
| Ranking.SortedHeadIsEarliestLongest | textract_service.py:349-356 | `all_texts[0]` after the sort is the earliest of the longest candidates (stable reverse sort) |
| PyJson.Lookup | main.py:89 | a key is found exactly when some entry holds it, and the value found is stored under that key |
| PyJson.Get | main.py:89 | `d.get(key, default)` returns a value stored under `key` when the key is present, and `default` otherwise |
| PyJson.PyStr | openai_service.py:61 | `str(data)` is empty exactly when `data` is the empty string |
| PyJson.Repr | openai_service.py:61 | `repr` of a parsed JSON value is never empty and starts as Python prints `None`, booleans, numbers, strings, lists and dicts |
| PyJson.QuoteString | openai_service.py:61 | `repr` of a string is enclosed in matching single or double quotes |
| Textract.RouteCharacterised | textract_service.py:68-147 | routing on the lower-cased path: each branch is taken exactly when the path ends with its suffix(es), and "unsupported" exactly when it ends with none |
| Textract.Route | textract_service.py:68-147 | definition of the routing of `extract_text_from_upload` on the lower-cased path; characterised by `Textract.RouteCharacterised` |
| Textract.RouteOn | textract_service.py:78-147 | definition of the `if`/`elif` chain of suffix tests; characterised by `Textract.RouteOnCharacterised` |
| Textract.RouteOnCharacterised | textract_service.py:78-147 | the `if`/`elif` chain of suffix tests on the lower-cased path, branch by branch, in both directions |
| Textract.RoutedSuffixesExclusive | textract_service.py:78-147 | a path ends with at most one of the eight tested suffixes, so the order of the tests never matters |
| Textract.SuffixTails | textract_service.py:78-147 | the eight suffixes are told apart by their last two characters |
| Textract.DirectPdfText | textract_service.py:80-81 | the direct PDF text succeeds exactly when every page's `extract_text()` succeeds |
| Textract.PageOcrTexts | textract_service.py:94-101 | the OCR loop keeps at most one text per page, each stripped and non-blank |
| Textract.PageOcrTextsSnoc | textract_service.py:94-99 | one more page adds exactly that page's own kept text, after the earlier pages' texts |
| Textract.PdfOcrTextStripped | textract_service.py:102-105 | the OCR fallback's text is stripped, and blank exactly when no page yielded text |
| Textract.OcrPdfPages | textract_service.py:92-105 | the page loop returns the "\n"-join of the kept page texts of the first five pages, and it renders at most five pages |
| Textract.ConfigPasses | textract_service.py:251-253 | one recognition call per configuration, in list order |
| Textract.LangPasses | textract_service.py:332-336 | strategy 4 makes (number of languages) × 2 calls, languages outermost |
| Textract.CandidatesOf | textract_service.py:194-344 | `all_texts` grows by at most one candidate per call, and every candidate is stripped and non-blank |
| Textract.ImageCallBound | textract_service.py:194-344 | one image triggers at most 1 + 7 + 3 + 6 = 17 recognition calls, all 17 when preprocessing succeeds, and none when the image does not open |
| Textract.ImageCallsIgnoreResults | textract_service.py:193-344 | a failing or empty recognition never stops the cascade: the calls made do not depend on the results |
| Textract.ImageTextIsEarliestLongest | textract_service.py:349-371 | the image text is the earliest longest candidate, or "" when there is none |
| Textract.ImageCalls | textract_service.py:179-346 | definition of the recognition calls the image cascade makes, in order; bounded by `Textract.ImageCallBound`, and `Textract.ExtractImageText` proves the imperative cascade makes exactly these |
| Textract.ImageText | textract_service.py:348-375 | definition of the text the image cascade returns; `Textract.ImageTextIsEarliestLongest` proves it the earliest longest candidate |
| Textract.CandidatesAppend | textract_service.py:189-346 | the candidates of two runs of calls, one after the other, are the two runs' candidates in that order |
| Textract.RunPass | textract_service.py:252-261 | one pass appends exactly that call's candidate and keeps "`text` is blank while `all_texts` is empty" |
| Textract.RunCalls | textract_service.py:251-261 | the `for config` loop appends the candidates of its calls in order |
| Textract.RunConfigs | textract_service.py:251-317 | the configuration loop extends the call log by its passes and keeps `all_texts` in step with the log |
| Textract.RunLanguages | textract_service.py:332-344 | the nested language and configuration loops extend the log by `LangPasses` and keep `all_texts` in step |
| Textract.RunEnhanced | textract_service.py:202-263 | strategy 2 makes its seven passes only when its preprocessing completes |
| Textract.RunAggressive | textract_service.py:265-319 | strategy 3 makes its three passes only when its preprocessing completes |
| Textract.RunMultilang | textract_service.py:321-346 | strategy 4 runs on strategy 2's image if one was bound, otherwise on a grayscale copy of the original |
| Textract.SelectBest | textract_service.py:348-371 | after the cascade, the returned text is the head of the sorted candidates, or "" |
| Textract.ExtractImageText | textract_service.py:179-375 | the whole image cascade makes exactly the calls `ImageCalls` lists and returns `ImageText` |
| Textract.ExtractPdf | textract_service.py:78-109 | the PDF branch returns the stripped direct text if it is not blank, else the OCR text if Tesseract is present, else "" |
| Textract.ExtractImage | textract_service.py:147-151 | the image branch returns "" with no call when Tesseract is missing |
| Textract.ExtractDocx | textract_service.py:112-120 | the DOCX branch returns the paragraphs joined with "\n" and stripped, or "" |
| Textract.ExtractSingle | textract_service.py:123-144 | the TXT and table branches return the stripped text, or "" when the library raises |
| Textract.ExtractTextFromUpload | textract_service.py:65-379 | the dispatcher returns what the branch chosen by routing returns |
| Textract.PdfExtraction | textract_service.py:78-109 | definition of the PDF branch: direct text, then the OCR fallback; see `Textract.ExtractPdf`, `Textract.DirectPdfTextWins` and `Textract.PdfOcrFallback` |
| Textract.ExtractOn | textract_service.py:78-151 | definition of the branch bodies of `extract_text_from_upload`; `Textract.ExtractStripped` proves every exit stripped |
| Textract.Extract | textract_service.py:65-379 | definition of `extract_text_from_upload`: `ExtractOn` of the routed branch; `Textract.ExtractTextFromUpload` is the method proved equal to it |
| Textract.ExtractStripped | textract_service.py:84-379 | every exit returns a stripped string, and failure is "" |
| Textract.OnlyPdfAndImagesRecognize | textract_service.py:111-379 | only PDFs and images run OCR, and an unsupported suffix yields "" |
| Textract.DirectPdfTextWins | textract_service.py:80-84 | a PDF with non-blank direct text returns it stripped, with no OCR |
| Textract.PdfOcrFallback | textract_service.py:89-105 | otherwise the result is the "\n"-join of the non-blank stripped OCR texts of the first five pages, "" when there are none |
| Textract.ParagraphsBlank | textract_service.py:115-116 | the "\n"-joined paragraphs strip to "" exactly when every paragraph is blank |
| Textract.DocxParagraphs | textract_service.py:114-120 | a DOCX yields its paragraphs joined by "\n" and stripped, and yields "" exactly when every paragraph is blank |
| Textract.ImageRecognitionBudget | textract_service.py:147-346 | an image yields "" with no attempt when Tesseract is missing, and never takes more than 17 attempts |
| OpenAi.Take | openai_service.py:38 | `text[:4000]` is the longest prefix of at most 4000 characters |
| OpenAi.ClassificationPrompt | openai_service.py:28-39 | the prompt is the instructions followed by the first `min(4000, len(text))` characters of the text, which is "" for empty text |
| OpenAi.ClassifyShape | openai_service.py:18-64 | classification raises exactly when the key is unset or empty, with the configuration message; otherwise it returns a dict whose only key is "document_type" |
| OpenAi.ClassifyDocument | openai_service.py:23-64 | definition of `classify_document`; its shape is `OpenAi.ClassifyShape`, its round trip `OpenAi.ClassifyRoundTrip`, its fallbacks `OpenAi.DocumentTypeFallback` and `OpenAi.ClassifyExceptionIsGeneral` |
| OpenAi.DocumentTypeOf | openai_service.py:55-64 | definition of how `classify_document` reads the type from the parsed reply; see `OpenAi.DocumentTypeKept` and `OpenAi.DocumentTypeFallback` |
| OpenAi.DocumentTypeKept | openai_service.py:55-58 | a parsed dict with "document_type" has that value passed on unchanged |
| OpenAi.ClassifyRoundTrip | openai_service.py:37-58 | a reply in the requested format `{"document_type": v}` classifies as `v` |
| OpenAi.DocumentTypeFallback | openai_service.py:60-61 | without the key the type is `str(data)`, and it is "GeneralDocument" only when `str(data)` is empty (or is itself "GeneralDocument") |
| OpenAi.ClassifyExceptionIsGeneral | openai_service.py:62-64 | any exception in the `try` classifies as "GeneralDocument" |
| OpenAi.BlankContentClassifiesAsBraces | openai_service.py:53-61 | blank content parses as `{}` and classifies as the string "{}" |
| OpenAi.AnalysisOf | openai_service.py:93-98 | the analysis of a reply is always a dict |
| OpenAi.AnalyzeShape | openai_service.py:18-98 | analysis raises exactly when the key is unset or empty; otherwise a dict reply is returned unchanged, another JSON value gives the "Failed to analyze document" error, and an exception gives `{"error": str(e)}` |
| OpenAi.BlankContentAnalysesAsEmpty | openai_service.py:90-94 | blank content is analysed as `{}` |
| OpenAi.AnalyzeDocumentByType | openai_service.py:67-98 | definition of `analyze_document_by_type`; its shape is `OpenAi.AnalyzeShape` |
| OpenAi.NoneContentAnalysesAsError | openai_service.py:90-98 | content that is None is analysed as `{"error": "'NoneType' object has no attribute 'strip'"}` |
| OpenAi.FailedCallAnalysesAsError | openai_service.py:79-98 | a failed API call with message `m` is analysed as `{"error": m}` |
| OpenAi.TemplateSelection | openai_service.py:115-233 | exact, case-sensitive match on the five known types selects their template, anything else selects the general one; there are 5, 5, 7, 9, 6 and 2 fields; only Aadhar and Passport use the "Extracted Text from Document" header |
| OpenAi.TemplateFor | openai_service.py:101-233 | definition of the template `_get_kyc_prompt` selects; characterised by `OpenAi.TemplateSelection` |
| OpenAi.KycPrompt | openai_service.py:101-233 | definition of `_get_kyc_prompt`; see `OpenAi.KycPromptFrame`, `OpenAi.KycPromptInjective`, `OpenAi.KycPromptListsFields` and `OpenAi.FieldBlockInOrder` |
| OpenAi.FieldBlockInOrder | openai_service.py:116-221 | the template lists its keys in order: splitting the key block before key `j` leaves every earlier key before the split and key `j` after it |
| OpenAi.KycPromptFrame | openai_service.py:104-233 | every prompt starts with the base instructions and ends with the whole text, after a head that depends only on the type |
| OpenAi.KycPromptInjective | openai_service.py:127-233 | the text is appended verbatim: two texts give the same prompt only when they are equal |
| OpenAi.KycPromptListsFields | openai_service.py:120-232 | every field of the selected type appears, quoted, in the prompt |
| Api.LastProperPart | main.py:35 | pathlib's name is "" exactly when every component is empty or "."; otherwise it is a component other than "." after which every component is empty or "." |
| Api.PathName | main.py:35 | `Path(filename).name` holds no "/" and is never "." |
| Api.PathNameIsLastProper | main.py:35 | the name is "" exactly when every "/"-separated component is empty or "."; otherwise it is the last component that is neither |
| Api.RFind | main.py:35 | `rfind` gives the last occurrence, or -1 |
| Api.RFindLast | main.py:35 | an occurrence with none after it is the one `rfind` returns |
| Api.PathSuffix | main.py:35-64 | `Path(filename).suffix` is "" or a dot followed by at least one character and no further dot, and the name ends with it |
| Api.SuffixComplete | main.py:35 | a name whose last dot is neither its first nor its last character has the suffix from that dot on ("scan.v2.pdf" has ".pdf") |
| Api.NameWithoutSeparator | main.py:35 | a name without "/" is its own `Path(...).name` |
| Api.PlainNameSuffix | main.py:35 | a plain name with a single dot has the suffix from that dot on |
| Api.ValidateFileByEnding | main.py:34-40 | `validate_file` accepts exactly the names whose lower-cased form ends with one of the seven extensions, with at least one character before it; independent of how pathlib computes the suffix |
| Api.ValidateFile | main.py:34-40 | definition of `validate_file`: None when accepted, else the 400 with the unsupported-type detail; `Api.ValidateFileByEnding` states which names it accepts |
| Api.AllowedTypesListed | main.py:32-39 | the list in the 400 detail is the seven extensions joined with ", " |
| Api.RouteOnAllowed | main.py:32-35 | a path ending in an accepted extension takes that extension's extractor branch, never the TXT branch nor "unsupported" |
| Api.ValidatedUploadRoutes | main.py:61-75 | an accepted upload, saved under a temporary name with its suffix, reaches its extension's branch of the extractor |
| Api.TxtRejected | main.py:32-40 | any name made of a plain stem and ".txt" is refused with 400, although the extractor has a TXT branch for it |
| Api.AllowOrigins | main.py:20-21 | the allowed origins are never empty, and no entry has surrounding whitespace or holds a comma |
| Api.OriginsDefault | main.py:20-21 | an unset or empty setting allows every origin, `["*"]` |
| Api.OriginsEntries | main.py:21 | a non-empty setting gives one entry per comma-separated piece, in order, each stripped |
| Api.OriginsRoundTrip | main.py:21 | a setting whose pieces have no surrounding whitespace is read back exactly |
| Api.ProcessSaved | main.py:69-108 | the steps after saving (extract, blank check, classify, wrap, `get`, analyse, wrap, build the response) compute `Process` |
| Api.Process | main.py:69-108 | definition of the steps after saving: extract, the blank check, classify, analyse and the response body; see `Api.ProcessBlank` and `Api.ProcessReturned` |
| Api.TryBody | main.py:58-108 | definition of how the `try` body ends, the file it created and whether `tmp_path` was set; see `Api.TryBodyRefused`, `Api.TryBodySaved` and `Api.TryBodyReturned` |
| Api.CatchAll | main.py:110-112 | definition of `except Exception: raise HTTPException(500, str(e))`; see `Api.AnalyzeFailsOnlyWith500` |
| Api.AnalyzeOutcome | main.py:56-116 | definition of the handler's outcome as written: the response and the file `finally` leaves behind; `Api.Analyze` is the method proved equal to it |
| Api.Analyze | main.py:56-116 | the handler's response is `AnalyzeOutcome`'s response, and the temporary directory gains exactly the file that `finally` leaves behind |
| Api.TryBodyRefused | main.py:61 | a refused upload ends the `try` body with the 400, before any file is created |
| Api.TryBodySaved | main.py:64-75 | once the upload has been read and written, the rest of the body runs on the saved file and `tmp_path` is set |
| Api.TryBodyReturned | main.py:61-108 | only the body that saved the upload returns a response dict |
| Api.ProcessBlank | main.py:77-81 | blank extracted text raises the 422 |
| Api.ProcessReturned | main.py:85-108 | a returned body has the keys filename, document_type and analysis; the type is the one the classifier returned, so the "GeneralDocument" default of `get` never applies; the analysis is a dict |
| Api.HttpErrorStrings | main.py:37-112 | `str()` of the handler's own 400 and 422 exceptions is "400: " or "422: " followed by the detail |
| Api.BlankTextOutcome | main.py:77-116 | blank extracted text ends the request with 500 carrying the 422's `str()`, and the saved file is removed |
| Api.AnalyzeFailsOnlyWith500 | main.py:60-112 | as written, every failure reaches the client as status 500 |
| Api.RefusedUploadIs500 | main.py:37-112 | as written, a refused upload is answered 500 with detail "400: Unsupported file type: …" |
| Api.TxtUploadIs500 | main.py:32-112 | as written, any "<stem>.txt" with a plain stem is answered 500 with the 400's text as detail |
| Api.BlankTextSkipsClassification | main.py:77-112 | blank extracted text is answered 500 with detail "422: …", and the outcome does not depend on the OpenAI service |
| Api.ValidationComesFirst | main.py:61-75 | a refused upload creates no file and calls nothing: its outcome does not depend on any library |
| Api.SuccessShape | main.py:58-108 | a success body has exactly the keys filename, document_type and analysis; the type is the one the classifier returned for the text extracted from the saved temporary file, and the analysis is a dict |
| Api.UnconfiguredIs500 | main.py:85-112 | without an API key, any upload with text is answered 500 with the configuration message |
| Api.ReadFailureLeaksTempFile | main.py:59-116 | as written, the temporary file is left on disk when reading or writing the upload raises |
| Api.SavedFileRemoved | main.py:67-116 | once `tmp_path` is set the file is removed on every exit |
| Api.CorrectedStatuses | main.py:37-112 | corrected, the client gets 400 exactly for a refused extension and 422 exactly for blank text, and 500 for every other failure; successes are unchanged |
| Api.CatchAllButHttp | main.py:110-112 | corrected definition of the `except`: a raised `HTTPException` passes through with its own status; see `Api.CorrectedStatuses` |
| Api.AnalyzeOutcomeCorrected | main.py:56-116 | corrected definition of the handler's outcome; `Api.CorrectedStatuses` states its statuses and `Api.AnalyzeCorrected` is the method proved equal to it |
| Api.AnalyzeCorrected | main.py:56-116 | corrected, the handler leaves the temporary directory as it found it on every path |

## Left out

- Library calls (pdfplumber, python-docx, pandas, PIL, pytesseract, the OpenAI client and `json.loads`) are oracles in `Textract.Libraries` and `OpenAi.Service`. Their outputs are arbitrary, and a call either returns or raises.
- Both `pdfplumber.open` calls on the same bytes are assumed to have the same outcome (`Libraries.pdf`).
- Image preprocessing is left out: sharpening, contrast and brightness factors, unsharp mask, LANCZOS resize with a float scale. The images are opaque `ImageVariant` values. Strategy 2 records how many of its seven steps completed.
- Tesseract path detection, `TESSDATA_PREFIX` and the module-level import probe are left out; one boolean, `Libraries.tesseract`, says whether pytesseract is present.
- The unused `mime_type_hint` argument and the `successful_config` variable, which is only logged, are left out.
- `Extraction.recognitions` counts OCR attempts. It is an observation of the model, not a value the source returns.
- The in-place `all_texts.sort(...)` is modelled as a stable insertion sort on `seq` (`Ranking.SortByLength`), called by `Textract.SelectBest`.
- The wording of the prompts is not reproduced; `ClassificationInstructions` and `BasePrompt` are placeholders. Also not reproduced: the per-field hints of the Aadhar and Passport templates, their closing instructions, and each template's summary hint. Field names, type labels, the two text headers and the verbatim text are exact.
- `classify_document` with `text` None: the handler never passes None.
- JSON floats are not in `PyJson.Json`. A `JObj` with a repeated key stands for no Python dict, and nothing stops the `loads` oracle from returning one: `PyJson.Lookup` then takes the first entry, while `json.loads` keeps the last.
- `PyJson.Repr` does not escape non-printable characters.
- `Text.Lower` folds ASCII letters only. For the suffix tests this is exact: the only non-ASCII character whose lower case is ASCII is the Kelvin sign, which lowers to "k", and no tested suffix contains "k".
- `Api.PathSuffix` follows `PurePosixPath` as it behaves up to Python 3.13: a name ending in a dot has no suffix.
- The FastAPI app, the CORS middleware wiring, async/await, the `/` and `/health` endpoints and logging are left out.
- A failing `os.remove`, and a `close()` that raises at the end of the `with` block, are left out.
- The upload's `filename` is always a string.
- The scripts (`test_*.py`, `verify_setup.py`) drive a live server or the Tesseract binary, so they are left out.
- Api.AnalyzeOutcomeCorrected: its `leftover` is None by construction. The removal itself is proved on the directory state by `Api.AnalyzeCorrected`.

## Findings

| source | as written | input that shows it | evidently intended | confidence | as-written member | corrected member |
|---|---|---|---|---|---|---|
| main.py:37-40, 78-81, 110-112 | `validate_file`'s 400 and the blank-text 422 are raised inside the `try`. `except Exception` catches them and re-raises them as 500 with detail `str(e)`. | upload "notes.txt": the client gets 500 "400: Unsupported file type: .txt. Allowed types: .pdf, .docx, .csv, .xlsx, .png, .jpg, .jpeg" | the 400 and 422 reach the client with their own status and detail | not executed | Api.TxtUploadIs500 | Api.CorrectedStatuses |
| main.py:59, 64-67, 113-116 | `tmp_path` is set only after `await file.read()` and `tmp.write(...)` succeed. The file was created with `delete=False`. | an upload whose read (or the write) raises: `finally` sees `tmp_path` None and the temporary file stays on disk | the temporary file is removed on every exit once it exists | not executed | Api.ReadFailureLeaksTempFile | Api.AnalyzeCorrected |
