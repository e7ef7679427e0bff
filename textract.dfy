/** `extract_text_from_upload`: route a stored upload on its lower-cased path suffix
    and return its text, stripped, with "" meaning that nothing could be extracted.
    Every parsing and recognition library is an oracle held in `Libraries`. */
module Textract {
  import opened Outcomes
  import opened Text
  import opened Ranking

  // ---------------------------------------------------------------------------
  // Routing
  // ---------------------------------------------------------------------------

  datatype TableReader = Csv | Excel

  /** The extraction path chosen for a file. */
  datatype Branch = Pdf | Docx | Txt | Table(reader: TableReader) | Image | Unsupported

  /** The suffix tests of the dispatcher, in the order it makes them, on the
      lower-cased full path. */
  function Route(path: string): Branch {
    RouteOn(Lower(path))
  }

  function RouteOn(ext: string): Branch {
    if EndsWith(ext, ".pdf") then Pdf
    else if EndsWith(ext, ".docx") then Docx
    else if EndsWith(ext, ".txt") then Txt
    else if EndsWith(ext, ".xlsx") || EndsWith(ext, ".csv") then
      Table(if EndsWith(ext, ".csv") then Csv else Excel)
    else if EndsWith(ext, ".png") || EndsWith(ext, ".jpg") || EndsWith(ext, ".jpeg") then Image
    else Unsupported
  }

  /** Every suffix the dispatcher tests. */
  const RoutedSuffixes: seq<string> := [".pdf", ".docx", ".txt", ".xlsx", ".csv", ".png", ".jpg", ".jpeg"]

  /** When a string ends with two suffixes, the shorter is a suffix of the longer. */
  lemma EndsWithBoth(s: string, t: string, u: string)
    requires EndsWith(s, t) && EndsWith(s, u) && |t| <= |u|
    ensures EndsWith(u, t)
  {
    assert u[|u| - |t|..] == s[|s| - |t|..];
  }

  /** A path ends with at most one of the routed suffixes. */
  lemma RoutedSuffixesExclusive(ext: string, t: string, u: string)
    requires t in RoutedSuffixes && u in RoutedSuffixes
    requires EndsWith(ext, t) && EndsWith(ext, u)
    ensures t == u
  {
    if |t| <= |u| { EndsWithBoth(ext, t, u); } else { EndsWithBoth(ext, u, t); }
  }

  /** Exactly one branch is taken, and each branch is taken exactly for its own
      suffixes, whatever the order of the tests; any other path is unsupported. */
  lemma RouteCharacterised(path: string)
    ensures var ext := Lower(path);
      && (Route(path) == Pdf <==> EndsWith(ext, ".pdf"))
      && (Route(path) == Docx <==> EndsWith(ext, ".docx"))
      && (Route(path) == Txt <==> EndsWith(ext, ".txt"))
      && (Route(path) == Table(Excel) <==> EndsWith(ext, ".xlsx"))
      && (Route(path) == Table(Csv) <==> EndsWith(ext, ".csv"))
      && (Route(path) == Image <==> EndsWith(ext, ".png") || EndsWith(ext, ".jpg") || EndsWith(ext, ".jpeg"))
      && (Route(path) == Unsupported <==> forall t :: t in RoutedSuffixes ==> !EndsWith(ext, t))
  {
    RouteOnCharacterised(Lower(path));
  }

  lemma RouteOnCharacterised(ext: string)
    ensures && (RouteOn(ext) == Pdf <==> EndsWith(ext, ".pdf"))
      && (RouteOn(ext) == Docx <==> EndsWith(ext, ".docx"))
      && (RouteOn(ext) == Txt <==> EndsWith(ext, ".txt"))
      && (RouteOn(ext) == Table(Excel) <==> EndsWith(ext, ".xlsx"))
      && (RouteOn(ext) == Table(Csv) <==> EndsWith(ext, ".csv"))
      && (RouteOn(ext) == Image <==> EndsWith(ext, ".png") || EndsWith(ext, ".jpg") || EndsWith(ext, ".jpeg"))
      && (RouteOn(ext) == Unsupported <==> forall t :: t in RoutedSuffixes ==> !EndsWith(ext, t))
  {
    SuffixTails(ext);
    assert forall t :: t in RoutedSuffixes <==>
      t == ".pdf" || t == ".docx" || t == ".txt" || t == ".xlsx" || t == ".csv" || t == ".png" || t == ".jpg" || t == ".jpeg";
  }

  /** The routed suffixes differ in their last two characters, so a path ends with
      at most one of them. */
  lemma SuffixTails(ext: string)
    ensures EndsWith(ext, ".pdf") ==> LastTwo(ext) == ('d', 'f')
    ensures EndsWith(ext, ".docx") ==> LastTwo(ext) == ('c', 'x')
    ensures EndsWith(ext, ".txt") ==> LastTwo(ext) == ('x', 't')
    ensures EndsWith(ext, ".xlsx") ==> LastTwo(ext) == ('s', 'x')
    ensures EndsWith(ext, ".csv") ==> LastTwo(ext) == ('s', 'v')
    ensures EndsWith(ext, ".png") ==> LastTwo(ext) == ('n', 'g')
    ensures EndsWith(ext, ".jpg") ==> LastTwo(ext) == ('p', 'g')
    ensures EndsWith(ext, ".jpeg") ==> LastTwo(ext) == ('e', 'g')
  {
    if EndsWith(ext, ".pdf") { EndsWithLastTwo(ext, ".pdf"); }
    if EndsWith(ext, ".docx") { EndsWithLastTwo(ext, ".docx"); }
    if EndsWith(ext, ".txt") { EndsWithLastTwo(ext, ".txt"); }
    if EndsWith(ext, ".xlsx") { EndsWithLastTwo(ext, ".xlsx"); }
    if EndsWith(ext, ".csv") { EndsWithLastTwo(ext, ".csv"); }
    if EndsWith(ext, ".png") { EndsWithLastTwo(ext, ".png"); }
    if EndsWith(ext, ".jpg") { EndsWithLastTwo(ext, ".jpg"); }
    if EndsWith(ext, ".jpeg") { EndsWithLastTwo(ext, ".jpeg"); }
  }

  /** The last two characters of a string of length two or more. */
  function LastTwo(s: string): (char, char)
    requires |s| >= 2
  {
    (s[|s| - 2], s[|s| - 1])
  }

  lemma EndsWithLastTwo(s: string, t: string)
    requires |t| >= 2 && EndsWith(s, t)
    ensures |s| >= 2 && LastTwo(s) == LastTwo(t)
  {
    assert s[|s| - 2] == s[|s| - |t|..][|t| - 2];
  }

  // ---------------------------------------------------------------------------
  // What the libraries report
  // ---------------------------------------------------------------------------

  /** One PDF page: its `extract_text()` (None when the page has no text layer) and
      the OCR of its 200 dpi rendering (`to_image` then `image_to_string`). */
  datatype PdfPage = PdfPage(text: Attempt<Option<string>>, ocr: Attempt<string>)

  /** How far the enhanced preprocessing of strategy 2 got: the number of its seven
      steps that completed (convert to RGB, to grayscale, two sharpen passes,
      contrast, brightness, resize). */
  const EnhanceSteps: nat := 7
  type EnhanceProgress = n: nat | n <= EnhanceSteps

  /** The images that recognition is run on; the pixels are not modelled. */
  datatype ImageVariant =
    | Original               // the image as loaded
    | Enhanced(steps: nat)   // strategy 2's image after that many steps
    | Aggressive             // strategy 3's image
    | Grayscale              // the original converted to mode 'L'

  /** Whether strategy 4's fallback image needed a conversion to grayscale. */
  datatype GrayConversion = AlreadyGray | Converted | ConversionFailed

  datatype Strategy = NoPreprocessing | EnhancedPreprocessing | AggressivePreprocessing | Multilang

  /** One `pytesseract.image_to_string(image, lang=..., config=...)` call. */
  datatype OcrCall = OcrCall(strategy: Strategy, image: ImageVariant, lang: string, config: string)

  /** What the image libraries do with one uploaded image. */
  datatype ImageOracle = ImageOracle(
    opens: bool,                          // Image.open and copy succeed
    enhanced: EnhanceProgress,            // steps of strategy 2 that completed
    aggressiveOk: bool,                   // strategy 3's preprocessing completes
    gray: GrayConversion,                 // strategy 4's conversion when strategy 2 bound no image
    recognize: OcrCall -> Attempt<string>)

  /** The outcome of every library call the dispatcher may make for one upload. */
  datatype Libraries = Libraries(
    tesseract: bool,                        // pytesseract imported
    pdf: Attempt<seq<PdfPage>>,             // pdfplumber.open
    docx: Attempt<seq<string>>,             // python-docx paragraph texts
    utf8: Attempt<string>,                  // bytes.decode('utf-8')
    table: TableReader -> Attempt<string>,  // pandas read_csv/read_excel, then to_string(index=False)
    image: ImageOracle)

  // ---------------------------------------------------------------------------
  // PDF
  // ---------------------------------------------------------------------------

  /** `"".join(page.extract_text() or "" for page in pdf.pages)`: page texts in page
      order with no separator, a missing text counting as ""; the first page whose
      extraction raises aborts the join. */
  function DirectPdfText(pages: seq<PdfPage>): (r: Attempt<string>)
    ensures r.Done? <==> forall i :: 0 <= i < |pages| ==> pages[i].text.Done?
  {
    if pages == [] then Done("")
    else
      match pages[0].text
      case Raised(m) => Raised(m)
      case Done(t) =>
        var rest := DirectPdfText(pages[1..]);
        assert forall i :: 1 <= i < |pages| ==> pages[i] == pages[1..][i - 1];
        match rest
        case Raised(m) => Raised(m)
        case Done(s) => Done(t.GetOr("") + s)
  }

  /** Only the first five pages are rendered for OCR. */
  const MaxOcrPages: nat := 5

  function OcrWindow(pages: seq<PdfPage>): seq<PdfPage> {
    if |pages| <= MaxOcrPages then pages else pages[..MaxOcrPages]
  }

  /** The stripped OCR text of one page, kept only when it is not blank; a page
      whose rendering or recognition raises contributes nothing. */
  function PageOcrText(ocr: Attempt<string>): seq<string> {
    if ocr.Done? && !IsBlank(ocr.value) then [Strip(ocr.value)] else []
  }

  /** The texts `extracted_text` collects over `pages`, in page order. */
  function PageOcrTexts(pages: seq<PdfPage>): (ts: seq<string>)
    ensures |ts| <= |pages|
    ensures forall i :: 0 <= i < |ts| ==> Stripped(ts[i]) && !IsBlank(ts[i])
  {
    if pages == [] then []
    else PageOcrTexts(pages[..|pages| - 1]) + PageOcrText(pages[|pages| - 1].ocr)
  }

  /** One more page adds that page's own text. */
  lemma PageOcrTextsSnoc(pages: seq<PdfPage>, i: nat)
    requires i < |pages|
    ensures PageOcrTexts(pages[..i + 1]) == PageOcrTexts(pages[..i]) + PageOcrText(pages[i].ocr)
  {
    assert pages[..i + 1][..i] == pages[..i];
  }

  /** The OCR fallback's text for a PDF. */
  function PdfOcrText(pages: seq<PdfPage>): string {
    Join("\n", PageOcrTexts(OcrWindow(pages)))
  }

  /** The OCR fallback already yields a stripped string, which is blank exactly when
      no page of the window produced text. */
  lemma PdfOcrTextStripped(pages: seq<PdfPage>)
    ensures Stripped(PdfOcrText(pages))
    ensures IsBlank(PdfOcrText(pages)) <==> PageOcrTexts(OcrWindow(pages)) == []
  {
    JoinOfStrippedParts("\n", PageOcrTexts(OcrWindow(pages)));
  }

  /** The page loop of the OCR fallback: at most five pages, each one tried on its
      own. */
  method OcrPdfPages(pages: seq<PdfPage>) returns (result: string, attempts: nat)
    ensures result == PdfOcrText(pages)
    ensures attempts == |OcrWindow(pages)| && attempts <= MaxOcrPages
  {
    var window := OcrWindow(pages);
    var extracted: seq<string> := [];
    for i := 0 to |window|
      invariant extracted == PageOcrTexts(window[..i])
    {
      var outcome := window[i].ocr;
      PageOcrTextsSnoc(window, i);
      if outcome.Done? {
        var text := outcome.value;
        if !IsBlank(text) {
          extracted := extracted + [Strip(text)];
        }
      }
    }
    assert window[..|window|] == window;
    result := Join("\n", extracted);
    attempts := |window|;
  }

  // ---------------------------------------------------------------------------
  // Images
  // ---------------------------------------------------------------------------

  const Strategy2Configs: seq<string> := [
    "--oem 3 --psm 3", "--oem 3 --psm 6", "--oem 3 --psm 11", "--oem 3 --psm 4",
    "--oem 3 --psm 12", "--oem 3 --psm 1", "--oem 3 --psm 0"]
  const Strategy3Configs: seq<string> := ["--oem 3 --psm 6", "--oem 3 --psm 11", "--oem 3 --psm 3"]
  const Strategy4Langs: seq<string> := ["hin+eng", "eng+hin", "eng"]
  const Strategy4Configs: seq<string> := ["--oem 3 --psm 6", "--oem 3 --psm 11"]

  /** Strategy 1: the loaded image, English, Tesseract's default configuration. */
  function FirstPass(): OcrCall {
    OcrCall(NoPreprocessing, Original, "eng", "")
  }

  /** One call per configuration, in list order, all on the same image and language. */
  function ConfigPasses(strategy: Strategy, image: ImageVariant, lang: string, configs: seq<string>): (r: seq<OcrCall>)
    ensures |r| == |configs|
  {
    seq(|configs|, i requires 0 <= i < |configs| => OcrCall(strategy, image, lang, configs[i]))
  }

  /** Strategy 2: seven page-segmentation modes, only when all preprocessing steps
      completed. */
  function EnhancedPasses(o: ImageOracle): seq<OcrCall> {
    if o.enhanced == EnhanceSteps then ConfigPasses(EnhancedPreprocessing, Enhanced(EnhanceSteps), "eng", Strategy2Configs)
    else []
  }

  /** Strategy 3: three modes on the aggressively preprocessed image. */
  function AggressivePasses(o: ImageOracle): seq<OcrCall> {
    if o.aggressiveOk then ConfigPasses(AggressivePreprocessing, Aggressive, "eng", Strategy3Configs)
    else []
  }

  /** Strategy 4's image: strategy 2's `processed_image` as far as it got, if it was
      bound at all, otherwise the original in grayscale. */
  function MultilangImage(o: ImageOracle): Option<ImageVariant> {
    if o.enhanced >= 1 then Some(Enhanced(o.enhanced))
    else
      match o.gray
      case AlreadyGray => Some(Original)
      case Converted => Some(Grayscale)
      case ConversionFailed => None
  }

  /** The passes for the given language settings, languages outermost. */
  function LangPasses(image: ImageVariant, langs: seq<string>): (r: seq<OcrCall>)
    ensures |r| == |langs| * |Strategy4Configs|
  {
    if langs == [] then []
    else LangPasses(image, langs[..|langs| - 1]) + ConfigPasses(Multilang, image, langs[|langs| - 1], Strategy4Configs)
  }

  lemma LangPassesSnoc(image: ImageVariant, langs: seq<string>, li: nat)
    requires li < |langs|
    ensures LangPasses(image, langs[..li + 1]) == LangPasses(image, langs[..li]) + ConfigPasses(Multilang, image, langs[li], Strategy4Configs)
  {
    assert langs[..li + 1][..li] == langs[..li];
  }

  /** Strategy 4: three language settings times two modes. */
  function MultilangPasses(o: ImageOracle): seq<OcrCall> {
    match MultilangImage(o)
    case None => []
    case Some(img) => LangPasses(img, Strategy4Langs)
  }

  /** Every recognition call the image branch makes, in order. None depends on what
      an earlier call returned or whether it raised. */
  function ImageCalls(o: ImageOracle): seq<OcrCall> {
    if !o.opens then []
    else [FirstPass()] + EnhancedPasses(o) + AggressivePasses(o) + MultilangPasses(o)
  }

  /** The strategy name stored with a candidate. */
  function StrategyName(c: OcrCall): string {
    match c.strategy
    case NoPreprocessing => "no_preprocessing"
    case EnhancedPreprocessing => "enhanced_preprocessing_" + c.config
    case AggressivePreprocessing => "aggressive_preprocessing_" + c.config
    case Multilang => "multilang_" + c.lang + "_" + c.config
  }

  /** What one call adds to `all_texts`: its stripped text when that is not blank. */
  function CandidateOf(c: OcrCall, outcome: Attempt<string>): seq<Candidate> {
    if outcome.Done? && !IsBlank(outcome.value) then [Candidate(StrategyName(c), Strip(outcome.value))] else []
  }

  /** `all_texts` after the given calls. */
  function CandidatesOf(calls: seq<OcrCall>, recognize: OcrCall -> Attempt<string>): (cs: seq<Candidate>)
    ensures |cs| <= |calls|
    ensures forall i :: 0 <= i < |cs| ==> Stripped(cs[i].text) && !IsBlank(cs[i].text)
  {
    if calls == [] then []
    else
      var last := calls[|calls| - 1];
      CandidatesOf(calls[..|calls| - 1], recognize) + CandidateOf(last, recognize(last))
  }

  /** The image branch's answer: the first element after the stable longest-first
      sort, or "" when no call produced text. */
  function ImageText(o: ImageOracle): string {
    var cs := CandidatesOf(ImageCalls(o), o.recognize);
    if cs == [] then "" else SortByLength(cs)[0].text
  }

  /** One image triggers at most 1 + 7 + 3 + 6 = 17 recognition calls, all 17 when
      every preprocessing step succeeds, and none when the image cannot be opened. */
  lemma ImageCallBound(o: ImageOracle)
    ensures |ImageCalls(o)| <= 17
    ensures o.opens && o.enhanced == EnhanceSteps && o.aggressiveOk ==> |ImageCalls(o)| == 17
    ensures !o.opens ==> ImageCalls(o) == []
  {
  }

  /** A failing recognition call is swallowed: which calls are made does not depend
      on the recognition results. */
  lemma ImageCallsIgnoreResults(o: ImageOracle, other: OcrCall -> Attempt<string>)
    ensures ImageCalls(o) == ImageCalls(o.(recognize := other))
  {
  }

  /** The image text is the earliest longest candidate, it is stripped, and it is ""
      exactly when there is no candidate. */
  lemma ImageTextIsEarliestLongest(o: ImageOracle)
    ensures var cs := CandidatesOf(ImageCalls(o), o.recognize);
      && Stripped(ImageText(o))
      && (ImageText(o) == "" <==> cs == [])
      && (forall k :: IsEarliestLongest(cs, k) ==> ImageText(o) == cs[k].text)
      && (cs != [] ==> exists k :: IsEarliestLongest(cs, k) && ImageText(o) == cs[k].text)
  {
    var cs := CandidatesOf(ImageCalls(o), o.recognize);
    if cs != [] {
      EarliestLongestExists(cs);
      var k :| IsEarliestLongest(cs, k);
      SortedHeadIsEarliestLongest(cs, k);
      forall k' | IsEarliestLongest(cs, k') ensures ImageText(o) == cs[k'].text {
        SortedHeadIsEarliestLongest(cs, k');
      }
    }
  }

  /** The body of one pass of strategies 2 to 4: a non-blank result is kept as a
      candidate, and `text` tracks the longest raw result seen so far. */
  method RunPass(o: ImageOracle, call: OcrCall, text: string, allTexts: seq<Candidate>)
    returns (text': string, allTexts': seq<Candidate>)
    ensures allTexts' == allTexts + CandidateOf(call, o.recognize(call))
    ensures (allTexts == [] ==> IsBlank(text)) ==> (allTexts' == [] ==> IsBlank(text'))
  {
    text', allTexts' := text, allTexts;
    var outcome := o.recognize(call);
    if outcome.Done? {
      var tempText := outcome.value;
      if !IsBlank(tempText) {
        allTexts' := allTexts' + [Candidate(StrategyName(call), Strip(tempText))];
        if IsBlank(text') || |tempText| > |text'| {
          text' := tempText;
        }
      }
    }
  }

  /** Appending one call extends the candidates by that call's own contribution. */
  lemma CandidatesOfSnoc(calls: seq<OcrCall>, c: OcrCall, recognize: OcrCall -> Attempt<string>)
    ensures CandidatesOf(calls + [c], recognize) == CandidatesOf(calls, recognize) + CandidateOf(c, recognize(c))
  {
    assert (calls + [c])[..|calls|] == calls;
  }

  /** The state of the image branch between calls: `all_texts` holds the candidates of
      the calls made so far, and `text` is blank while there is none. */
  ghost predicate Tracks(o: ImageOracle, calls: seq<OcrCall>, text: string, allTexts: seq<Candidate>) {
    allTexts == CandidatesOf(calls, o.recognize) && (allTexts == [] ==> IsBlank(text))
  }

  lemma AppendAssoc<T>(a: seq<T>, b: seq<T>, c: seq<T>)
    ensures (a + b) + c == a + (b + c)
  {
  }

  /** The candidates of two runs of calls, one after the other. */
  lemma {:induction false} CandidatesAppend(a: seq<OcrCall>, b: seq<OcrCall>, recognize: OcrCall -> Attempt<string>)
    ensures CandidatesOf(a + b, recognize) == CandidatesOf(a, recognize) + CandidatesOf(b, recognize)
    decreases |b|
  {
    if b == [] {
      assert a + b == a;
    } else {
      var init := b[..|b| - 1];
      var last := b[|b| - 1];
      assert (a + b)[..|a + b| - 1] == a + init;
      CandidatesAppend(a, init, recognize);
      AppendAssoc(CandidatesOf(a, recognize), CandidatesOf(init, recognize), CandidateOf(last, recognize(last)));
    }
  }

  /** The loop `for ... in ...:` of strategies 2 to 4 over a run of calls, each
      failure swallowed. */
  method RunCalls(o: ImageOracle, todo: seq<OcrCall>, text: string, allTexts: seq<Candidate>)
    returns (text': string, allTexts': seq<Candidate>)
    requires allTexts == [] ==> IsBlank(text)
    ensures allTexts' == allTexts + CandidatesOf(todo, o.recognize)
    ensures allTexts' == [] ==> IsBlank(text')
  {
    text', allTexts' := text, allTexts;
    for i := 0 to |todo|
      invariant allTexts' == allTexts + CandidatesOf(todo[..i], o.recognize)
      invariant allTexts' == [] ==> IsBlank(text')
    {
      assert todo[..i + 1][..i] == todo[..i];
      AppendAssoc(allTexts, CandidatesOf(todo[..i], o.recognize), CandidateOf(todo[i], o.recognize(todo[i])));
      text', allTexts' := RunPass(o, todo[i], text', allTexts');
    }
    assert todo[..|todo|] == todo;
  }

  /** `for config in configs:` one pass per configuration. */
  method RunConfigs(o: ImageOracle, strategy: Strategy, image: ImageVariant, lang: string, configs: seq<string>,
                    calls: seq<OcrCall>, text: string, allTexts: seq<Candidate>)
    returns (calls': seq<OcrCall>, text': string, allTexts': seq<Candidate>)
    requires Tracks(o, calls, text, allTexts)
    ensures calls' == calls + ConfigPasses(strategy, image, lang, configs)
    ensures Tracks(o, calls', text', allTexts')
  {
    var passes := ConfigPasses(strategy, image, lang, configs);
    text', allTexts' := RunCalls(o, passes, text, allTexts);
    calls' := calls + passes;
    CandidatesAppend(calls, passes, o.recognize);
  }

  /** Strategy 4: `for lang in languages_to_try: for config in ...`. */
  method RunLanguages(o: ImageOracle, image: ImageVariant, langs: seq<string>,
                      calls: seq<OcrCall>, text: string, allTexts: seq<Candidate>)
    returns (calls': seq<OcrCall>, text': string, allTexts': seq<Candidate>)
    requires Tracks(o, calls, text, allTexts)
    ensures calls' == calls + LangPasses(image, langs)
    ensures Tracks(o, calls', text', allTexts')
  {
    calls', text', allTexts' := calls, text, allTexts;
    for li := 0 to |langs|
      invariant calls' == calls + LangPasses(image, langs[..li])
      invariant Tracks(o, calls', text', allTexts')
    {
      LangPassesSnoc(image, langs, li);
      calls', text', allTexts' := RunConfigs(o, Multilang, image, langs[li], Strategy4Configs, calls', text', allTexts');
      AppendAssoc(calls, LangPasses(image, langs[..li]), ConfigPasses(Multilang, image, langs[li], Strategy4Configs));
    }
    assert langs[..|langs|] == langs;
  }

  /** The selection after the cascade: the head of the stable longest-first sort
      replaces `text` when they differ, and the stripped `text` is returned. */
  method SelectBest(o: ImageOracle, text: string, allTexts: seq<Candidate>) returns (result: string)
    requires Tracks(o, ImageCalls(o), text, allTexts)
    ensures result == ImageText(o)
  {
    ImageTextIsEarliestLongest(o);
    result := text;
    var sorted := allTexts;
    if sorted != [] {
      sorted := SortByLength(sorted);
      var best := sorted[0];
      if best.text != result {
        result := best.text;
      }
    }
    if !IsBlank(result) {
      StripStripped(result);
      result := Strip(result);
    } else {
      result := "";
    }
  }

  /** Strategy 2: enhanced preprocessing, seven configurations, skipped when a
      preprocessing step fails. */
  method RunEnhanced(o: ImageOracle, calls: seq<OcrCall>, text: string, allTexts: seq<Candidate>)
    returns (calls': seq<OcrCall>, text': string, allTexts': seq<Candidate>)
    requires Tracks(o, calls, text, allTexts)
    ensures calls' == calls + EnhancedPasses(o)
    ensures Tracks(o, calls', text', allTexts')
  {
    if o.enhanced == EnhanceSteps {
      calls', text', allTexts' := RunConfigs(o, EnhancedPreprocessing, Enhanced(EnhanceSteps), "eng", Strategy2Configs, calls, text, allTexts);
    } else {
      calls', text', allTexts' := calls, text, allTexts;
      assert calls + [] == calls;
    }
  }

  /** Strategy 3: aggressive preprocessing, three configurations. */
  method RunAggressive(o: ImageOracle, calls: seq<OcrCall>, text: string, allTexts: seq<Candidate>)
    returns (calls': seq<OcrCall>, text': string, allTexts': seq<Candidate>)
    requires Tracks(o, calls, text, allTexts)
    ensures calls' == calls + AggressivePasses(o)
    ensures Tracks(o, calls', text', allTexts')
  {
    if o.aggressiveOk {
      calls', text', allTexts' := RunConfigs(o, AggressivePreprocessing, Aggressive, "eng", Strategy3Configs, calls, text, allTexts);
    } else {
      calls', text', allTexts' := calls, text, allTexts;
      assert calls + [] == calls;
    }
  }

  /** Strategy 4: Hindi and English language models, two configurations each, on the
      image strategy 2 left behind or on a grayscale copy of the original. */
  method RunMultilang(o: ImageOracle, calls: seq<OcrCall>, text: string, allTexts: seq<Candidate>)
    returns (calls': seq<OcrCall>, text': string, allTexts': seq<Candidate>)
    requires Tracks(o, calls, text, allTexts)
    ensures calls' == calls + MultilangPasses(o)
    ensures Tracks(o, calls', text', allTexts')
  {
    var image := MultilangImage(o);
    if image.Some? {
      calls', text', allTexts' := RunLanguages(o, image.value, Strategy4Langs, calls, text, allTexts);
    } else {
      calls', text', allTexts' := calls, text, allTexts;
      assert calls + [] == calls;
    }
  }

  /** The image branch once Tesseract is known to be present: the cascade of four
      strategies, each call's failure swallowed, then the longest candidate. */
  method ExtractImageText(o: ImageOracle) returns (text: string, calls: seq<OcrCall>)
    ensures calls == ImageCalls(o)
    ensures text == ImageText(o)
  {
    if !o.opens {
      return "", [];
    }
    var allTexts: seq<Candidate> := [];
    text := "";

    // Strategy 1: no preprocessing.
    var call := FirstPass();
    calls := [call];
    var outcome := o.recognize(call);
    if outcome.Done? {
      text := outcome.value;
      if !IsBlank(text) {
        allTexts := allTexts + [Candidate(StrategyName(call), Strip(text))];
      }
    }
    CandidatesOfSnoc([], call, o.recognize);
    assert Tracks(o, calls, text, allTexts);

    calls, text, allTexts := RunEnhanced(o, calls, text, allTexts);
    calls, text, allTexts := RunAggressive(o, calls, text, allTexts);
    calls, text, allTexts := RunMultilang(o, calls, text, allTexts);

    // Select the best result: the longest, ties to the earliest.
    text := SelectBest(o, text, allTexts);
  }

  // ---------------------------------------------------------------------------
  // The dispatcher
  // ---------------------------------------------------------------------------

  /** The text returned for an upload and the number of OCR attempts spent on it
      (PDF pages rendered for OCR, or image recognition calls). */
  datatype Extraction = Extraction(text: string, recognitions: nat)

  /** Text of a single-attempt extractor: its stripped output, "" when it raises. */
  function SingleAttemptText(a: Attempt<string>): string {
    if a.Done? then Strip(a.value) else ""
  }

  function PdfExtraction(libs: Libraries): Extraction {
    match libs.pdf
    case Raised(_) => Extraction("", 0)
    case Done(pages) =>
      var direct := DirectPdfText(pages);
      if direct.Done? && !IsBlank(direct.value) then Extraction(Strip(direct.value), 0)
      else if !libs.tesseract then Extraction("", 0)
      else Extraction(Strip(PdfOcrText(pages)), |OcrWindow(pages)|)
  }

  /** What the branch `b` of the dispatcher returns. */
  function ExtractOn(b: Branch, libs: Libraries): Extraction {
    match b
    case Pdf => PdfExtraction(libs)
    case Docx => Extraction(if libs.docx.Done? then Strip(Join("\n", libs.docx.value)) else "", 0)
    case Txt => Extraction(SingleAttemptText(libs.utf8), 0)
    case Table(reader) => Extraction(SingleAttemptText(libs.table(reader)), 0)
    case Image =>
      if !libs.tesseract then Extraction("", 0)
      else Extraction(ImageText(libs.image), |ImageCalls(libs.image)|)
    case Unsupported => Extraction("", 0)
  }

  /** What `extract_text_from_upload` returns for a stored file at `path`. */
  function Extract(path: string, libs: Libraries): Extraction {
    ExtractOn(Route(path), libs)
  }

  /** Branch 1: direct text of a digital PDF, else OCR of its first pages. */
  method ExtractPdf(libs: Libraries) returns (text: string, recognitions: nat)
    ensures Extraction(text, recognitions) == PdfExtraction(libs)
  {
    recognitions := 0;
    if libs.pdf.Done? {
      var direct := DirectPdfText(libs.pdf.value);
      if direct.Done? && !IsBlank(direct.value) {
        return Strip(direct.value), 0;
      }
      if libs.tesseract {
        var result;
        result, recognitions := OcrPdfPages(libs.pdf.value);
        if !IsBlank(result) {
          return Strip(result), recognitions;
        }
      }
    }
    return "", recognitions;
  }

  /** Branch 5: the OCR cascade, or "" at once when Tesseract is missing. */
  method ExtractImage(libs: Libraries) returns (text: string, recognitions: nat)
    ensures Extraction(text, recognitions) == ExtractOn(Image, libs)
  {
    if !libs.tesseract {
      return "", 0;
    }
    var calls;
    text, calls := ExtractImageText(libs.image);
    recognitions := |calls|;
  }

  /** Branch 2: the paragraphs of a Word document, one per line. */
  method ExtractDocx(libs: Libraries) returns (text: string)
    ensures Extraction(text, 0) == ExtractOn(Docx, libs)
  {
    if libs.docx.Done? {
      var fullText := Join("\n", libs.docx.value);
      if !IsBlank(fullText) {
        return Strip(fullText);
      }
    }
    return "";
  }

  /** Branches 3 and 4: a single decode or table rendering, no fallback. */
  method ExtractSingle(a: Attempt<string>) returns (text: string)
    ensures text == SingleAttemptText(a)
  {
    if a.Done? && !IsBlank(a.value) {
      return Strip(a.value);
    }
    return "";
  }

  /** The dispatcher: the suffix tests of `Route`, then the chosen branch; a path
      matching none of them falls through to `return ""`. */
  method ExtractTextFromUpload(path: string, libs: Libraries) returns (text: string, recognitions: nat)
    ensures Extraction(text, recognitions) == Extract(path, libs)
  {
    var branch := Route(path);
    recognitions := 0;
    match branch
    case Pdf =>
      text, recognitions := ExtractPdf(libs);
    case Docx =>
      text := ExtractDocx(libs);
    case Txt =>
      text := ExtractSingle(libs.utf8);
    case Table(reader) =>
      text := ExtractSingle(libs.table(reader));
    case Image =>
      text, recognitions := ExtractImage(libs);
    case Unsupported =>
      text := "";
  }

  // ---------------------------------------------------------------------------
  // Properties of the dispatcher
  // ---------------------------------------------------------------------------

  /** Every exit path returns a stripped string; failure is "". */
  lemma ExtractStripped(path: string, libs: Libraries)
    ensures Stripped(Extract(path, libs).text)
  {
    var b := Route(path);
    if b == Image && libs.tesseract {
      ImageTextIsEarliestLongest(libs.image);
    }
  }

  /** Only the PDF and image branches run OCR; an unsupported suffix yields "". */
  lemma OnlyPdfAndImagesRecognize(path: string, libs: Libraries)
    ensures Route(path) != Pdf && Route(path) != Image ==> Extract(path, libs).recognitions == 0
    ensures Route(path) == Unsupported ==> Extract(path, libs) == Extraction("", 0)
  {
  }

  /** A PDF whose direct text is not blank returns that text stripped and is never
      OCR'd. */
  lemma DirectPdfTextWins(path: string, libs: Libraries, pages: seq<PdfPage>)
    requires Route(path) == Pdf && libs.pdf == Done(pages)
    requires DirectPdfText(pages).Done? && !IsBlank(DirectPdfText(pages).value)
    ensures Extract(path, libs) == Extraction(Strip(DirectPdfText(pages).value), 0)
  {
  }

  /** Otherwise, with Tesseract present, the result is the non-blank stripped OCR
      texts of the first five pages joined by newlines, and "" when there are none. */
  lemma PdfOcrFallback(path: string, libs: Libraries, pages: seq<PdfPage>)
    requires Route(path) == Pdf && libs.pdf == Done(pages) && libs.tesseract
    requires !(DirectPdfText(pages).Done? && !IsBlank(DirectPdfText(pages).value))
    ensures Extract(path, libs).text == Join("\n", PageOcrTexts(OcrWindow(pages)))
    ensures Extract(path, libs).text == "" <==> PageOcrTexts(OcrWindow(pages)) == []
    ensures Extract(path, libs).recognitions == |OcrWindow(pages)| <= MaxOcrPages
  {
    PdfOcrTextStripped(pages);
    StripStripped(PdfOcrText(pages));
  }

  /** A DOCX yields its paragraphs joined by newlines and stripped; it yields "" when
      every paragraph is blank, or when the document cannot be read. */
  lemma DocxParagraphs(path: string, libs: Libraries, paragraphs: seq<string>)
    requires Route(path) == Docx && libs.docx == Done(paragraphs)
    ensures Extract(path, libs).text == Strip(Join("\n", paragraphs))
    ensures Extract(path, libs).text == "" <==> forall i :: 0 <= i < |paragraphs| ==> IsBlank(paragraphs[i])
  {
    assert Extract(path, libs).text == Strip(Join("\n", paragraphs));
    ParagraphsBlank(paragraphs);
  }

  /** The joined paragraphs strip to "" exactly when every paragraph is blank. */
  lemma ParagraphsBlank(paragraphs: seq<string>)
    ensures Strip(Join("\n", paragraphs)) == "" <==> forall i :: 0 <= i < |paragraphs| ==> IsBlank(paragraphs[i])
  {
    assert IsBlank("\n");
    JoinBlank("\n", paragraphs);
  }

  /** Without Tesseract an image yields "" with no recognition attempt; with it, at
      most 17 calls are made. */
  lemma ImageRecognitionBudget(path: string, libs: Libraries)
    requires Route(path) == Image
    ensures !libs.tesseract ==> Extract(path, libs) == Extraction("", 0)
    ensures Extract(path, libs).recognitions <= 17
  {
    ImageCallBound(libs.image);
  }
}
