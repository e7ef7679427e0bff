/** `openai_service.py`: the two chat-completion calls of the analyzer (document
    classification and type-specific extraction), reduced to what the service does
    with the reply, and the prompt dispatch `_get_kyc_prompt`. The remote call and
    `json.loads` are oracles held in `Service`. */
module OpenAi {
  import opened Outcomes
  import opened Text
  import opened PyJson

  // ---------------------------------------------------------------------------
  // The service and its oracles
  // ---------------------------------------------------------------------------

  /** Which of the two conversations a request belongs to; each has its own fixed
      system message. */
  datatype Task = Classification | Analysis

  /** What `client.chat.completions.create(...)` gives back: either it raised, or
      `choices[0].message.content`, which the SDK types as optional. */
  datatype Reply = Failed(message: string) | Answered(content: Option<string>)

  /** The configuration read at import time and the two oracles. */
  datatype Service = Service(
    apiKey: Option<string>,             // os.getenv("OPENAI_API_KEY")
    chat: (Task, string) -> Reply,      // the remote call, by task and user prompt
    loads: string -> Attempt<Json>)     // json.loads

  const MissingKeyMessage: string := "OPENAI_API_KEY is not set in environment."

  /** `str(e)` of the AttributeError raised by `None.strip()`. */
  const NoneContentMessage: string := "'NoneType' object has no attribute 'strip'"

  /** `_ensure_client_configured`: the key must be set and non-empty. */
  predicate Configured(svc: Service) {
    svc.apiKey.Some? && svc.apiKey.value != ""
  }

  /** The common body of both `try` blocks up to `json.loads`: the content is
      stripped, "" stands for `{}`, anything else is parsed. An exception is
      reported with its `str()`. */
  function ParsedReply(reply: Reply, loads: string -> Attempt<Json>): (r: Attempt<Json>)
    ensures reply.Failed? ==> r == Raised(reply.message)
    ensures reply == Answered(None) ==> r == Raised(NoneContentMessage)
    ensures reply.Answered? && reply.content.Some? && IsBlank(reply.content.value) ==> r == Done(JObj([]))
    ensures reply.Answered? && reply.content.Some? && !IsBlank(reply.content.value) ==>
      r == loads(Strip(reply.content.value))
  {
    match reply
    case Failed(m) => Raised(m)
    case Answered(None) => Raised(NoneContentMessage)
    case Answered(Some(c)) =>
      var content := Strip(c);
      if content == [] then Done(JObj([])) else loads(content)
  }

  // ---------------------------------------------------------------------------
  // classify_document
  // ---------------------------------------------------------------------------

  /** The longest prefix of `s` with at most `n` characters: `s[:n]`. */
  function Take(s: string, n: nat): (r: string)
    ensures |r| <= n && |r| <= |s|
    ensures r == s[..|r|]
    ensures |r| == n || r == s
  {
    if |s| <= n then s else s[..n]
  }

  /** The fixed instructions that precede the OCR text in the classification
      prompt (their wording is not reproduced). */
  const ClassificationInstructions: string :=
    "<classification instructions: the six document types and the JSON answer format>\n\nOCR Text:\n"

  const MaxClassifiedChars: nat := 4000

  /** The classification prompt: the instructions, then at most the first 4000
      characters of the text. */
  function ClassificationPrompt(text: string): (r: string)
    ensures |ClassificationInstructions| <= |r| && r[..|ClassificationInstructions|] == ClassificationInstructions
    ensures var embedded := r[|ClassificationInstructions|..];
      && |embedded| <= MaxClassifiedChars && |embedded| <= |text|
      && embedded == text[..|embedded|]
      && (|text| <= MaxClassifiedChars ==> embedded == text)
      && (|text| > MaxClassifiedChars ==> |embedded| == MaxClassifiedChars)
  {
    var embedded := Take(text, MaxClassifiedChars);
    PrefixAndRest(ClassificationInstructions, embedded);
    ClassificationInstructions + embedded
  }

  /** The document type of a parsed reply: the value under "document_type" when the
      reply is a dict that has it, otherwise `str(data) or "GeneralDocument"`; any
      exception gives "GeneralDocument". */
  function DocumentTypeOf(parsed: Attempt<Json>): Json {
    match parsed
    case Raised(_) => JStr("GeneralDocument")
    case Done(data) =>
      if HasKey(data, "document_type") then Get(data, "document_type", JNull)
      else
        var s := PyStr(data);
        JStr(if s == "" then "GeneralDocument" else s)
  }

  /** `classify_document(text)`. It raises only when the client is not configured:
      that check runs before the `try`. */
  function ClassifyDocument(svc: Service, text: string): Attempt<Json> {
    if !Configured(svc) then Raised(MissingKeyMessage)
    else
      var reply := svc.chat(Classification, ClassificationPrompt(text));
      Done(Singleton("document_type", DocumentTypeOf(ParsedReply(reply, svc.loads))))
  }

  /** The classifier raises exactly when the key is unset or empty, and then with
      the configuration message; otherwise it returns a dict whose only key is
      "document_type". */
  lemma ClassifyShape(svc: Service, text: string)
    ensures ClassifyDocument(svc, text).Raised? <==> !Configured(svc)
    ensures ClassifyDocument(svc, text).Raised? ==> ClassifyDocument(svc, text).message == MissingKeyMessage
    ensures ClassifyDocument(svc, text).Done? ==>
      var d := ClassifyDocument(svc, text).value;
      IsDict(d) && |d.fields| == 1 && d.fields[0].0 == "document_type"
  {
  }

  /** A parsed dict that holds "document_type" has that value passed on unchanged. */
  lemma DocumentTypeKept(data: Json)
    requires HasKey(data, "document_type")
    ensures ("document_type", DocumentTypeOf(Done(data))) in data.fields
  {
  }

  /** The answer format the prompt asks for round-trips: a reply that parses to
      `{"document_type": v}` classifies as `v`. */
  lemma ClassifyRoundTrip(svc: Service, text: string, content: string, v: Json)
    requires Configured(svc)
    requires svc.chat(Classification, ClassificationPrompt(text)) == Answered(Some(content))
    requires !IsBlank(content)
    requires svc.loads(Strip(content)) == Done(Singleton("document_type", v))
    ensures ClassifyDocument(svc, text) == Done(Singleton("document_type", v))
  {
    var reply := svc.chat(Classification, ClassificationPrompt(text));
    assert ParsedReply(reply, svc.loads) == Done(Singleton("document_type", v));
    TypeOfSingleton(v);
  }

  /** The dict `{"document_type": v}` has document type `v`. */
  lemma TypeOfSingleton(v: Json)
    ensures DocumentTypeOf(Done(Singleton("document_type", v))) == v
  {
    var d := Singleton("document_type", v);
    assert d.fields[0] == ("document_type", v);
    assert HasKey(d, "document_type");
    assert Lookup(d.fields, "document_type") == Some(v);
  }

  /** Without the key the result is `str(data)`, and it is "GeneralDocument" only
      when that string is empty, that is when the reply parsed to "". */
  lemma DocumentTypeFallback(data: Json)
    requires !HasKey(data, "document_type")
    ensures DocumentTypeOf(Done(data)) == JStr(if PyStr(data) == "" then "GeneralDocument" else PyStr(data))
    ensures DocumentTypeOf(Done(data)) == JStr("GeneralDocument") <==> data == JStr("") || data == JStr("GeneralDocument")
  {
  }

  /** Any exception inside the `try` (a failed request, content that is None, a
      parse error) classifies as "GeneralDocument". */
  lemma ClassifyExceptionIsGeneral(svc: Service, text: string)
    requires Configured(svc)
    requires ParsedReply(svc.chat(Classification, ClassificationPrompt(text)), svc.loads).Raised?
    ensures ClassifyDocument(svc, text) == Done(Singleton("document_type", JStr("GeneralDocument")))
  {
  }

  /** Empty or blank content parses as `{}`, which has no "document_type", so the
      classification is the string "{}". */
  lemma BlankContentClassifiesAsBraces(svc: Service, text: string, content: string)
    requires Configured(svc)
    requires svc.chat(Classification, ClassificationPrompt(text)) == Answered(Some(content))
    requires IsBlank(content)
    ensures ClassifyDocument(svc, text) == Done(Singleton("document_type", JStr("{}")))
  {
    var reply := svc.chat(Classification, ClassificationPrompt(text));
    assert ParsedReply(reply, svc.loads) == Done(JObj([]));
    TypeOfEmptyDict();
  }

  /** The empty dict has no "document_type"; its type is its `str()`, "{}". */
  lemma TypeOfEmptyDict()
    ensures DocumentTypeOf(Done(JObj([]))) == JStr("{}")
  {
    assert !HasKey(JObj([]), "document_type");
    assert Repr(JObj([])) == "{}";
  }

  // ---------------------------------------------------------------------------
  // analyze_document_by_type
  // ---------------------------------------------------------------------------

  /** The analysis of a parsed reply: a dict as it is, any other value an error
      dict, and an exception `{"error": str(e)}`. */
  function AnalysisOf(parsed: Attempt<Json>): (r: Json)
    ensures IsDict(r)
  {
    match parsed
    case Raised(m) => Singleton("error", JStr(m))
    case Done(data) => if IsDict(data) then data else Singleton("error", JStr("Failed to analyze document"))
  }

  /** `analyze_document_by_type(text, doc_type)`. The prompt is built before the
      `try` but cannot raise; the configuration check raises first. */
  function AnalyzeDocumentByType(svc: Service, text: string, docType: Json): Attempt<Json> {
    if !Configured(svc) then Raised(MissingKeyMessage)
    else
      var reply := svc.chat(Analysis, KycPrompt(text, docType));
      Done(AnalysisOf(ParsedReply(reply, svc.loads)))
  }

  /** The analysis raises exactly when the key is unset or empty; otherwise it is
      always a dict, and the reply's own dict is returned unchanged. */
  lemma AnalyzeShape(svc: Service, text: string, docType: Json)
    ensures AnalyzeDocumentByType(svc, text, docType).Raised? <==> !Configured(svc)
    ensures AnalyzeDocumentByType(svc, text, docType).Done? ==> IsDict(AnalyzeDocumentByType(svc, text, docType).value)
    ensures Configured(svc) ==>
      var parsed := ParsedReply(svc.chat(Analysis, KycPrompt(text, docType)), svc.loads);
      && (parsed.Done? && IsDict(parsed.value) ==> AnalyzeDocumentByType(svc, text, docType) == Done(parsed.value))
      && (parsed.Done? && !IsDict(parsed.value) ==>
            AnalyzeDocumentByType(svc, text, docType) == Done(Singleton("error", JStr("Failed to analyze document"))))
      && (parsed.Raised? ==> AnalyzeDocumentByType(svc, text, docType) == Done(Singleton("error", JStr(parsed.message))))
  {
  }

  /** Blank content is analysed as the empty dict. */
  lemma BlankContentAnalysesAsEmpty(svc: Service, text: string, docType: Json, content: string)
    requires Configured(svc)
    requires svc.chat(Analysis, KycPrompt(text, docType)) == Answered(Some(content))
    requires IsBlank(content)
    ensures AnalyzeDocumentByType(svc, text, docType) == Done(JObj([]))
  {
  }

  /** Content that is None: the AttributeError of `.strip()` is caught and
      reported as `{"error": str(e)}`. */
  lemma NoneContentAnalysesAsError(svc: Service, text: string, docType: Json)
    requires Configured(svc)
    requires svc.chat(Analysis, KycPrompt(text, docType)) == Answered(None)
    ensures AnalyzeDocumentByType(svc, text, docType) == Done(Singleton("error", JStr(NoneContentMessage)))
  {
  }

  /** A failed API call is caught and reported as `{"error": str(e)}`. */
  lemma FailedCallAnalysesAsError(svc: Service, text: string, docType: Json, m: string)
    requires Configured(svc)
    requires svc.chat(Analysis, KycPrompt(text, docType)) == Failed(m)
    ensures AnalyzeDocumentByType(svc, text, docType) == Done(Singleton("error", JStr(m)))
  {
  }

  // ---------------------------------------------------------------------------
  // _get_kyc_prompt
  // ---------------------------------------------------------------------------

  /** The instructions every extraction prompt starts with. */
  const BasePrompt: string :=
    "<extraction instructions: extract only the fields below, \"Not provided\" for missing ones>\n"

  /** One extraction template: the type it is for, the keys of its
      `extracted_data`, and the header placed before the document text. */
  datatype Template = Template(kind: string, fields: seq<string>, textHeader: string)

  const PlainHeader: string := "\n\nText:\n"
  const DocumentHeader: string := "\n\nExtracted Text from Document:\n"

  const PanTemplate: Template :=
    Template("PAN", ["PAN Number", "Name", "Father's Name", "Date of Birth", "Signature"], PlainHeader)
  const AadharTemplate: Template :=
    Template("Aadhar", ["Aadhar Number", "Name", "Date of Birth", "Gender", "Address"], DocumentHeader)
  const DrivingLicenceTemplate: Template :=
    Template("DrivingLicence", ["Licence Number", "Name", "Date of Birth", "Valid From", "Valid Until", "Address",
                                "Vehicle Classes"], PlainHeader)
  const PassportTemplate: Template :=
    Template("Passport", ["Passport Number", "Name", "Date of Birth", "Gender", "Place of Birth", "Issue Date",
                          "Expiry Date", "Place of Issue", "Nationality"], DocumentHeader)
  const UtilityBillTemplate: Template :=
    Template("UtilityBill", ["Account Number", "Name", "Address", "Bill Date", "Bill Amount", "Service Type"], PlainHeader)
  const GeneralTemplate: Template :=
    Template("GeneralDocument", ["Key1", "Key2"], PlainHeader)

  /** The `if`/`elif` chain: exact, case-sensitive comparison of `doc_type` with
      five strings; anything else, including a value that is not a string, gets
      the general template. */
  function TemplateFor(docType: Json): Template {
    if docType == JStr("PAN") then PanTemplate
    else if docType == JStr("Aadhar") then AadharTemplate
    else if docType == JStr("DrivingLicence") then DrivingLicenceTemplate
    else if docType == JStr("Passport") then PassportTemplate
    else if docType == JStr("UtilityBill") then UtilityBillTemplate
    else GeneralTemplate
  }

  /** The document types that have a template of their own. */
  const KnownTypes: seq<string> := ["PAN", "Aadhar", "DrivingLicence", "Passport", "UtilityBill"]

  /** A known type selects the template labelled with it; every other value selects
      the general one. The field sets have 5, 5, 7, 9, 6 and 2 keys, and only the
      Aadhar and Passport templates use the longer text header. */
  lemma TemplateSelection(docType: Json)
    ensures docType.JStr? && docType.s in KnownTypes ==> TemplateFor(docType).kind == docType.s
    ensures !(docType.JStr? && docType.s in KnownTypes) <==> TemplateFor(docType) == GeneralTemplate
    ensures |TemplateFor(docType).fields| == (
      match TemplateFor(docType).kind
      case "PAN" => 5 case "Aadhar" => 5 case "DrivingLicence" => 7
      case "Passport" => 9 case "UtilityBill" => 6 case _ => 2)
    ensures TemplateFor(docType).textHeader == DocumentHeader <==> docType == JStr("Aadhar") || docType == JStr("Passport")
  {
  }

  /** A key in double quotes, as the template writes it. */
  function Quoted(name: string): string {
    "\"" + name + "\""
  }

  /** One key of `extracted_data` as the template lists it. */
  function FieldLine(name: string): string {
    "    " + Quoted(name) + ": \"...\""
  }

  function FieldLines(names: seq<string>): (r: seq<string>)
    ensures |r| == |names|
    ensures forall i :: 0 <= i < |r| ==> r[i] == FieldLine(names[i])
  {
    seq(|names|, i requires 0 <= i < |names| => FieldLine(names[i]))
  }

  /** The key block lists the keys in the template's order: split before key `j`,
      key `i < j` lies in the part before and key `j` in the part after. */
  lemma FieldBlockInOrder(names: seq<string>, i: nat, j: nat)
    requires i < j < |names|
    ensures var before := Join(",\n", FieldLines(names[..j]));
      var after := Join(",\n", FieldLines(names[j..]));
      && Join(",\n", FieldLines(names)) == before + ",\n" + after
      && Contains(before, Quoted(names[i]))
      && Contains(after, Quoted(names[j]))
  {
    var lines := FieldLines(names);
    assert lines[..j] == FieldLines(names[..j]);
    assert lines[j..] == FieldLines(names[j..]);
    JoinSplitAt(",\n", lines, j);
    ContainsMiddle("    ", Quoted(names[i]), ": \"...\"");
    JoinContainsPart(",\n", lines[..j], i);
    ContainsTrans(Join(",\n", lines[..j]), lines[i], Quoted(names[i]));
    ContainsMiddle("    ", Quoted(names[j]), ": \"...\"");
    JoinContainsPart(",\n", lines[j..], 0);
    ContainsTrans(Join(",\n", lines[j..]), lines[j], Quoted(names[j]));
  }

  /** The opening of a template's JSON skeleton, up to its `extracted_data` keys
      (the summary hint is not reproduced). */
  function TemplateOpening(kind: string): string {
    "{\n  \"language\": \"English\",\n  \"document_type\": \"" + kind
      + "\",\n  \"summary\": \"...\",\n  \"extracted_data\": {\n"
  }

  /** The close of the skeleton (the extra instructions of the Aadhar and Passport
      templates are not reproduced). */
  const TemplateClosing: string := "\n  }\n}"

  /** `_get_kyc_prompt(text, doc_type)`: base instructions, the selected template,
      its text header, then the text itself. */
  function KycPrompt(text: string, docType: Json): string {
    var t := TemplateFor(docType);
    BasePrompt + TemplateOpening(t.kind) + Join(",\n", FieldLines(t.fields)) + TemplateClosing + t.textHeader + text
  }

  /** The part of an extraction prompt that comes before the document text. */
  function PromptHead(docType: Json): string {
    var t := TemplateFor(docType);
    BasePrompt + TemplateOpening(t.kind) + Join(",\n", FieldLines(t.fields)) + TemplateClosing + t.textHeader
  }

  /** Every prompt starts with the base instructions and ends with the whole text,
      untruncated, after a head that depends on the type alone. */
  lemma KycPromptFrame(text: string, docType: Json)
    ensures |BasePrompt| <= |KycPrompt(text, docType)| && KycPrompt(text, docType)[..|BasePrompt|] == BasePrompt
    ensures KycPrompt(text, docType) == PromptHead(docType) + text
    ensures EndsWith(KycPrompt(text, docType), text)
  {
    var t := TemplateFor(docType);
    var rest := TemplateOpening(t.kind) + Join(",\n", FieldLines(t.fields)) + TemplateClosing + t.textHeader + text;
    assert KycPrompt(text, docType) == BasePrompt + rest by {
      ConcatAssoc5(BasePrompt, TemplateOpening(t.kind), Join(",\n", FieldLines(t.fields)), TemplateClosing, t.textHeader, text);
    }
    PrefixAndRest(BasePrompt, rest);
    PrefixAndRest(PromptHead(docType), text);
  }

  /** Two texts give the same prompt for a type only when they are equal. */
  lemma KycPromptInjective(t1: string, t2: string, docType: Json)
    requires KycPrompt(t1, docType) == KycPrompt(t2, docType)
    ensures t1 == t2
  {
    KycPromptFrame(t1, docType);
    KycPromptFrame(t2, docType);
    PrefixAndRest(PromptHead(docType), t1);
    PrefixAndRest(PromptHead(docType), t2);
  }

  /** Every key of the selected template appears, quoted, in the prompt. */
  lemma KycPromptListsFields(text: string, docType: Json, k: nat)
    requires k < |TemplateFor(docType).fields|
    ensures Contains(KycPrompt(text, docType), Quoted(TemplateFor(docType).fields[k]))
  {
    var t := TemplateFor(docType);
    var name := t.fields[k];
    var lines := FieldLines(t.fields);
    var block := Join(",\n", lines);
    ContainsMiddle("    ", Quoted(name), ": \"...\"");
    JoinContainsPart(",\n", lines, k);
    ContainsTrans(block, lines[k], Quoted(name));
    var s1 := BasePrompt + TemplateOpening(t.kind) + block;
    ContainsRight(BasePrompt + TemplateOpening(t.kind), block);
    var s2 := s1 + TemplateClosing;
    ContainsLeft(s1, TemplateClosing);
    var s3 := s2 + t.textHeader;
    ContainsLeft(s2, t.textHeader);
    ContainsLeft(s3, text);
    ContainsTrans(s3, s2, s1);
    ContainsTrans(s3 + text, s3, s1);
    ContainsTrans(s3 + text, s1, block);
    ContainsTrans(s3 + text, block, Quoted(name));
  }
}
