/** `main.py`: the upload check, the CORS origin list and the `/analyze` handler.
    The handler saves the upload to a temporary file, extracts its text, classifies
    it and analyses it, inside one `try` whose `except Exception` turns every error
    into a 500 and whose `finally` removes the temporary file. */
module Api {
  import opened Outcomes
  import opened Text
  import opened PyJson
  import opened Textract
  import opened OpenAi

  // ---------------------------------------------------------------------------
  // pathlib: Path(filename).suffix
  // ---------------------------------------------------------------------------

  /** A component pathlib drops when it parses a path. */
  predicate Dropped(part: string) {
    part == "" || part == "."
  }

  /** The last component of a list of path components that pathlib keeps: empty
      components and "." are dropped when a path is parsed. */
  function LastProperPart(parts: seq<string>): (r: string)
    ensures r == "" <==> forall i :: 0 <= i < |parts| ==> Dropped(parts[i])
    ensures r != "" ==> r != "." && exists k :: (0 <= k < |parts| && parts[k] == r
      && forall j :: k < j < |parts| ==> Dropped(parts[j]))
  {
    if parts == [] then ""
    else
      var n := |parts| - 1;
      if !Dropped(parts[n]) then parts[n]
      else
        var r := LastProperPart(parts[..n]);
        LastProperStep(parts, r);
        r
  }

  /** One step of LastProperPart: a dropped last component leaves the result of the
      components before it. */
  lemma LastProperStep(parts: seq<string>, r: string)
    requires parts != [] && Dropped(parts[|parts| - 1])
    requires var init := parts[..|parts| - 1];
      && (r == "" <==> forall i :: 0 <= i < |init| ==> Dropped(init[i]))
      && (r != "" ==> r != "." && exists k :: (0 <= k < |init| && init[k] == r
            && forall j :: k < j < |init| ==> Dropped(init[j])))
    ensures r == "" <==> forall i :: 0 <= i < |parts| ==> Dropped(parts[i])
    ensures r != "" ==> r != "." && exists k :: (0 <= k < |parts| && parts[k] == r
      && forall j :: k < j < |parts| ==> Dropped(parts[j]))
  {
    var init := parts[..|parts| - 1];
    assert forall i :: 0 <= i < |init| ==> init[i] == parts[i];
    if r != "" {
      var k :| 0 <= k < |init| && init[k] == r && forall j :: k < j < |init| ==> Dropped(init[j]);
      assert parts[k] == r;
    }
  }


  /** `PurePosixPath(path).name`: the last component that is neither empty nor ".",
      or "" when there is none. */
  function PathName(path: string): (r: string)
    ensures '/' !in r && r != "."
  {
    var parts := Split(path, '/');
    var name := LastProperPart(parts);
    assert name != "" ==> exists i :: 0 <= i < |parts| && parts[i] == name;
    name
  }

  /** A path has no name exactly when every component is dropped, and a name is a
      component after which only dropped components follow. */
  lemma PathNameIsLastProper(path: string)
    ensures var parts := Split(path, '/');
      && (PathName(path) == "" <==> forall i :: 0 <= i < |parts| ==> Dropped(parts[i]))
      && (PathName(path) != "" ==> exists k :: (0 <= k < |parts| && parts[k] == PathName(path)
            && forall j :: k < j < |parts| ==> Dropped(parts[j])))
  {
    assert PathName(path) == LastProperPart(Split(path, '/'));
  }

  /** `s.rfind(c)`: the index of the last `c` in `s`, or -1. */
  function RFind(s: string, c: char): (r: int)
    ensures -1 <= r < |s|
    ensures r >= 0 ==> s[r] == c
    ensures forall j :: r < j < |s| ==> s[j] != c
  {
    if s == [] then -1
    else if s[|s| - 1] == c then |s| - 1
    else RFind(s[..|s| - 1], c)
  }

  /** `PurePosixPath(path).suffix`: from the last dot of the name, provided that dot
      is neither the first nor the last character of the name. */
  function PathSuffix(path: string): (r: string)
    ensures r == [] || (|r| >= 2 && r[0] == '.' && '.' !in r[1..] && '/' !in r)
    ensures r != [] ==> EndsWith(PathName(path), r) && |r| < |PathName(path)|
  {
    var name := PathName(path);
    var i := RFind(name, '.');
    if 0 < i < |name| - 1 then
      assert forall j :: 0 <= j < |name[i..][1..]| ==> name[i..][1..][j] == name[i + 1 + j];
      assert forall j :: 0 <= j < |name[i..]| ==> name[i..][j] == name[i + j];
      name[i..]
    else ""
  }

  // ---------------------------------------------------------------------------
  // validate_file
  // ---------------------------------------------------------------------------

  /** An `HTTPException`; its `str()` is "<status>: <detail>". */
  datatype HttpError = HttpError(status: int, detail: string)

  function HttpErrorString(e: HttpError): string {
    IntToString(e.status) + ": " + e.detail
  }

  const AllowedExtensions: seq<string> := [".pdf", ".docx", ".csv", ".xlsx", ".png", ".jpg", ".jpeg"]

  /** The allowed extensions as the 400 detail lists them. */
  const AllowedTypesText: string := ".pdf, .docx, .csv, .xlsx, .png, .jpg, .jpeg"

  lemma AllowedTypesListed()
    ensures Join(", ", AllowedExtensions) == AllowedTypesText
  {
  }

  /** The detail of the 400: "Allowed types:" followed by the allowed extensions
      joined with ", " (see AllowedTypesListed). */
  function UnsupportedDetail(ext: string): string {
    "Unsupported file type: " + ext + ". Allowed types: " + AllowedTypesText
  }

  /** `validate_file`: None when the upload is accepted, the 400 it raises otherwise. */
  function ValidateFile(filename: string): (r: Option<HttpError>)
    ensures r.None? <==> Lower(PathSuffix(filename)) in AllowedExtensions
    ensures r.Some? ==> r.value.status == 400 && r.value.detail == UnsupportedDetail(Lower(PathSuffix(filename)))
  {
    var ext := Lower(PathSuffix(filename));
    if ext !in AllowedExtensions then Some(HttpError(400, UnsupportedDetail(ext))) else None
  }

  /** The branch of the extractor that serves each accepted extension. */
  function ExtensionBranch(ext: string): Branch {
    if ext == ".pdf" then Pdf
    else if ext == ".docx" then Docx
    else if ext == ".csv" then Table(Csv)
    else if ext == ".xlsx" then Table(Excel)
    else if ext == ".png" || ext == ".jpg" || ext == ".jpeg" then Image
    else Unsupported
  }

  /** `tempfile.NamedTemporaryFile(suffix=...)` names the file `<dir>/<random stem>`
      followed by the suffix. */
  function TempPath(stem: string, filename: string): string {
    stem + PathSuffix(filename)
  }

  lemma LowerAppend(a: string, b: string)
    ensures Lower(a + b) == Lower(a) + Lower(b)
  {
  }

  lemma EndsWithAppend(a: string, b: string)
    ensures EndsWith(a + b, b)
  {
    assert (a + b)[|a + b| - |b|..] == b;
  }

  /** A string ending with an accepted extension is routed to that extension's
      branch. */
  lemma RouteOnAllowed(e: string, ext: string)
    requires ext in AllowedExtensions && EndsWith(e, ext)
    ensures RouteOn(e) == ExtensionBranch(ext)
    ensures RouteOn(e) != Txt && RouteOn(e) != Unsupported
  {
    SuffixTails(e);
    assert ext == ".pdf" || ext == ".docx" || ext == ".csv" || ext == ".xlsx"
      || ext == ".png" || ext == ".jpg" || ext == ".jpeg";
    if ext == ".pdf" {
      assert RouteOn(e) == Pdf;
    } else if ext == ".docx" {
      assert RouteOn(e) == Docx;
    } else if ext == ".csv" {
      assert RouteOn(e) == Table(Csv);
    } else if ext == ".xlsx" {
      assert RouteOn(e) == Table(Excel);
    } else {
      assert RouteOn(e) == Image;
    }
  }

  /** An accepted upload, saved under a temporary name that keeps its suffix, is
      routed to the extractor branch of its extension, never to the text-file branch
      and never to "unsupported". */
  lemma ValidatedUploadRoutes(filename: string, stem: string)
    requires ValidateFile(filename).None?
    ensures Route(TempPath(stem, filename)) == ExtensionBranch(Lower(PathSuffix(filename)))
    ensures Route(TempPath(stem, filename)) != Txt && Route(TempPath(stem, filename)) != Unsupported
  {
    var suffix := PathSuffix(filename);
    var ext := Lower(suffix);
    LowerAppend(stem, suffix);
    EndsWithAppend(Lower(stem), ext);
    RouteOnAllowed(Lower(stem + suffix), ext);
  }

  /** `rfind` finds the last occurrence. */
  lemma RFindLast(s: string, c: char, i: int)
    requires 0 <= i < |s| && s[i] == c
    requires forall j :: i < j < |s| ==> s[j] != c
    ensures RFind(s, c) == i
  {
  }

  /** A path without a separator is its own name. */
  lemma NameWithoutSeparator(path: string)
    requires path != "" && path != "." && '/' !in path
    ensures PathName(path) == path
  {
    var parts := Split(path, '/');
    assert multiset(path)['/'] == 0;
    assert |parts| == 1;
    assert parts == [path];
  }

  /** A plain name with one dot has the suffix from that dot on. */
  lemma PlainNameSuffix(stem: string, ext: string)
    requires stem != "" && '/' !in stem && '.' !in stem
    requires |ext| >= 2 && ext[0] == '.' && '/' !in ext && '.' !in ext[1..]
    ensures PathSuffix(stem + ext) == ext
  {
    var name := stem + ext;
    assert name[|stem|] == '.';
    assert forall j :: |stem| < j < |name| ==> name[j] == ext[1..][j - |stem| - 1];
    NameWithoutSeparator(name);
    RFindLast(name, '.', |stem|);
    assert name[|stem|..] == ext;
  }

  /** pathlib's suffix is complete: a name whose last dot is neither its first nor
      its last character has the suffix from that dot on ("scan.v2.pdf" has ".pdf"). */
  lemma SuffixComplete(path: string, i: int)
    requires 0 < i < |PathName(path)| - 1 && PathName(path)[i] == '.'
    requires forall j :: i < j < |PathName(path)| ==> PathName(path)[j] != '.'
    ensures PathSuffix(path) == PathName(path)[i..]
  {
    RFindLast(PathName(path), '.', i);
  }





  /** Lower-casing commutes with taking a suffix. */
  lemma LowerSlice(s: string, i: nat)
    requires i <= |s|
    ensures Lower(s)[i..] == Lower(s[i..])
  {
  }

  /** Every accepted extension is a dot followed by at least three characters, none
      of them a dot. */
  lemma AllowedShape(ext: string)
    requires ext in AllowedExtensions
    ensures |ext| >= 4 && ext[0] == '.' && forall k :: 1 <= k < |ext| ==> ext[k] != '.'
  {
  }

  /** Lower-casing keeps an ending. */
  lemma LowerEndsWith(s: string, t: string)
    requires EndsWith(s, t)
    ensures EndsWith(Lower(s), Lower(t))
  {
    LowerSlice(s, |s| - |t|);
  }

  /** An accepted upload's lower-cased name ends with its accepted extension. */
  lemma AcceptedEndsWithExtension(filename: string)
    requires ValidateFile(filename).None?
    ensures var ext := Lower(PathSuffix(filename));
      ext in AllowedExtensions && EndsWith(Lower(PathName(filename)), ext) && |ext| < |PathName(filename)|
  {
    var suffix := PathSuffix(filename);
    assert Lower(suffix) in AllowedExtensions;
    assert suffix != [];
    LowerEndsWith(PathName(filename), suffix);
  }


  /** A name whose lower-cased form ends with an accepted extension, after at least
      one character, has that extension as its lower-cased suffix. */
  lemma EndingGivesSuffix(filename: string, ext: string)
    requires ext in AllowedExtensions
    requires EndsWith(Lower(PathName(filename)), ext) && |ext| < |PathName(filename)|
    ensures Lower(PathSuffix(filename)) == ext
  {
    var name := PathName(filename);
    AllowedShape(ext);
    var i := |name| - |ext|;
    assert Lower(name)[i] == ext[0];
    forall j | i < j < |name| ensures name[j] != '.' {
      assert Lower(name)[j] == ext[j - i];
    }
    SuffixComplete(filename, i);
    LowerSlice(name, i);
  }

  /** `validate_file`, stated without pathlib's algorithm: an upload is accepted
      exactly when its lower-cased name ends with an accepted extension that leaves
      at least one character before it. */
  lemma ValidateFileByEnding(filename: string)
    ensures ValidateFile(filename).None? <==>
      exists ext :: ext in AllowedExtensions && EndsWith(Lower(PathName(filename)), ext) && |ext| < |PathName(filename)|
  {
    if ValidateFile(filename).None? {
      AcceptedEndsWithExtension(filename);
    }
    if exists ext :: ext in AllowedExtensions && EndsWith(Lower(PathName(filename)), ext) && |ext| < |PathName(filename)| {
      var ext :| ext in AllowedExtensions && EndsWith(Lower(PathName(filename)), ext) && |ext| < |PathName(filename)|;
      EndingGivesSuffix(filename, ext);
    }
  }


  lemma LowerTxt()
    ensures Lower(".txt") == ".txt"
  {
  }

  lemma RouteOnTxt(e: string)
    requires EndsWith(e, ".txt")
    ensures RouteOn(e) == Txt
  {
    SuffixTails(e);
  }

  lemma TxtNotAllowed()
    ensures ".txt" !in AllowedExtensions
  {
  }

  /** ".txt" is refused at the door although the extractor has a branch for it:
      "notes.txt", or any plain name ending in ".txt". */
  lemma TxtRejected(stem: string)
    requires stem != "" && '/' !in stem && '.' !in stem
    ensures PathSuffix(stem + ".txt") == ".txt"
    ensures ValidateFile(stem + ".txt") == Some(HttpError(400, UnsupportedDetail(".txt")))
    ensures Route(stem + ".txt") == Txt
  {
    PlainNameSuffix(stem, ".txt");
    LowerTxt();
    TxtNotAllowed();
    LowerAppend(stem, ".txt");
    EndsWithAppend(Lower(stem), ".txt");
    RouteOnTxt(Lower(stem + ".txt"));
  }

  // ---------------------------------------------------------------------------
  // allow_origins
  // ---------------------------------------------------------------------------

  /** `allow_origins`: the `FRONTEND_ORIGINS` setting (default "*") split on "," with
      each entry stripped; an empty setting gives ["*"]. */
  function AllowOrigins(setting: Option<string>): (r: seq<string>)
    ensures r != []
    ensures forall i :: 0 <= i < |r| ==> Stripped(r[i]) && ',' !in r[i]
  {
    var s := setting.GetOr("*");
    if s == "" then ["*"]
    else
      var parts := Split(s, ',');
      var r := seq(|parts|, i requires 0 <= i < |parts| => Strip(parts[i]));
      assert forall i :: 0 <= i < |r| ==> ',' !in r[i] by {
        forall i | 0 <= i < |r| ensures ',' !in r[i] {
          StripIsInfix(parts[i]);
          var k :| 0 <= k <= |parts[i]| && BlankAround(parts[i], r[i], k);
        }
      }
      r
  }

  /** Unset or empty, the setting allows every origin. */
  lemma OriginsDefault(setting: Option<string>)
    requires setting == None || setting == Some("")
    ensures AllowOrigins(setting) == ["*"]
  {
    if setting == None {
      assert Split("*", ',') == ["*"];
      StripStripped("*");
    }
  }

  /** A non-empty setting gives one entry per comma-separated piece, in order, each
      the piece stripped. */
  lemma OriginsEntries(s: string)
    requires s != ""
    ensures |AllowOrigins(Some(s))| == multiset(s)[','] + 1
    ensures forall i :: 0 <= i < |AllowOrigins(Some(s))| ==> AllowOrigins(Some(s))[i] == Strip(Split(s, ',')[i])
  {
  }

  /** A setting whose pieces carry no surrounding whitespace is read back exactly:
      joining the entries with "," gives the setting. */
  lemma OriginsRoundTrip(s: string)
    requires s != ""
    requires forall i :: 0 <= i < |Split(s, ',')| ==> Stripped(Split(s, ',')[i])
    ensures Join(",", AllowOrigins(Some(s))) == s
  {
    var parts := Split(s, ',');
    var r := AllowOrigins(Some(s));
    assert |r| == |parts|;
    forall i | 0 <= i < |parts| ensures r[i] == parts[i] {
      StripStripped(parts[i]);
    }
    assert r == parts;
  }

  // ---------------------------------------------------------------------------
  // The /analyze handler
  // ---------------------------------------------------------------------------

  /** The upload: its file name and whether `await file.read()` raises. */
  datatype Upload = Upload(filename: string, read: Attempt<()>)

  /** The outcome of every call the handler makes. */
  datatype Env = Env(
    create: Attempt<string>,   // NamedTemporaryFile(delete=False): the random stem of its name
    write: Attempt<()>,        // tmp.write(file_bytes)
    libs: Libraries,           // the extractor's libraries
    svc: Service)              // the OpenAI service

  /** How the body of the `try` ends: with the response dict, with an
      `HTTPException`, or with any other exception (by its `str()`). */
  datatype Flow = Returned(body: Json) | RaisedHttp(error: HttpError) | RaisedOther(message: string)

  /** What the client receives: the dict, or an error status with its detail. */
  datatype Response = Success(body: Json) | Failure(status: int, detail: string)

  const BlankTextDetail: string :=
    "Failed to extract text from document. Please check if the document is readable and Tesseract OCR is installed."

  /** The handler after the upload is saved at `path`: extract, refuse blank text,
      classify, analyse, and build the response dict. */
  function Process(filename: string, env: Env, path: string): Flow {
    var text := Extract(path, env.libs).text;
    if IsBlank(text) then RaisedHttp(HttpError(422, BlankTextDetail))
    else
      match ClassifyDocument(env.svc, text)
      case Raised(m) => RaisedOther(m)
      case Done(c) =>
        var classification := if IsDict(c) then c else Singleton("document_type", JStr(PyStr(c)));
        var docType := Get(classification, "document_type", JStr("GeneralDocument"));
        match AnalyzeDocumentByType(env.svc, text, docType)
        case Raised(m) => RaisedOther(m)
        case Done(a) =>
          var analysis := if IsDict(a) then a else Singleton("analysis_output", JStr(PyStr(a)));
          Returned(ResponseBody(filename, docType, analysis))
  }

  function ResponseBody(filename: string, docType: Json, analysis: Json): Json {
    JObj([("filename", JStr(filename)), ("document_type", docType), ("analysis", analysis)])
  }

  /** The body of the `try` as written: how it ends, the temporary file it created
      (if any), and whether `tmp_path` was assigned, which happens only after the
      upload was read and written. */
  datatype TryResult = TryResult(flow: Flow, created: Option<string>, tmpPath: Option<string>)

  function TryBody(up: Upload, env: Env): TryResult {
    match ValidateFile(up.filename)
    case Some(e) => TryResult(RaisedHttp(e), None, None)
    case None =>
      match env.create
      case Raised(m) => TryResult(RaisedOther(m), None, None)
      case Done(stem) =>
        var path := TempPath(stem, up.filename);
        if up.read.Raised? then TryResult(RaisedOther(up.read.message), Some(path), None)
        else if env.write.Raised? then TryResult(RaisedOther(env.write.message), Some(path), None)
        else TryResult(Process(up.filename, env, path), Some(path), Some(path))
  }

  /** The request's result: the response, and the temporary file left on disk. */
  datatype Outcome = Outcome(response: Response, leftover: Option<string>)

  /** `except Exception as e: raise HTTPException(500, str(e))`. */
  function CatchAll(flow: Flow): Response {
    match flow
    case Returned(body) => Success(body)
    case RaisedHttp(e) => Failure(500, HttpErrorString(e))
    case RaisedOther(m) => Failure(500, m)
  }

  /** `analyze(file)` as written. The `finally` removes `tmp_path` when it is set. */
  function AnalyzeOutcome(up: Upload, env: Env): Outcome {
    var t := TryBody(up, env);
    Outcome(CatchAll(t.flow), if t.tmpPath.None? then t.created else None)
  }

  /** The temporary files of the server's directory. */
  class TempDir {
    var files: set<string>

    constructor()
      ensures files == {}
    {
      files := {};
    }
  }

  /** The handler after the upload is saved: each step in order, with the dict
      results re-wrapped when they are not dicts. */
  method ProcessSaved(filename: string, env: Env, path: string) returns (flow: Flow)
    ensures flow == Process(filename, env, path)
  {
    var extractedText, _ := ExtractTextFromUpload(path, env.libs);
    if IsBlank(extractedText) {
      return RaisedHttp(HttpError(422, BlankTextDetail));
    }
    var classified := ClassifyDocument(env.svc, extractedText);
    if classified.Raised? {
      return RaisedOther(classified.message);
    }
    var classificationResult := classified.value;
    if !IsDict(classificationResult) {
      classificationResult := Singleton("document_type", JStr(PyStr(classificationResult)));
    }
    var docType := Get(classificationResult, "document_type", JStr("GeneralDocument"));
    var analysed := AnalyzeDocumentByType(env.svc, extractedText, docType);
    if analysed.Raised? {
      return RaisedOther(analysed.message);
    }
    var analysisResult := analysed.value;
    if !IsDict(analysisResult) {
      analysisResult := Singleton("analysis_output", JStr(PyStr(analysisResult)));
    }
    return Returned(ResponseBody(filename, docType, analysisResult));
  }

  /** `analyze(file)` with its effect on the temporary directory: the file created
      for the upload is removed in `finally` only if `tmp_path` was assigned. */
  method Analyze(up: Upload, env: Env, dir: TempDir) returns (response: Response)
    requires env.create.Done? ==> TempPath(env.create.value, up.filename) !in dir.files
    modifies dir
    ensures response == AnalyzeOutcome(up, env).response
    ensures dir.files == old(dir.files) + (
      match AnalyzeOutcome(up, env).leftover case Some(p) => {p} case None => {})
  {
    var tmpPath: Option<string> := None;
    var flow: Flow;
    // try:
    var rejection := ValidateFile(up.filename);
    if rejection.Some? {
      flow := RaisedHttp(rejection.value);
    } else if env.create.Raised? {
      flow := RaisedOther(env.create.message);
    } else {
      var name := TempPath(env.create.value, up.filename);
      dir.files := dir.files + {name};
      if up.read.Raised? {
        flow := RaisedOther(up.read.message);
      } else if env.write.Raised? {
        flow := RaisedOther(env.write.message);
      } else {
        tmpPath := Some(name);
        flow := ProcessSaved(up.filename, env, name);
      }
    }
    // except Exception as e:
    response := CatchAll(flow);
    // finally:
    if tmpPath.Some? && tmpPath.value in dir.files {
      dir.files := dir.files - {tmpPath.value};
    }
  }

  // ---------------------------------------------------------------------------
  // Properties of the handler as written
  // ---------------------------------------------------------------------------

  lemma TryBodyRefused(up: Upload, env: Env)
    requires ValidateFile(up.filename).Some?
    ensures TryBody(up, env) == TryResult(RaisedHttp(ValidateFile(up.filename).value), None, None)
  {
  }

  lemma TryBodySaved(up: Upload, env: Env)
    requires ValidateFile(up.filename).None? && env.create.Done? && up.read.Done? && env.write.Done?
    ensures var p := TempPath(env.create.value, up.filename);
      TryBody(up, env) == TryResult(Process(up.filename, env, p), Some(p), Some(p))
  {
  }

  lemma ProcessBlank(filename: string, env: Env, path: string)
    requires IsBlank(Extract(path, env.libs).text)
    ensures Process(filename, env, path) == RaisedHttp(HttpError(422, BlankTextDetail))
  {
  }

  /** `str()` of the two exceptions the handler raises itself. */
  lemma HttpErrorStrings(detail: string)
    ensures HttpErrorString(HttpError(400, detail)) == "400: " + detail
    ensures HttpErrorString(HttpError(422, detail)) == "422: " + detail
  {
    assert NatToString(4) == "4";
    assert NatToString(40) == "40";
    assert NatToString(42) == "42";
    assert IntToString(400) + ": " == "400: ";
    assert IntToString(422) + ": " == "422: ";
  }

  /** Every failure reaches the client as a 500: the 400 of `validate_file` and the
      422 for blank text are caught by the blanket handler like any other error. */
  lemma AnalyzeFailsOnlyWith500(up: Upload, env: Env)
    ensures AnalyzeOutcome(up, env).response.Failure? ==> AnalyzeOutcome(up, env).response.status == 500
  {
    var f := TryBody(up, env).flow;
    assert AnalyzeOutcome(up, env).response == CatchAll(f);
  }

  /** A refused upload is answered with a 500 whose detail is the 400's `str()`. */
  lemma RefusedUploadIs500(up: Upload, env: Env)
    requires ValidateFile(up.filename).Some?
    ensures AnalyzeOutcome(up, env).response == Failure(500, "400: " + UnsupportedDetail(Lower(PathSuffix(up.filename))))
  {
    var e := ValidateFile(up.filename).value;
    TryBodyRefused(up, env);
    assert AnalyzeOutcome(up, env).response == Failure(500, HttpErrorString(e));
    HttpErrorStrings(e.detail);
  }

  /** An upload named "notes.txt" (or any plain name ending in ".txt") is answered
      with a 500. */
  lemma TxtUploadIs500(stem: string, read: Attempt<()>, env: Env)
    requires stem != "" && '/' !in stem && '.' !in stem
    ensures AnalyzeOutcome(Upload(stem + ".txt", read), env).response == Failure(500, "400: " + UnsupportedDetail(".txt"))
  {
    var up := Upload(stem + ".txt", read);
    TxtRejected(stem);
    LowerTxt();
    RefusedUploadIs500(up, env);
  }

  /** Blank extracted text is answered with a 500 whose detail starts "422: ", and
      the OpenAI service is never consulted. */
  lemma BlankTextSkipsClassification(up: Upload, env: Env, other: Service)
    requires ValidateFile(up.filename).None? && env.create.Done? && up.read.Done? && env.write.Done?
    requires IsBlank(Extract(TempPath(env.create.value, up.filename), env.libs).text)
    ensures AnalyzeOutcome(up, env).response == Failure(500, "422: " + BlankTextDetail)
    ensures AnalyzeOutcome(up, env) == AnalyzeOutcome(up, env.(svc := other))
  {
    BlankTextOutcome(up, env);
    BlankTextOutcome(up, env.(svc := other));
    HttpErrorStrings(BlankTextDetail);
  }

  lemma BlankTextOutcome(up: Upload, env: Env)
    requires ValidateFile(up.filename).None? && env.create.Done? && up.read.Done? && env.write.Done?
    requires IsBlank(Extract(TempPath(env.create.value, up.filename), env.libs).text)
    ensures AnalyzeOutcome(up, env) == Outcome(Failure(500, HttpErrorString(HttpError(422, BlankTextDetail))), None)
  {
    TryBodySaved(up, env);
    ProcessBlank(up.filename, env, TempPath(env.create.value, up.filename));
  }

  /** Validation comes first: a refused upload creates no file and calls nothing,
      so its outcome does not depend on any library. */
  lemma ValidationComesFirst(up: Upload, env: Env, other: Env)
    requires ValidateFile(up.filename).Some?
    ensures AnalyzeOutcome(up, env) == AnalyzeOutcome(up, other)
    ensures AnalyzeOutcome(up, env).leftover == None
  {
  }

  /** A success carries exactly the keys filename, document_type and analysis; the
      document type is the one the classifier returned and the analysis is a dict. */
  lemma SuccessShape(up: Upload, env: Env)
    requires AnalyzeOutcome(up, env).response.Success?
    ensures var body := AnalyzeOutcome(up, env).response.body;
      && body.JObj? && |body.fields| == 3
      && body.fields[0] == ("filename", JStr(up.filename))
      && body.fields[1].0 == "document_type"
      && body.fields[2].0 == "analysis" && IsDict(body.fields[2].1)
      && env.create.Done?
      && ClassifyDocument(env.svc, Extract(TempPath(env.create.value, up.filename), env.libs).text)
         == Done(Singleton("document_type", body.fields[1].1))
  {
    TryBodyReturned(up, env);
    ProcessReturned(up.filename, env, TempPath(env.create.value, up.filename));
  }

  /** Only the branch that saved the upload returns a body. */
  lemma TryBodyReturned(up: Upload, env: Env)
    requires TryBody(up, env).flow.Returned?
    ensures ValidateFile(up.filename).None? && env.create.Done? && up.read.Done? && env.write.Done?
    ensures TryBody(up, env).flow == Process(up.filename, env, TempPath(env.create.value, up.filename))
  {
  }

  /** The body built after saving: the three keys, the classifier's document type
      and a dict analysis. */
  lemma ProcessReturned(filename: string, env: Env, path: string)
    requires Process(filename, env, path).Returned?
    ensures var body := Process(filename, env, path).body;
      var text := Extract(path, env.libs).text;
      && ClassifyDocument(env.svc, text).Done?
      && ClassifyDocument(env.svc, text).value == Singleton("document_type", body.fields[1].1)
      && body == ResponseBody(filename, body.fields[1].1, body.fields[2].1)
      && IsDict(body.fields[2].1)
  {
    var text := Extract(path, env.libs).text;
    ClassifyShape(env.svc, text);
    var c := ClassifyDocument(env.svc, text).value;
    var docType := c.fields[0].1;
    assert c == Singleton("document_type", docType);
    assert Get(c, "document_type", JStr("GeneralDocument")) == docType;
    AnalyzeShape(env.svc, text, docType);
  }

  /** A missing key is reported as a 500 carrying the configuration message once
      there is text to classify. */
  lemma UnconfiguredIs500(up: Upload, env: Env)
    requires !Configured(env.svc)
    requires ValidateFile(up.filename).None? && env.create.Done? && up.read.Done? && env.write.Done?
    requires !IsBlank(Extract(TempPath(env.create.value, up.filename), env.libs).text)
    ensures AnalyzeOutcome(up, env).response == Failure(500, MissingKeyMessage)
  {
  }

  /** The temporary file leaks when reading or writing the upload fails: `tmp_path`
      is still None when `finally` runs. */
  lemma ReadFailureLeaksTempFile(up: Upload, env: Env)
    requires ValidateFile(up.filename).None? && env.create.Done?
    requires up.read.Raised? || env.write.Raised?
    ensures AnalyzeOutcome(up, env).leftover == Some(TempPath(env.create.value, up.filename))
  {
  }

  /** Once `tmp_path` is set the file is removed on every exit. */
  lemma SavedFileRemoved(up: Upload, env: Env)
    requires TryBody(up, env).tmpPath.Some?
    ensures AnalyzeOutcome(up, env).leftover == None
  {
  }

  // ---------------------------------------------------------------------------
  // The handler as evidently intended
  // ---------------------------------------------------------------------------

  /** The `HTTPException`s raised in the body reach the client unchanged, and any
      other exception becomes a 500. */
  function CatchAllButHttp(flow: Flow): Response {
    match flow
    case Returned(body) => Success(body)
    case RaisedHttp(e) => Failure(e.status, e.detail)
    case RaisedOther(m) => Failure(500, m)
  }

  /** `analyze(file)` with `except HTTPException: raise` before the blanket handler
      and `tmp_path` assigned as soon as the file is created. */
  function AnalyzeOutcomeCorrected(up: Upload, env: Env): Outcome {
    var t := TryBody(up, env);
    Outcome(CatchAllButHttp(t.flow), None)
  }

  /** With the correction the client sees 400 exactly for a refused extension and
      422 exactly for blank text; every other failure is a 500, and a success is the
      same success as before. */
  lemma CorrectedStatuses(up: Upload, env: Env)
    ensures var r := AnalyzeOutcomeCorrected(up, env).response;
      && (r.Failure? && r.status == 400 <==> ValidateFile(up.filename).Some?)
      && (r.Failure? && r.status == 400 ==> r.detail == UnsupportedDetail(Lower(PathSuffix(up.filename))))
      && (r.Failure? && r.status == 422 <==>
            ValidateFile(up.filename).None? && env.create.Done? && up.read.Done? && env.write.Done?
            && IsBlank(Extract(TempPath(env.create.value, up.filename), env.libs).text))
      && (r.Failure? ==> r.status in {400, 422, 500})
    ensures AnalyzeOutcomeCorrected(up, env).response.Success? ==>
      AnalyzeOutcomeCorrected(up, env).response == AnalyzeOutcome(up, env).response
    ensures AnalyzeOutcome(up, env).response.Success? ==>
      AnalyzeOutcomeCorrected(up, env).response == AnalyzeOutcome(up, env).response
  {
  }

  /** `analyze(file)` corrected: `tmp_path` is assigned as soon as the file exists,
      and an `HTTPException` is re-raised as it is. The temporary directory ends as
      it began on every path. */
  method AnalyzeCorrected(up: Upload, env: Env, dir: TempDir) returns (response: Response)
    requires env.create.Done? ==> TempPath(env.create.value, up.filename) !in dir.files
    modifies dir
    ensures response == AnalyzeOutcomeCorrected(up, env).response
    ensures dir.files == old(dir.files)
  {
    var tmpPath: Option<string> := None;
    var flow: Flow;
    // try:
    var rejection := ValidateFile(up.filename);
    if rejection.Some? {
      flow := RaisedHttp(rejection.value);
    } else if env.create.Raised? {
      flow := RaisedOther(env.create.message);
    } else {
      var name := TempPath(env.create.value, up.filename);
      dir.files := dir.files + {name};
      tmpPath := Some(name);
      if up.read.Raised? {
        flow := RaisedOther(up.read.message);
      } else if env.write.Raised? {
        flow := RaisedOther(env.write.message);
      } else {
        flow := ProcessSaved(up.filename, env, name);
      }
    }
    // except HTTPException: raise
    // except Exception as e:
    response := CatchAllButHttp(flow);
    // finally:
    if tmpPath.Some? && tmpPath.value in dir.files {
      dir.files := dir.files - {tmpPath.value};
    }
  }
}
