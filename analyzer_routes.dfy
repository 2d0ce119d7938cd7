/**
 * The HTTP handlers of the analyzer blueprint: the upload check cascade in front of the
 * protocol analysis, the research envelope gathering the three registries, and the guard of
 * the PDF export. Request data, the API key from the environment and the collaborators the
 * handlers call are parameters.
 */
module AnalyzerRoutes {
  import opened Wrappers
  import opened Text
  import opened JsonData
  import opened Http
  import opened ProtocolAnalyzer
  import opened ResearchService

  const AllowedExtensions: set<string> := {"docx"}

  const FileMissingMessage := "Файл не найден"
  const FileNotSelectedMessage := "Файл не выбран"
  const DocxOnlyMessage := "Разрешены только DOCX файлы"
  const AnalysisErrorPrefix := "Ошибка при анализе: "
  const ExportDataMissingMessage := "Данные для экспорта не найдены"
  const ExportErrorPrefix := "Ошибка при создании PDF: "
  const PdfErrorPrefix := "Ошибка при генерации PDF: "
  const MissingKeyMessage := "GEMINI_API_KEY не найден в переменных окружения"
  const DownloadPrefix := "/api/download/"

  /** Constructing the analyzer raises unless `GEMINI_API_KEY` is set to a non-empty value. */
  function ApiKeyConfigured(apiKey: Option<string>): (b: bool)
    ensures b <==> apiKey.Some? && Truthy(Str(apiKey.value))
  {
    apiKey.Some? && apiKey.value != ""
  }

  // ---------------------------------------------------------------------------
  // `allowed_file`
  // ---------------------------------------------------------------------------

  /** `s.rsplit(sep, 1)[1]`: the text after the last `sep`, or `None` (an `IndexError`) when there is no `sep`. */
  function AfterLast(s: string, sep: char): (r: Option<string>)
    ensures r.None? <==> sep !in s
    ensures r.Some? ==> sep !in r.value && |r.value| < |s| && s[|s| - |r.value| - 1] == sep
    ensures r.Some? ==> s[|s| - |r.value|..] == r.value
  {
    var i := RFind(s, sep);
    if i == -1 then None else Some(s[i + 1..])
  }

  /** The file name holds a dot and the text after its last dot, lower-cased, is an allowed extension. */
  function AllowedFile(filename: string): (b: bool)
    ensures b <==> AfterLast(filename, '.').Some? && Lower(AfterLast(filename, '.').value) == "docx"
  {
    '.' in filename && Lower(AfterLast(filename, '.').value) in AllowedExtensions
  }

  /** Lower-casing works character by character, so it distributes over concatenation. */
  lemma LowerConcat(a: string, b: string)
    ensures Lower(a + b) == Lower(a) + Lower(b)
  {
  }

  /** A name is accepted exactly when it ends, in any letter case, with ".docx". */
  lemma AllowedFileIffDocxSuffix(filename: string)
    ensures AllowedFile(filename) <==> |filename| >= 5 && Lower(filename[|filename| - 5..]) == ".docx"
  {
    var n := |filename|;
    if AllowedFile(filename) {
      var ext := AfterLast(filename, '.').value;
      assert |ext| == 4;
      assert filename[n - 5..] == ['.'] + ext;
      LowerConcat(['.'], ext);
    }
    if n >= 5 && Lower(filename[n - 5..]) == ".docx" {
      var tail := filename[n - 5..];
      assert Lower(tail)[0] == '.';
      assert filename[n - 5] == '.';
      forall k | n - 4 <= k < n ensures filename[k] != '.' {
        assert Lower(tail)[k - (n - 5)] == ".docx"[k - (n - 5)];
      }
      var i := RFind(filename, '.');
      assert i == n - 5;
      assert AfterLast(filename, '.') == Some(filename[n - 4..]);
      assert tail == ['.'] + filename[n - 4..];
      LowerConcat(['.'], filename[n - 4..]);
      assert Lower(filename[n - 4..]) == Lower(tail)[1..] == "docx";
    }
  }

  /** "A.DOCX" and ".docx" pass. */
  lemma AllowedFileAcceptsDocx()
    ensures AllowedFile("A.DOCX") && AllowedFile(".docx")
  {
    AllowedFileIffDocxSuffix("A.DOCX");
    assert "A.DOCX"[1..] == ".DOCX";
    assert Lower(".DOCX") == ".docx";
    AllowedFileIffDocxSuffix(".docx");
  }

  /** "docx" (no dot) and "a.docx.pdf" (another last extension) fail. */
  lemma AllowedFileRejectsOthers()
    ensures !AllowedFile("docx") && !AllowedFile("a.docx.pdf")
  {
    AllowedFileIffDocxSuffix("a.docx.pdf");
  }

  // ---------------------------------------------------------------------------
  // `upload_file`
  // ---------------------------------------------------------------------------

  /**
   * POST /upload. `files` maps each multipart field to the uploaded file's name; `document`
   * is what the text extraction gives for its contents. Three checks answer 400 in a fixed
   * order; then building the analyzer fails with 500 without an API key; otherwise the
   * analysis record is returned with 200, whether the analysis succeeded or not.
   */
  function UploadFile(files: map<string, string>, apiKey: Option<string>, document: DocText,
                      generate: string -> ProviderReply, parse: string -> Parsed, now: string)
    : (resp: Response)
    ensures resp.status == 400 <==> "file" !in files || files["file"] == "" || !AllowedFile(files["file"])
    ensures resp.status != 400 ==> resp.status == (if ApiKeyConfigured(apiKey) then 200 else 500)
    ensures "file" !in files ==> resp.body == ErrorBody(FileMissingMessage)
    ensures "file" in files && files["file"] == "" ==> resp.body == ErrorBody(FileNotSelectedMessage)
    ensures "file" in files && files["file"] != "" && !AllowedFile(files["file"]) ==>
      resp.body == ErrorBody(DocxOnlyMessage)
    ensures resp.status == 500 ==> resp.body == ErrorBody(AnalysisErrorPrefix + MissingKeyMessage)
    ensures resp.status == 200 ==> resp.body == AnalysisJson(AnalyzeProtocol(document, generate, parse, now))
  {
    if "file" !in files then Response(400, ErrorBody(FileMissingMessage))
    else if files["file"] == "" then Response(400, ErrorBody(FileNotSelectedMessage))
    else if !AllowedFile(files["file"]) then Response(400, ErrorBody(DocxOnlyMessage))
    else if !ApiKeyConfigured(apiKey) then Response(500, ErrorBody(AnalysisErrorPrefix + MissingKeyMessage))
    else Response(200, AnalysisJson(AnalyzeProtocol(document, generate, parse, now)))
  }

  /** A rejected upload is answered before any analysis: nothing downstream of the checks affects the reply. */
  lemma UploadChecksPrecedeAnalysis(files: map<string, string>,
                                    k1: Option<string>, d1: DocText, g1: string -> ProviderReply, p1: string -> Parsed, n1: string,
                                    k2: Option<string>, d2: DocText, g2: string -> ProviderReply, p2: string -> Parsed, n2: string)
    requires UploadFile(files, k1, d1, g1, p1, n1).status == 400
    ensures UploadFile(files, k1, d1, g1, p1, n1) == UploadFile(files, k2, d2, g2, p2, n2)
  {
  }

  /** An analysis that fails is still answered with 200, carrying the failure record. */
  lemma FailedAnalysisIsStill200(files: map<string, string>, apiKey: Option<string>, document: DocText,
                                 generate: string -> ProviderReply, parse: string -> Parsed, now: string)
    requires "file" in files && AllowedFile(files["file"]) && ApiKeyConfigured(apiKey)
    requires AnalyzeProtocol(document, generate, parse, now).Failure?
    ensures var resp := UploadFile(files, apiKey, document, generate, parse, now);
      resp.status == 200 && resp.body.Obj? && resp.body.fields["success"] == Bool(false)
      && "error" in resp.body.fields
  {
  }

  // ---------------------------------------------------------------------------
  // `search_research`
  // ---------------------------------------------------------------------------

  /** `request.args.get('condition', '')`. */
  function Condition(args: map<string, string>): (c: string)
    ensures "condition" in args ==> c == args["condition"]
    ensures "condition" !in args ==> c == ""
  {
    if "condition" in args then args["condition"] else ""
  }

  /** The body of the research reply: exactly the three registries, each with its list of records. */
  function ResearchEnvelope(articles: seq<Article>, trials: seq<Trial>, approvals: seq<Approval>): (j: Json)
    ensures j.Obj? && j.fields.Keys == {"pubmed", "clinical_trials", "fda"}
    ensures j.fields["pubmed"].Arr? && |j.fields["pubmed"].items| == |articles|
    ensures j.fields["clinical_trials"].Arr? && |j.fields["clinical_trials"].items| == |trials|
    ensures j.fields["fda"].Arr? && |j.fields["fda"].items| == |approvals|
    ensures forall k :: 0 <= k < |articles| ==> j.fields["pubmed"].items[k] == ArticleJson(articles[k])
    ensures forall k :: 0 <= k < |trials| ==> j.fields["clinical_trials"].items[k] == TrialJson(trials[k])
    ensures forall k :: 0 <= k < |approvals| ==> j.fields["fda"].items[k] == ApprovalJson(approvals[k])
  {
    Obj(map[
      "pubmed" := Arr(seq(|articles|, k requires 0 <= k < |articles| => ArticleJson(articles[k]))),
      "clinical_trials" := Arr(seq(|trials|, k requires 0 <= k < |trials| => TrialJson(trials[k]))),
      "fda" := Arr(seq(|approvals|, k requires 0 <= k < |approvals| => ApprovalJson(approvals[k])))])
  }

  /**
   * GET /research/<drug_name>: the three lookups one after another, PubMed and
   * ClinicalTrials.gov with the condition, openFDA with the drug name alone. Every lookup
   * turns its failures into an empty list, so the reply is always 200.
   */
  method SearchResearch(drugName: string, args: map<string, string>, fetch: Request -> Reply)
    returns (resp: Response, calls: seq<Request>)
    ensures resp.status == 200
    ensures resp.body == ResearchEnvelope(PubMedLookup(drugName, Condition(args), fetch),
                                          TrialsLookup(drugName, Condition(args), fetch),
                                          FdaLookup(drugName, fetch))
    ensures calls == PubMedCalls(drugName, Condition(args), fetch)
                     + [TrialsRequest(drugName, Condition(args)), FdaRequest(drugName)]
  {
    var condition := Condition(args);
    var articles, pubmedCalls := SearchPubMed(drugName, condition, fetch);
    var trials, trialCalls := SearchClinicalTrials(drugName, condition, fetch);
    var approvals, fdaCalls := SearchFda(drugName, fetch);
    calls := pubmedCalls + trialCalls + fdaCalls;
    resp := Response(200, ResearchEnvelope(articles, trials, approvals));
  }

  /** The openFDA part of the reply is the same whatever condition the query string carries. */
  lemma FdaIgnoresCondition(drugName: string, a1: map<string, string>, a2: map<string, string>, fetch: Request -> Reply)
    ensures ResearchEnvelope(PubMedLookup(drugName, Condition(a1), fetch), TrialsLookup(drugName, Condition(a1), fetch),
                             FdaLookup(drugName, fetch)).fields["fda"]
         == ResearchEnvelope(PubMedLookup(drugName, Condition(a2), fetch), TrialsLookup(drugName, Condition(a2), fetch),
                             FdaLookup(drugName, fetch)).fields["fda"]
  {
  }

  /** A registry that fails leaves an empty list in its slot and does not disturb the other two. */
  lemma FailedSourceGivesEmptyList(drugName: string, condition: string, fetch: Request -> Reply)
    requires fetch(TrialsRequest(drugName, condition)) == Failed
    ensures TrialsLookup(drugName, condition, fetch) == []
    ensures ResearchEnvelope(PubMedLookup(drugName, condition, fetch), TrialsLookup(drugName, condition, fetch),
                             FdaLookup(drugName, fetch)).fields["clinical_trials"] == Arr([])
  {
  }

  // ---------------------------------------------------------------------------
  // `export_pdf`
  // ---------------------------------------------------------------------------

  /** `os.path.basename`: the part after the last '/'. */
  function Basename(path: string): (b: string)
    ensures '/' !in b && EndsWith(path, b)
    ensures |b| < |path| ==> path[|path| - |b| - 1] == '/'
  {
    var i := RFind(path, '/');
    assert path[|path| - |path[i + 1..]|..] == path[i + 1..];
    path[i + 1..]
  }

  /**
   * POST /export/pdf. `data` is the decoded request body and `render` the report writer,
   * giving the written file's path or the reason it raised. A false body is refused with 400;
   * without an API key, with a body that is not a dict, or when rendering raises, the reply is
   * 500; otherwise it carries the download URL of the report.
   */
  function ExportPdf(data: Json, apiKey: Option<string>, render: map<string, Json> -> Result<string, string>)
    : (resp: Response)
    ensures resp.status == 400 <==> !Truthy(data)
    ensures resp.status == 400 ==> resp.body == ErrorBody(ExportDataMissingMessage)
    ensures resp.status == 200 <==> Truthy(data) && ApiKeyConfigured(apiKey) && data.Obj? && render(data.fields).Ok?
    ensures resp.status == 200 ==>
      resp.body == Obj(map["pdf_url" := Str(DownloadPrefix + Basename(render(data.fields).value))])
    ensures resp.status in {200, 400, 500}
    ensures Truthy(data) && !ApiKeyConfigured(apiKey) ==>
      resp == Response(500, ErrorBody(ExportErrorPrefix + MissingKeyMessage))
    ensures Truthy(data) && ApiKeyConfigured(apiKey) && !data.Obj? ==>
      resp == Response(500, ErrorBody(ExportErrorPrefix + PdfErrorPrefix + NoGetMessage(data)))
    ensures Truthy(data) && ApiKeyConfigured(apiKey) && data.Obj? && render(data.fields).Err? ==>
      resp == Response(500, ErrorBody(ExportErrorPrefix + PdfErrorPrefix + render(data.fields).error))
  {
    if !Truthy(data) then Response(400, ErrorBody(ExportDataMissingMessage))
    else if !ApiKeyConfigured(apiKey) then Response(500, ErrorBody(ExportErrorPrefix + MissingKeyMessage))
    else if !data.Obj? then Response(500, ErrorBody(ExportErrorPrefix + PdfErrorPrefix + NoGetMessage(data)))
    else
      match render(data.fields)
      case Err(reason) => Response(500, ErrorBody(ExportErrorPrefix + PdfErrorPrefix + reason))
      case Ok(path) => Response(200, Obj(map["pdf_url" := Str(DownloadPrefix + Basename(path))]))
  }

  /** An empty or missing body is refused before any report is built: the writer and the key play no part. */
  lemma EmptyExportSkipsReport(data: Json, k1: Option<string>, r1: map<string, Json> -> Result<string, string>,
                               k2: Option<string>, r2: map<string, Json> -> Result<string, string>)
    requires !Truthy(data)
    ensures ExportPdf(data, k1, r1) == ExportPdf(data, k2, r2)
  {
  }
}
