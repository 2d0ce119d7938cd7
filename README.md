# Protocol analyzer: a verified model of its deterministic core

The backend of the clinical-protocol analyzer takes a DOCX protocol, has a language model
list the drugs it prescribes, and then looks up published evidence for each drug in three
registries: PubMed, ClinicalTrials.gov and openFDA. Most of the code is glue: a Flask
blueprint, the Gemini SDK, DOCX extraction, `requests` calls and ReportLab layout. Between
those calls sit a few deterministic rules, and this project models them in Dafny and proves
what they guarantee:

- **Research service** (`research_service.dfy`, module `ResearchService`)
  - The study-type classifier. It is a case-insensitive, priority-ordered substring test with
    five labels, and it is proved equal to a first-match reading of a rule table.
  - The three registry queries.
  - The normalisation of each registry's JSON reply into flat records. The `for` loops that
    build the record lists are methods with loop invariants. Each method is proved equal to a
    recursive specification function, and the properties are proved about those functions.
  - Every request goes through a `fetch: Request -> Reply` parameter. The methods also return
    the requests they issued, in order.
- **Protocol analyzer** (`protocol_analyzer.dfy`, module `ProtocolAnalyzer`)
  - The prompt.
  - The tolerant JSON span of the model's reply: from the first `{` to the last `}`.
  - The guard against empty documents.
  - How the outcome becomes a success record or a failure record.
  - The extracted text, the model's reply, `json.loads` and the timestamp are parameters.
- **Routes** (`analyzer_routes.dfy`, module `AnalyzerRoutes`)
  - `allowed_file`.
  - The early-return cascade of the upload handler.
  - The three-key research envelope.
  - The guard of the PDF export.
- **Support modules**
  - `text.dfy` (`Text`) holds the Python string operations the code relies on: `strip`,
    `lower`, `in`, `find`, `rfind`, slicing, `join`, `split`, and `split()[0]`.
  - `json_data.dfy` (`JsonData`, `Http`) holds decoded JSON and the Python rules for using it:
    truthiness, `dict.get`, iteration, `[0]`, `in` followed by subscripting, and f-string
    formatting. It also holds the request, reply and response types.
  - `wrappers.dfy` holds `Option` and `Result`.

Python raises exceptions where the model returns `None`. Every registry lookup catches all
exceptions and returns `[]`, and the model's `None` maps to that `[]`. A failed transport, a
non-OK status and an undecodable body are all the `Failed` reply.

## Model

| member | source | states |
|---|---|---|
| ResearchService.DetermineStudyType | backend/src/services/research_service.py:152-165 | the label is always one of the five labels |
| ResearchService.StudyTypeIsFirstMatch | backend/src/services/research_service.py:152-165 | the if/elif chain equals the first-match reading of the rule table (meta-analysis, systematic review, RCT, clinical trial; fallback "Study") |
| ResearchService.FirstMatchingRuleWins | backend/src/services/research_service.py:156-163 | in a rule table, the first matching rule decides, whatever later rules match |
| ResearchService.NoMatchingRuleGivesFallback | backend/src/services/research_service.py:164-165 | when no rule matches, the fallback label is returned |
| ResearchService.StudyTypeFallback | backend/src/services/research_service.py:164-165 | "Study" is returned exactly when none of the six phrases occurs in the lower-cased title |
| ResearchService.MetaAnalysisTakesPriority | backend/src/services/research_service.py:156-157 | a title containing "meta-analysis" or "meta analysis" is a Meta-analysis, whatever else it contains |
| ResearchService.StudyTypeIgnoresCase | backend/src/services/research_service.py:154 | titles equal after lower-casing get the same label |
| ResearchService.RctIsPlainSubstring | backend/src/services/research_service.py:160-161 | any title containing "rct" and no higher-priority phrase is labelled RCT |
| ResearchService.InfarctionIsRct | backend/src/services/research_service.py:160-161 | because "infarction" contains "rct", a title about infarction with no higher-priority phrase is labelled RCT |
| ResearchService.PubMedTerm | backend/src/services/research_service.py:18-21 | both branches give the title/abstract clause, then the MeSH clause (empty without a condition), then the same publication-type OR group |
| ResearchService.PubMedTermDeterminesCondition | backend/src/services/research_service.py:18-21 | for one drug, different conditions give different esearch terms |
| ResearchService.MeshClauseInjective | backend/src/services/research_service.py:19 | the MeSH clause determines its condition |
| ResearchService.EsearchRequest | backend/src/services/research_service.py:24-30 | the esearch URL with `db` pubmed, the term (title clause, MeSH clause, publication-type filter), `retmax` 5 and `retmode` json, in that order |
| ResearchService.EsummaryRequest | backend/src/services/research_service.py:43-48 | the esummary URL with `db` pubmed, `id` starting with the first id, and `retmode` json |
| ResearchService.SummaryRequestCarriesSearchIds | backend/src/services/research_service.py:43-48 | splitting the esummary `id` parameter on commas gives back the esearch ids in order |
| ResearchService.SearchIds | backend/src/services/research_service.py:37-39 | a body that is not a dict, or an `esearchresult` that is not a dict, raises; a missing `esearchresult` or `idlist`, or a false `idlist`, gives no ids; a non-empty list gives its strings in order, and fails iff some item is not a string |
| ResearchService.AuthorName | backend/src/services/research_service.py:63 | an author's name is its `name` string, "" when the key is missing; it raises iff the entry is not a dict or its `name` is not a string |
| ResearchService.AuthorNames | backend/src/services/research_service.py:63 | one name per author entry, in order, each equal to that entry's name; the list fails iff some entry's name raises |
| ResearchService.AuthorsField | backend/src/services/research_service.py:63 | for a list, the field exists iff each of the first three entries has a readable name; "" for an empty string; any other value raises |
| ResearchService.AuthorsIgnoreBeyondThird | backend/src/services/research_service.py:63 | authors after the third do not change the `authors` field |
| ResearchService.AuthorsOfShortList | backend/src/services/research_service.py:63 | with up to three readable authors, the field is all their names (empty when missing) joined by ", " |
| ResearchService.YearField | backend/src/services/research_service.py:65 | `year` is "" for an absent or false `pubdate`; a true `pubdate` that is not a string raises; otherwise it is the first whitespace token of the date; a whitespace-only date raises |
| ResearchService.ArticleFor | backend/src/services/research_service.py:59-68 | a record exists iff the entry is a dict whose `title` (default "") is a string and whose authors and year can be computed; the record's title, authors and journal are the entry's `get` values (defaults "", [] and ""), it keeps the pmid, its URL is the PubMed prefix + pmid + "/", its type is the classifier's label of its title, and its year is `YearField` |
| ResearchService.ArticlesFrom | backend/src/services/research_service.py:57-68 | at most one article per id; every article's pmid is a searched id with the PubMed URL; a `result` that is not a dict gives no articles |
| ResearchService.ArticlesFollowSearchOrder | backend/src/services/research_service.py:57-68 | the articles are exactly the entries of the ids present in `result`, one per occurrence, in esearch order |
| ResearchService.ArticlesFailOnAnyBadEntry | backend/src/services/research_service.py:57-74 | the search yields nothing exactly when the entry of some listed id cannot be read |
| ResearchService.PubMedWithoutIdsSkipsSummary | backend/src/services/research_service.py:37-40 | with no ids, the result is empty and only the esearch request is sent |
| ResearchService.PubMedArticlesComeFromSearch | backend/src/services/research_service.py:36-68 | a non-empty result means both requests were sent and every article comes from the esearch ids |
| ResearchService.CollectArticles | backend/src/services/research_service.py:55-70 | the loop over the ids builds exactly `ArticlesFrom` |
| ResearchService.SearchPubMed | backend/src/services/research_service.py:14-74 | returns `PubMedLookup` and issues exactly `PubMedCalls` |
| ResearchService.MapAll | backend/src/services/research_service.py:100-113 | a successful record list has one record per entry |
| ResearchService.MapAllKeepsOrder | backend/src/services/research_service.py:100-113 | the k-th record is the record of the k-th entry |
| ResearchService.MapAllFailsIffSomeEntryFails | backend/src/services/research_service.py:136-145 | the list fails exactly when some entry's record raises |
| ResearchService.CollectAll | backend/src/services/research_service.py:98-113 | the append loop builds exactly `MapAll` |
| ResearchService.ClinicalTrialsExpr | backend/src/services/research_service.py:79-86 | `expr` is the drug alone without a condition, and drug + " AND " + condition with one |
| ResearchService.TrialsRequest | backend/src/services/research_service.py:84-91 | the study_fields URL with `expr`, the six `fields`, `min_rnk` 1, `max_rnk` 5 and `fmt` json, in that order |
| ResearchService.FirstValue | backend/src/services/research_service.py:101-104 | `study.get(key, [''])[0]`: raises on a non-dict study; "" when the key is missing; otherwise `[0]` of the value |
| ResearchService.TrialFor | backend/src/services/research_service.py:101-112 | a record exists iff the four first values exist and the NCT id can be formatted; its four fields are those first values, and its URL is the registry page prefix + the formatted NCT id |
| ResearchService.TrialDefaults | backend/src/services/research_service.py:101-104 | a study with none of the four fields gives empty strings and the bare registry URL |
| ResearchService.StudyEntries | backend/src/services/research_service.py:100 | a non-dict body or `StudyFieldsResponse` raises; a missing `StudyFieldsResponse` or `StudyFields` gives no studies; otherwise the studies are what iterating `StudyFields` visits |
| ResearchService.SearchClinicalTrials | backend/src/services/research_service.py:76-118 | returns `TrialsLookup` and issues exactly the one study-fields request |
| ResearchService.FdaRequest | backend/src/services/research_service.py:123-127 | the drugsfda URL with `search` on the quoted drug name among active ingredients, then `limit` 3 |
| ResearchService.FdaRequestNamesOnlyTheDrug | backend/src/services/research_service.py:124-127 | the openFDA request carries `limit` 3 and is determined by the drug name alone |
| ResearchService.ApprovalFor | backend/src/services/research_service.py:137-144 | a record exists iff the result is a dict whose application number (default "") can be formatted; its number and sponsor are the `get` values, missing fields default to "", and the URL is the overview prefix + the formatted number |
| ResearchService.SearchFda | backend/src/services/research_service.py:120-150 | returns `FdaLookup` and issues exactly the one openFDA request |
| ResearchService.FdaRecordsFollowResults | backend/src/services/research_service.py:133-146 | a delivered dict whose `results` is a list gives one record per entry in order, or nothing when some entry raises |
| ResearchService.ArticleJson | backend/src/services/research_service.py:60-68 | the article dict has exactly its seven keys, each carrying the matching record field |
| ResearchService.TrialJson | backend/src/services/research_service.py:106-112 | the trial dict has exactly its five keys, each carrying the matching record field |
| ResearchService.ApprovalJson | backend/src/services/research_service.py:140-144 | the application dict has exactly its three keys, each carrying the matching record field |
| ProtocolAnalyzer.Prompt | backend/src/services/protocol_analyzer.py:61-91 | the prompt is the instructions, then the protocol text verbatim, then the expected JSON layout |
| ProtocolAnalyzer.PromptDeterminesText | backend/src/services/protocol_analyzer.py:61-91 | different protocol texts give different prompts |
| ProtocolAnalyzer.JsonSpan | backend/src/services/protocol_analyzer.py:100-106 | no span iff a brace is missing; the span is empty iff the last `}` precedes the first `{`; otherwise it runs from the first `{` to the last `}` inclusive |
| ProtocolAnalyzer.SpanRecoversEmbeddedObject | backend/src/services/protocol_analyzer.py:100-106 | prose with no `{` before and no `}` after a braced text is stripped away exactly |
| ProtocolAnalyzer.NoBracesMeansNoSpan | backend/src/services/protocol_analyzer.py:100-104 | a reply lacking either brace has no span |
| ProtocolAnalyzer.AnalyzeWithAi | backend/src/services/protocol_analyzer.py:93-114 | a decoded value is returned exactly when the model replied, a span exists and the parser accepted it, and it is the parser's value; a provider error gives the AI prefix + its reason, a missing span the AI prefix + the "no JSON found" message, a decode error the decode prefix + its reason |
| ProtocolAnalyzer.AiErrorHasMessage | backend/src/services/protocol_analyzer.py:103-114 | every error of the AI step has a non-empty message |
| ProtocolAnalyzer.NoBracesMeansNoJson | backend/src/services/protocol_analyzer.py:103-104 | a reply without braces ends in the "no JSON found" error under the AI prefix |
| ProtocolAnalyzer.BackwardBracesFail | backend/src/services/protocol_analyzer.py:101-112 | if the last `}` precedes the first `{`, the empty span reaches the parser and the call ends in a decode error |
| ProtocolAnalyzer.ShapeResult | backend/src/services/protocol_analyzer.py:44-57 | success exactly for a decoded dict, with missing keys defaulting to "", "" and []; an AI-step error becomes a failure with its message; the timestamp is the clock's |
| ProtocolAnalyzer.AnalyzeProtocol | backend/src/services/protocol_analyzer.py:32-57 | the timestamp is always the clock's; an unreadable or blank document fails with its message before the AI step; a readable, non-blank one is shaped from the AI step's outcome |
| ProtocolAnalyzer.BlankDocumentSkipsAi | backend/src/services/protocol_analyzer.py:38-42 | a blank document fails, whatever the model and the parser would do |
| ProtocolAnalyzer.SuccessDefaults | backend/src/services/protocol_analyzer.py:44-50 | a decoded dict gives success with missing keys defaulting to "", "" and [] |
| ProtocolAnalyzer.FailureIffSomeStepRaises | backend/src/services/protocol_analyzer.py:34-57 | the result is a failure exactly when extraction raises, the text is blank, the AI step errs, or the decoded value is not a dict |
| ProtocolAnalyzer.FailureHasMessage | backend/src/services/protocol_analyzer.py:26-57 | a failure record always carries a non-empty `error` |
| ProtocolAnalyzer.AnalysisJson | backend/src/services/protocol_analyzer.py:44-57 | success has exactly five keys carrying the summary, condition, drugs and timestamp of the record; failure has exactly `success`, `error` and `analysis_timestamp`, so no content fields; `success` and the timestamp always match the record |
| AnalyzerRoutes.AfterLast | backend/src/routes/analyzer.py:14 | `rsplit('.', 1)[1]` raises iff there is no dot; otherwise it is the dot-free text after the last dot |
| AnalyzerRoutes.AllowedFile | backend/src/routes/analyzer.py:12-14 | a name is allowed iff it has a dot and the text after its last dot, lower-cased, is "docx" |
| AnalyzerRoutes.AllowedFileIffDocxSuffix | backend/src/routes/analyzer.py:12-14 | a name is allowed iff its last five characters, lower-cased, are ".docx" |
| AnalyzerRoutes.AllowedFileAcceptsDocx | backend/src/routes/analyzer.py:12-14 | "A.DOCX" and ".docx" are allowed |
| AnalyzerRoutes.AllowedFileRejectsOthers | backend/src/routes/analyzer.py:12-14 | "docx" and "a.docx.pdf" are refused |
| AnalyzerRoutes.UploadFile | backend/src/routes/analyzer.py:16-45 | 400 iff the file part is missing, the name is empty or the extension is not allowed, with the messages in that order; otherwise 500 without an API key, else 200 with the analysis record |
| AnalyzerRoutes.UploadChecksPrecedeAnalysis | backend/src/routes/analyzer.py:20-28 | a rejected upload does not depend on the key, the document, the model, the parser or the clock |
| AnalyzerRoutes.FailedAnalysisIsStill200 | backend/src/routes/analyzer.py:36-42 | a failed analysis is still answered with 200 and `success` false |
| AnalyzerRoutes.ApiKeyConfigured | backend/src/services/protocol_analyzer.py:16-18 | the analyzer can be built iff `GEMINI_API_KEY` is set and, as a string, true (non-empty) |
| AnalyzerRoutes.Condition | backend/src/routes/analyzer.py:51 | the `condition` query argument, or "" when it is absent |
| AnalyzerRoutes.ResearchEnvelope | backend/src/routes/analyzer.py:54-60 | the body has exactly the keys `pubmed`, `clinical_trials` and `fda`, each a list whose k-th item is the dict of the k-th record |
| AnalyzerRoutes.SearchResearch | backend/src/routes/analyzer.py:47-63 | the reply is always 200 with the three lookups; PubMed and ClinicalTrials.gov get the condition and openFDA gets only the drug |
| AnalyzerRoutes.FdaIgnoresCondition | backend/src/routes/analyzer.py:57 | the `fda` slot is the same whatever condition the query string carries |
| AnalyzerRoutes.FailedSourceGivesEmptyList | backend/src/routes/analyzer.py:56 | a failing registry leaves an empty list in its slot |
| AnalyzerRoutes.Basename | backend/src/routes/analyzer.py:76 | the basename has no '/' and is the path's tail after its last '/' |
| AnalyzerRoutes.ExportPdf | backend/src/routes/analyzer.py:65-79 | 400 iff the body is false; 200 iff the key is set, the body is a dict and rendering succeeds, carrying the download URL; else 500: the missing-key message under the PDF creation prefix, or the `AttributeError` of a body that is not a dict or the render error under the creation and generation prefixes |
| AnalyzerRoutes.EmptyExportSkipsReport | backend/src/routes/analyzer.py:69-71 | a false body is refused regardless of the key and the report writer |
| Text.StripEmptyIffBlank | backend/src/services/protocol_analyzer.py:38 | `text.strip()` is empty exactly when the text is all whitespace |
| Text.FirstToken | backend/src/services/research_service.py:65 | `split()[0]` raises iff the string is blank; otherwise it is the first maximal run of non-whitespace |
| Text.Find | backend/src/services/protocol_analyzer.py:100 | `find` gives the first index of the character, or -1 iff it is absent |
| Text.RFind | backend/src/services/protocol_analyzer.py:101 | `rfind` gives the last index of the character, or -1 iff it is absent |
| Text.NatToString | backend/src/services/research_service.py:143 | the rendering is non-empty, all decimal digits, and has no leading zero unless the number is 0 |
| Text.NatToStringValue | backend/src/services/research_service.py:111 | the decimal rendering of a number reads back as that number |
| Text.IntToStringValue | backend/src/services/research_service.py:111 | `str(i)` is the digits of `i` without leading zeros, after a minus sign when `i` is negative |
| Text.SplitJoin | backend/src/services/research_service.py:46 | splitting a comma-joined list of comma-free parts gives the parts back |
| JsonData.Get | backend/src/services/research_service.py:37 | `get` exists only on dicts and gives the value or the default |
| JsonData.Elements | backend/src/services/research_service.py:100 | iterating succeeds exactly on a list, an empty string or an empty dict; a list visits its items, the other two nothing |
| JsonData.First | backend/src/services/research_service.py:101 | `[0]` succeeds exactly on a non-empty list or string, giving the first item or the first character |
| JsonData.Lookup | backend/src/services/research_service.py:58-59 | on a dict, `in` reports presence and subscripting gives the value; only a dict yields a value |
| JsonData.Format | backend/src/services/research_service.py:111 | a string is interpolated as itself, None as "None", booleans as "True"/"False", integers by `str`; lists and dicts are the only unmodelled cases |

## Left out

- The Gemini SDK set-up and the `generate_content` call (backend/src/services/protocol_analyzer.py:16-21,94). These are foreign network calls, and the reply is the `generate` parameter. The check of `GEMINI_API_KEY` is kept as `ApiKeyConfigured`.
- The mammoth DOCX extraction (backend/src/services/protocol_analyzer.py:23-30). It is file I/O through a library, so its outcome is the `DocText` parameter and only its error prefix is modelled.
- `json.loads`. It is the `parse` parameter, and the model does not assume that it accepts or rejects any particular text.
- The ReportLab layout in `generate_pdf_report` (backend/src/services/protocol_analyzer.py:116-191). It is the `render` parameter of `ExportPdf`, which keeps only the `AttributeError` for a body that is not a dict.
- The wall-clock timestamp. It is the `now` parameter.
- `requests.get`: timeouts, URL encoding of parameters and the `print` logging are not modelled. A reply is either `Failed` or the decoded body.
- Flask plumbing: temporary files and their deletion, `secure_filename` (its result is never used, backend/src/routes/analyzer.py:31), and a failing `file.save`.
- How `request.get_json()` rejects a body that is not JSON. `ExportPdf` receives the decoded body.
- `download_file` and `/health`. `download_file` calls `send_from_directory`, which is never imported, and `/health` returns a fixed payload.
- The application set-up in backend/src/main.py and the React front end. These are not part of this model.
- Concurrency. The three lookups run one after another, and `SearchResearch` issues them in that order.
- Text.Lower: lower-cases ASCII letters only. This is exact for every phrase the classifier matches and for "docx". Other letters in a title are left as they are.
- JsonData.Format: does not render lists and dicts. An f-string over one of them (an NCT id or application number that is a list) is treated as a failure of that lookup, which returns [].
- ResearchService.SearchIds: treats a non-empty string or dict under `idlist` as a failure, although Python would iterate its characters or keys.
- JSON numbers are integers only. Floating-point values are not modelled.

Some behaviour of the code is easy to miss, and the model follows the code:
- a failed analysis is still returned with HTTP 200 (`FailedAnalysisIsStill200`). The front end (frontend/src/App.jsx:52-57) throws only on a non-OK status and takes any OK body as the analysis result, so a failure record reaches it as a result with `success` false;
- drug identifiers in the AI reply are not validated or de-duplicated;
- the "no JSON found" error is raised inside the AI step's `try`, so it reaches the user with the AI-error prefix (`NoBracesMeansNoJson`).
