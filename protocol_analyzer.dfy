/**
 * The analysis of an uploaded protocol: the empty-document guard, the prompt sent to the
 * language model, the tolerant extraction of a JSON object from its reply, and the shaping of
 * the outcome into a success or a failure record. The document text, the model's reply,
 * `json.loads` and the clock are parameters of the model.
 */
module ProtocolAnalyzer {
  import opened Wrappers
  import opened Text
  import opened JsonData

  /** The text extracted from the uploaded DOCX file, or the reason the extraction raised. */
  datatype DocText = Extracted(text: string) | Unreadable(reason: string)

  /** What the generative model gives for a prompt: the reply text, or the reason the call raised. */
  datatype ProviderReply = Generated(text: string) | ProviderError(reason: string)

  /** What `json.loads` gives for a text: the decoded value, or the `JSONDecodeError` message. */
  datatype Parsed = Parsed(value: Json) | DecodeError(reason: string)

  /**
   * The dict `analyze_protocol` returns: the three content fields and a timestamp on success,
   * only the error message and a timestamp on failure.
   */
  datatype AnalysisResult =
    | Success(protocolSummary: Json, mainCondition: Json, drugs: Json, timestamp: string)
    | Failure(error: string, timestamp: string)

  const EmptyDocumentMessage := "Документ пуст или не содержит текста"
  const DocxErrorPrefix := "Ошибка при извлечении текста из DOCX: "
  const AiErrorPrefix := "Ошибка при анализе с помощью ИИ: "
  const NoJsonMessage := "Не удалось найти JSON в ответе ИИ"
  const DecodeErrorPrefix := "Ошибка при парсинге JSON ответа: "

  // ---------------------------------------------------------------------------
  // The prompt
  // ---------------------------------------------------------------------------

  const PromptHead :=
    "\nПроанализируйте следующий клинический протокол и извлеките информацию о лекарственных средствах.\n\nТекст протокола:\n"

  const PromptTail :=
    "\n"
    + "\n"
    + "Верните результат в JSON формате:\n"
    + "{\n"
    + "  \"protocolSummary\": \"краткое резюме протокола\",\n"
    + "  \"mainCondition\": \"основное заболевание или состояние\",\n"
    + "  \"drugs\": [\n"
    + "    {\n"
    + "      \"id\": \"уникальный идентификатор\",\n"
    + "      \"name\": \"название препарата\",\n"
    + "      \"innEnglish\": \"международное непатентованное название на английском\",\n"
    + "      \"innRussian\": \"международное непатентованное название на русском\", \n"
    + "      \"dosage\": \"дозировка\",\n"
    + "      \"route\": \"путь введения\",\n"
    + "      \"frequency\": \"режим приема\",\n"
    + "      \"duration\": \"длительность\",\n"
    + "      \"indication\": \"показание к применению из протокола\",\n"
    + "      \"targetCondition\": \"конкретное заболевание/состояние для поиска исследований\"\n"
    + "    }\n"
    + "  ]\n"
    + "}\n"
    + "\n"
    + "Важно: \n"
    + "- Для innEnglish используйте точное международное непатентованное название (INN) на английском языке\n"
    + "- Для targetCondition укажите наиболее специфичное заболевание или состояние\n"
    + "- Если препарат не найден, не включайте его в список\n"

  /** The prompt: the instructions, the protocol text verbatim, and the expected JSON layout. */
  function Prompt(text: string): (p: string)
    ensures |p| == |PromptHead| + |text| + |PromptTail|
    ensures p[..|PromptHead|] == PromptHead
    ensures p[|PromptHead|..|PromptHead| + |text|] == text
    ensures p[|PromptHead| + |text|..] == PromptTail
  {
    PromptHead + text + PromptTail
  }

  /** Different protocol texts give different prompts. */
  lemma PromptDeterminesText(a: string, b: string)
    requires Prompt(a) == Prompt(b)
    ensures a == b
  {
    MiddleDetermined(PromptHead, a, b, PromptTail);
  }

  // ---------------------------------------------------------------------------
  // JSON span of the reply
  // ---------------------------------------------------------------------------

  /**
   * `reply[reply.find('{'):reply.rfind('}') + 1]`, or `None` when either brace is missing.
   * When the last `}` comes before the first `{` the Python slice is empty.
   */
  function JsonSpan(reply: string): (r: Option<string>)
    ensures r.None? <==> '{' !in reply || '}' !in reply
    ensures r.Some? ==> (r.value == [] <==> RFind(reply, '}') < Find(reply, '{'))
    ensures r.Some? && r.value != [] ==>
      r.value[0] == '{' && r.value[|r.value| - 1] == '}'
      && Find(reply, '{') + |r.value| <= |reply|
      && reply[Find(reply, '{')..Find(reply, '{') + |r.value|] == r.value
      && '{' !in reply[..Find(reply, '{')]
      && '}' !in reply[Find(reply, '{') + |r.value|..]
  {
    var start := Find(reply, '{');
    var end := RFind(reply, '}') + 1;
    if start == -1 || end == 0 then None else Some(Slice(reply, start, end))
  }

  /**
   * Prose before and after a braced text is ignored: with no `{` before it and no `}` after it,
   * the span is exactly the braced text.
   */
  lemma SpanRecoversEmbeddedObject(before: string, obj: string, after: string)
    requires |obj| >= 2 && obj[0] == '{' && obj[|obj| - 1] == '}'
    requires '{' !in before && '}' !in after
    ensures JsonSpan(before + obj + after) == Some(obj)
  {
    var reply := before + obj + after;
    assert reply[|before|] == '{';
    assert reply[..|before|] == before;
    assert Find(reply, '{') == |before|;
    var last := |before| + |obj| - 1;
    assert reply[last] == '}';
    assert reply[last + 1..] == after;
    assert RFind(reply, '}') == last;
    assert reply[|before|..last + 1] == obj;
  }

  /** A reply with no `{` or no `}` holds no JSON span. */
  lemma NoBracesMeansNoSpan(reply: string)
    requires '{' !in reply || '}' !in reply
    ensures JsonSpan(reply).None?
  {
  }

  // ---------------------------------------------------------------------------
  // `_analyze_with_ai`
  // ---------------------------------------------------------------------------

  /**
   * Prompts the model, cuts the JSON span out of its reply and decodes it. A decode error
   * keeps its own prefix; every other failure, the missing span included, is reported with
   * the AI prefix.
   */
  function AnalyzeWithAi(text: string, generate: string -> ProviderReply, parse: string -> Parsed)
    : (r: Result<Json, string>)
    ensures r.Ok? <==>
      generate(Prompt(text)).Generated? && JsonSpan(generate(Prompt(text)).text).Some?
      && parse(JsonSpan(generate(Prompt(text)).text).value).Parsed?
    ensures r.Ok? ==> r.value == parse(JsonSpan(generate(Prompt(text)).text).value).value
    ensures generate(Prompt(text)).ProviderError? ==> r == Err(AiErrorPrefix + generate(Prompt(text)).reason)
    ensures generate(Prompt(text)).Generated? && JsonSpan(generate(Prompt(text)).text).None? ==>
      r == Err(AiErrorPrefix + NoJsonMessage)
    ensures generate(Prompt(text)).Generated? && JsonSpan(generate(Prompt(text)).text).Some? ==>
      var span := JsonSpan(generate(Prompt(text)).text).value;
      parse(span).DecodeError? ==> r == Err(DecodeErrorPrefix + parse(span).reason)
  {
    match generate(Prompt(text))
    case ProviderError(reason) => Err(AiErrorPrefix + reason)
    case Generated(reply) =>
      match JsonSpan(reply)
      case None => Err(AiErrorPrefix + NoJsonMessage)
      case Some(span) =>
        match parse(span)
        case DecodeError(reason) => Err(DecodeErrorPrefix + reason)
        case Parsed(value) => Ok(value)
  }

  /** A reply without braces ends in the "no JSON found" error, whatever the parser. */
  lemma NoBracesMeansNoJson(text: string, generate: string -> ProviderReply, parse: string -> Parsed)
    requires generate(Prompt(text)).Generated?
    requires '{' !in generate(Prompt(text)).text || '}' !in generate(Prompt(text)).text
    ensures AnalyzeWithAi(text, generate, parse) == Err(AiErrorPrefix + NoJsonMessage)
  {
  }

  /**
   * When the last `}` precedes the first `{`, the empty string goes to the parser, which
   * rejects it, so the call ends in a decode error.
   */
  lemma BackwardBracesFail(text: string, generate: string -> ProviderReply, parse: string -> Parsed)
    requires generate(Prompt(text)).Generated?
    requires '{' in generate(Prompt(text)).text && '}' in generate(Prompt(text)).text
    requires RFind(generate(Prompt(text)).text, '}') < Find(generate(Prompt(text)).text, '{')
    requires parse("").DecodeError?
    ensures AnalyzeWithAi(text, generate, parse) == Err(DecodeErrorPrefix + parse("").reason)
  {
  }

  // ---------------------------------------------------------------------------
  // `analyze_protocol`
  // ---------------------------------------------------------------------------

  /** The message of the `AttributeError` raised by calling `get` on a decoded value that is not a dict. */
  function NoGetMessage(value: Json): string {
    "'" + TypeName(value) + "' object has no attribute 'get'"
  }

  /**
   * The dict built from what the AI step gave: an error becomes a failure record with its
   * message; a decoded dict becomes a success record whose missing keys get their defaults;
   * any other decoded value has no `get`, which raises.
   */
  function ShapeResult(outcome: Result<Json, string>, now: string): (r: AnalysisResult)
    ensures r.timestamp == now
    ensures r.Success? <==> outcome.Ok? && outcome.value.Obj?
    ensures outcome.Err? ==> r == Failure(outcome.error, now)
    ensures r.Success? ==>
      var m := outcome.value.fields;
      r.protocolSummary == (if "protocolSummary" in m then m["protocolSummary"] else Str(""))
      && r.mainCondition == (if "mainCondition" in m then m["mainCondition"] else Str(""))
      && r.drugs == (if "drugs" in m then m["drugs"] else Arr([]))
  {
    match outcome
    case Err(message) => Failure(message, now)
    case Ok(value) =>
      match (Get(value, "protocolSummary", Str("")), Get(value, "mainCondition", Str("")),
             Get(value, "drugs", Arr([])))
      case (Some(summary), Some(condition), Some(drugs)) => Success(summary, condition, drugs, now)
      case _ => Failure(NoGetMessage(value), now)
  }

  /**
   * Extracts the text, refuses a blank document, asks the model, and shapes the outcome:
   * every exception becomes a failure record carrying its message.
   */
  function AnalyzeProtocol(document: DocText, generate: string -> ProviderReply, parse: string -> Parsed, now: string)
    : (r: AnalysisResult)
    ensures r.timestamp == now
    ensures document.Unreadable? ==> r == Failure(DocxErrorPrefix + document.reason, now)
    ensures document.Extracted? && IsBlank(document.text) ==> r == Failure(EmptyDocumentMessage, now)
    ensures document.Extracted? && !IsBlank(document.text) ==>
      r == ShapeResult(AnalyzeWithAi(document.text, generate, parse), now)
  {
    match document
    case Unreadable(reason) => Failure(DocxErrorPrefix + reason, now)
    case Extracted(text) =>
      StripEmptyIffBlank(text);
      if Strip(text) == "" then Failure(EmptyDocumentMessage, now)
      else ShapeResult(AnalyzeWithAi(text, generate, parse), now)
  }

  /** A blank document is refused before the model is asked: the result does not depend on it or on the parser. */
  lemma BlankDocumentSkipsAi(text: string, g1: string -> ProviderReply, p1: string -> Parsed,
                             g2: string -> ProviderReply, p2: string -> Parsed, now: string)
    requires IsBlank(text)
    ensures AnalyzeProtocol(Extracted(text), g1, p1, now) == AnalyzeProtocol(Extracted(text), g2, p2, now)
    ensures AnalyzeProtocol(Extracted(text), g1, p1, now) == Failure(EmptyDocumentMessage, now)
  {
  }

  /** A decoded dict gives a success record whose missing keys default to "", "" and []. */
  lemma SuccessDefaults(text: string, generate: string -> ProviderReply, parse: string -> Parsed, now: string)
    requires !IsBlank(text)
    requires AnalyzeWithAi(text, generate, parse).Ok? && AnalyzeWithAi(text, generate, parse).value.Obj?
    ensures var m := AnalyzeWithAi(text, generate, parse).value.fields;
      AnalyzeProtocol(Extracted(text), generate, parse, now) == Success(
        if "protocolSummary" in m then m["protocolSummary"] else Str(""),
        if "mainCondition" in m then m["mainCondition"] else Str(""),
        if "drugs" in m then m["drugs"] else Arr([]),
        now)
  {
  }

  /** The analysis fails exactly when one of its steps raises. */
  lemma FailureIffSomeStepRaises(document: DocText, generate: string -> ProviderReply, parse: string -> Parsed, now: string)
    ensures AnalyzeProtocol(document, generate, parse, now).Failure? <==>
      document.Unreadable? || IsBlank(document.text)
      || AnalyzeWithAi(document.text, generate, parse).Err?
      || !AnalyzeWithAi(document.text, generate, parse).value.Obj?
  {
  }

  /** A failure record always explains itself: its `error` is never empty. */
  lemma FailureHasMessage(document: DocText, generate: string -> ProviderReply, parse: string -> Parsed, now: string)
    ensures AnalyzeProtocol(document, generate, parse, now).Failure? ==>
      AnalyzeProtocol(document, generate, parse, now).error != ""
  {
    var r := AnalyzeProtocol(document, generate, parse, now);
    match document
    case Unreadable(reason) =>
      assert r.error == DocxErrorPrefix + reason;
      assert |DocxErrorPrefix| > 0;
    case Extracted(text) =>
      if IsBlank(text) {
        assert |EmptyDocumentMessage| > 0;
      } else {
        var outcome := AnalyzeWithAi(text, generate, parse);
        assert r == ShapeResult(outcome, now);
        if outcome.Err? {
          AiErrorHasMessage(text, generate, parse);
        } else if r.Failure? {
          assert r.error == NoGetMessage(outcome.value);
        }
      }
  }

  /** Every error of the AI step starts with one of its two non-empty prefixes. */
  lemma AiErrorHasMessage(text: string, generate: string -> ProviderReply, parse: string -> Parsed)
    ensures AnalyzeWithAi(text, generate, parse).Err? ==> AnalyzeWithAi(text, generate, parse).error != ""
  {
    assert |AiErrorPrefix| > 0 && |DecodeErrorPrefix| > 0;
  }

  /** The dict the route serialises: the success record's five keys, or the failure record's three. */
  function AnalysisJson(r: AnalysisResult): (j: Json)
    ensures j.Obj? && "success" in j.fields && "analysis_timestamp" in j.fields
    ensures j.Obj? && j.fields["success"] == Bool(r.Success?) && j.fields["analysis_timestamp"] == Str(r.timestamp)
    ensures r.Success? ==>
      j.Obj? && j.fields.Keys == {"success", "protocol_summary", "main_condition", "drugs", "analysis_timestamp"}
      && j.fields["protocol_summary"] == r.protocolSummary && j.fields["main_condition"] == r.mainCondition
      && j.fields["drugs"] == r.drugs
    ensures r.Failure? ==>
      j.Obj? && j.fields.Keys == {"success", "error", "analysis_timestamp"} && j.fields["error"] == Str(r.error)
  {
    match r
    case Success(summary, condition, drugs, timestamp) =>
      Obj(map["success" := Bool(true), "protocol_summary" := summary, "main_condition" := condition,
              "drugs" := drugs, "analysis_timestamp" := Str(timestamp)])
    case Failure(error, timestamp) =>
      Obj(map["success" := Bool(false), "error" := Str(error), "analysis_timestamp" := Str(timestamp)])
  }
}
