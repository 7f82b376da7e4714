/**
 * The analysis call: the response schema attached to every request, the
 * user prompt, the missing-credential check and the fallback result that
 * absorbs every failure of the call. The language-model service and the
 * JSON parser are parameters; the model sees only what they return.
 */
module GeminiService {
  import opened Types

  /** The parts of the response schema that constrain a reply's shape. */
  datatype Schema = Schema(
    properties: seq<string>,
    required: seq<string>,
    verdictEnum: seq<string>,
    narratorProperties: seq<string>,
    narratorRequired: seq<string>)

  const AnalysisSchema: Schema := Schema(
    ["verdict", "confidenceScore", "quranicConsistency", "isnadScore", "matnScore",
     "reasoning", "mathFormula", "narratorChain", "narrators", "orthogonalityCheck"],
    ["verdict", "confidenceScore", "quranicConsistency", "isnadScore", "matnScore",
     "reasoning", "mathFormula", "orthogonalityCheck"],
    ["صحيح", "حسن", "غريب", "موضوع / منكر"],
    ["name", "reliabilityScore", "status", "biographySnippet"],
    ["name", "reliabilityScore", "status", "biographySnippet"])

  /** The schema's verdict enum lists the four labels, in the enumeration's order, and nothing else. */
  lemma SchemaVerdictEnumMatchesLabels()
    ensures |AnalysisSchema.verdictEnum| == |AllVerdicts|
    ensures forall i :: 0 <= i < |AllVerdicts| ==> AnalysisSchema.verdictEnum[i] == Label(AllVerdicts[i])
    ensures forall s :: s in AnalysisSchema.verdictEnum <==> ParseVerdict(s).Some?
  {
    VerdictEnumeration();
    forall s ensures s in AnalysisSchema.verdictEnum <==> ParseVerdict(s).Some? {
      if ParseVerdict(s).Some? {
        var v := ParseVerdict(s).value;
        assert v in AllVerdicts;
      }
    }
  }

  /** The schema describes exactly the result's fields, and requires exactly those the data model always has. */
  lemma SchemaRequiredMatchesDataModel(name: string)
    ensures name in AnalysisSchema.properties <==> name in FieldNames
    ensures name in AnalysisSchema.required <==> name in FieldNames && forall r :: FieldPresent(r, name)
  {
    if name in FieldNames {
      OptionalFields(name);
    }
  }

  /** The narrator schema describes exactly the `Narrator` record's fields, in order, and requires every one. */
  lemma NarratorFieldsAllRequired()
    ensures AnalysisSchema.narratorProperties == NarratorFieldNames
    ensures forall p :: p in AnalysisSchema.narratorRequired <==> p in NarratorFieldNames
  {
  }

  const PromptPrefix: string := "قم بالتحليل والتخريج والحكم على هذا النص: \""

  /** The user turn of the request: the input text, quoted, after a fixed instruction. */
  function UserPrompt(text: string): (p: string)
    ensures |p| == |PromptPrefix| + |text| + 1
    ensures p[..|PromptPrefix|] == PromptPrefix
    ensures p[|PromptPrefix|..|p| - 1] == text
    ensures p[|p| - 1] == '"'
  {
    PromptPrefix + text + "\""
  }

  /** Distinct inputs give distinct prompts: the wrapper loses nothing. */
  lemma UserPromptInjective(a: string, b: string)
    requires UserPrompt(a) == UserPrompt(b)
    ensures a == b
  {
    var p := UserPrompt(a);
    assert a == p[|PromptPrefix|..|p| - 1];
  }

  /** What is sent to the service. The model name, temperature and system instruction are fixed and not modelled. */
  datatype Request = Request(userPrompt: string, schema: Schema)

  /** What the service gives back: a rejected call, or a reply whose text may be missing. */
  datatype Reply = CallFailed | Replied(text: Option<string>)

  /** A call either returns a value or throws an error with a message. */
  datatype Thrown<T> = Returned(value: T) | Threw(message: string)

  /** One invocation: the request it sent, if any, and what it produced. */
  datatype Call = Call(sent: Option<Request>, outcome: Thrown<AnalysisResult>)

  const MissingKeyMessage: string := "API Key is missing. Please set the API_KEY environment variable."

  /** The result every failure of the call collapses to. */
  const FallbackResult: AnalysisResult := AnalysisResult(
    Label(GHARIB), 0.0, 0.0, 0.0, 0.0,
    "تعذر الوصول إلى المصادر الرقمية. يرجى التحقق من الاتصال.",
    "Error = 1",
    Some([]),
    "خطأ في المعالجة.",
    Some([]))

  /** The fallback is a GHARIB verdict with every score 0 and empty chains, inside every documented range. */
  lemma FallbackShape()
    ensures ParseVerdict(FallbackResult.verdict) == Some(GHARIB)
    ensures FallbackResult.confidenceScore == 0.0 && FallbackResult.quranicConsistency == 0.0
    ensures FallbackResult.isnadScore == 0.0 && FallbackResult.matnScore == 0.0
    ensures FallbackResult.narratorChain == Some([]) && FallbackResult.narrators == Some([])
    ensures FallbackResult.mathFormula == "Error = 1"
    ensures InDocumentedRanges(FallbackResult)
  {
    ParseLabel(GHARIB);
  }

  /** The reply carries non-empty text that the parser accepts. */
  predicate Parsed(reply: Reply, parse: string -> Option<AnalysisResult>)
  {
    reply.Replied? && reply.text.Some? && reply.text.value != "" && parse(reply.text.value).Some?
  }

  /**
   * analyzeHadith. Without a credential it throws before building a request.
   * Otherwise it sends one request; a parsed reply is returned exactly as
   * parsed, and a failed call, a missing or empty text or a parse failure
   * all give the fallback.
   */
  function AnalyzeHadith(apiKey: string, text: string, service: Request -> Reply,
                         parse: string -> Option<AnalysisResult>): (c: Call)
    ensures c.outcome.Threw? <==> apiKey == ""
    ensures c.sent.None? <==> apiKey == ""
    ensures apiKey == "" ==> c.outcome.message == MissingKeyMessage
    ensures c.sent.Some? ==> c.sent.value.userPrompt == UserPrompt(text) && c.sent.value.schema == AnalysisSchema
    ensures c.sent.Some? && Parsed(service(c.sent.value), parse) ==>
              c.outcome == Returned(parse(service(c.sent.value).text.value).value)
    ensures c.sent.Some? && !Parsed(service(c.sent.value), parse) ==> c.outcome == Returned(FallbackResult)
  {
    if apiKey == "" then
      Call(None, Threw(MissingKeyMessage))
    else
      var request := Request(UserPrompt(text), AnalysisSchema);
      var reply := service(request);
      var outcome :=
        match reply
        case CallFailed => FallbackResult
        case Replied(None) => FallbackResult
        case Replied(Some(json)) =>
          if json == "" then FallbackResult
          else
            match parse(json)
            case None => FallbackResult
            case Some(result) => result;
      Call(Some(request), Returned(outcome))
  }

  /** With a credential the call never throws: every failure is absorbed into a returned value. */
  lemma ConfiguredCallNeverThrows(apiKey: string, text: string, service: Request -> Reply,
                                  parse: string -> Option<AnalysisResult>)
    requires apiKey != ""
    ensures AnalyzeHadith(apiKey, text, service, parse).outcome.Returned?
  {
  }

  /** Two failed calls give the same result, whatever the inputs, the service and the parser. */
  lemma FallbackIgnoresInput(apiKey: string, text1: string, text2: string,
                             service1: Request -> Reply, service2: Request -> Reply,
                             parse1: string -> Option<AnalysisResult>, parse2: string -> Option<AnalysisResult>)
    requires apiKey != ""
    requires !Parsed(service1(Request(UserPrompt(text1), AnalysisSchema)), parse1)
    requires !Parsed(service2(Request(UserPrompt(text2), AnalysisSchema)), parse2)
    ensures AnalyzeHadith(apiKey, text1, service1, parse1).outcome
         == AnalyzeHadith(apiKey, text2, service2, parse2).outcome
         == Returned(FallbackResult)
  {
  }

  /**
   * No validation: whatever record the parser yields is returned, even one
   * with an unknown verdict or scores far outside their documented ranges.
   */
  lemma ParsedReplyIsNotValidated(apiKey: string, text: string, json: string, r: AnalysisResult)
    requires apiKey != "" && json != ""
    ensures AnalyzeHadith(apiKey, text, _ => Replied(Some(json)), _ => Some(r)).outcome == Returned(r)
  {
  }

  /**
   * A caller cannot tell a failure from a genuine reply that happens to equal
   * the fallback: both return the same value.
   */
  lemma FallbackIndistinguishable(apiKey: string, text: string, json: string)
    requires apiKey != "" && json != ""
    ensures AnalyzeHadith(apiKey, text, _ => Replied(Some(json)), _ => Some(FallbackResult))
         == AnalyzeHadith(apiKey, text, _ => CallFailed, _ => None)
  {
  }
}
