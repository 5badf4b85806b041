/**
 The analysis client (services/geminiService.ts): the language directive, the
 request it sends to the remote generative model, the declared response
 schema, and the rule that turns the model's reply into a result or an error.

 The remote call is the parameter `sdk` and `JSON.parse` (with its unchecked
 cast to AnalysisResult) is the parameter `parse`; neither is interpreted.
 */
module Analysis {
  import opened Types

  const ModelName: string := "gemini-3-flash-preview"
  const ResponseMimeType: string := "application/json"
  const NoResponseError: JsError := JsError("No response from AI")

  // ---------------------------------------------------------------------------
  // Language directive
  // ---------------------------------------------------------------------------

  /** `getLanguageName`: the English name of a language; the switch's default
      branch is the one `En` takes. */
  function LanguageName(language: Language): (name: string)
    ensures |name| > 0
  {
    match language
    case Ar => "Arabic"
    case Fr => "French"
    case Es => "Spanish"
    case Ja => "Japanese"
    case _ => "English"
  }

  /** Reads a language back from its name. */
  function LanguageOfName(name: string): Option<Language>
  {
    if name == "Arabic" then Some(Ar)
    else if name == "French" then Some(Fr)
    else if name == "Spanish" then Some(Es)
    else if name == "Japanese" then Some(Ja)
    else if name == "English" then Some(En)
    else None
  }

  /** Every language's name reads back as that language, and only names of
      languages read back at all: the five names are distinct. */
  lemma LanguageNameRoundTrip(language: Language, name: string)
    ensures LanguageOfName(LanguageName(language)) == Some(language)
    ensures LanguageOfName(name) == Some(language) ==> LanguageName(language) == name
  {
  }

  /** Different languages are named differently. */
  lemma LanguageNameInjective(a: Language, b: Language)
    ensures LanguageName(a) == LanguageName(b) <==> a == b
  {
  }

  /** Only `En` reaches the default branch's "English". */
  lemma EnglishIsTheDefaultOnlyForEn(language: Language)
    ensures LanguageName(language) == "English" <==> language == En
  {
  }

  // ---------------------------------------------------------------------------
  // Request
  // ---------------------------------------------------------------------------

  /** `sub` occurs in `s` starting at index `at`. */
  predicate OccursAt(s: string, sub: string, at: nat)
  {
    at + |sub| <= |s| && s[at..at + |sub|] == sub
  }

  ghost predicate Contains(s: string, sub: string)
  {
    exists at: nat :: OccursAt(s, sub, at)
  }

  /** A slice of a three-part concatenation recovers its middle part. */
  lemma MiddleOfConcat(a: string, x: string, b: string)
    ensures |a + x + b| == |a| + |x| + |b|
    ensures OccursAt(a + x + b, x, |a|)
  {
  }

  /** The instruction text up to the language directive. */
  const PromptIntro: string :=
    "Act as a world-class aesthetic consultant, dermatologist, and stylist. \n"
    + "            Analyze the person in this image. \n"
    + "            Provide a realistic, objective rating of their facial aesthetics, grooming, and style.\n"
    + "            Focus on constructive, actionable advice. \n"
    + "            Do not be overly flattering; be honest but polite. \n"
    + "            \n"
    + "            "

  /** The instruction text between the directive and the second language name. */
  const PromptTranslate: string :=
    "\n"
    + "            Translate the summary, faceShape, skinQuality, bestFeature, feature comments, and improvements into "

  /** The instruction text after the second language name. */
  const PromptTail: string :=
    ".\n"
    + "            \n"
    + "            Identify their face shape, skin quality, and best features.\n"
    + "            Suggest specific improvements (e.g., hairstyle changes, skincare ingredients, beard shaping, makeup tips, fashion advice)."

  /** The persona text before the system instruction's language sentence. */
  const SystemPersona: string :=
    "You are Aesthetica, a high-end beauty and style AI consultant. Your tone is professional, clinical, yet encouraging. "

  const DirectiveLead: string := "IMPORTANT: Return the response in "
  const DirectiveEnd: string := " language."
  const CommunicateLead: string := "You must communicate in "

  /** `lead + name + end`: a sentence with a language name in it. */
  function Sentence(lead: string, name: string, end: string): (sentence: string)
    ensures OccursAt(sentence, name, |lead|)
  {
    MiddleOfConcat(lead, name, end);
    lead + name + end
  }

  /** The same sentence frame around two names is the same text only if the
      names are the same. */
  lemma SentenceInjective(lead: string, end: string, n1: string, n2: string)
    requires Sentence(lead, n1, end) == Sentence(lead, n2, end)
    ensures n1 == n2
  {
  }

  /** The directive sentence the user prompt carries for a language name. */
  function ResponseDirective(name: string): string
  {
    Sentence(DirectiveLead, name, DirectiveEnd)
  }

  /** The sentence the system instruction carries for a language name. */
  function CommunicateDirective(name: string): string
  {
    Sentence(CommunicateLead, name, ".")
  }

  /** The instruction text, with the language name substituted twice: once inside the
      directive, once at the end of the translation request. */
  function UserPrompt(name: string): (prompt: string)
    ensures Contains(prompt, ResponseDirective(name))
  {
    var rest := PromptTranslate + name + PromptTail;
    MiddleOfConcat(PromptIntro, ResponseDirective(name), rest);
    PromptIntro + ResponseDirective(name) + rest
  }

  /** The persona text followed by the language sentence. */
  function SystemInstruction(name: string): (instruction: string)
    ensures Contains(instruction, CommunicateDirective(name))
  {
    MiddleOfConcat(SystemPersona, CommunicateDirective(name), "");
    assert SystemPersona + CommunicateDirective(name) + "" == SystemPersona + CommunicateDirective(name);
    SystemPersona + CommunicateDirective(name)
  }

  /** A text of the prompt's shape determines the name in it, whatever the
      fixed parts are. */
  lemma PromptShapeInjective(intro: string, lead: string, end: string, translate: string, tail: string,
                             n1: string, n2: string)
    requires intro + Sentence(lead, n1, end) + (translate + n1 + tail)
             == intro + Sentence(lead, n2, end) + (translate + n2 + tail)
    ensures n1 == n2
  {
    var d1, d2 := Sentence(lead, n1, end), Sentence(lead, n2, end);
    var r1, r2 := translate + n1 + tail, translate + n2 + tail;
    assert |n1| == |n2|;
    MiddleOfConcat(intro, d1, r1);
    MiddleOfConcat(intro, d2, r2);
    SentenceInjective(lead, end, n1, n2);
  }

  /** A text of the system instruction's shape determines the sentence after
      the fixed persona. */
  lemma PersonaShapeInjective(persona: string, x1: string, x2: string)
    requires persona + x1 == persona + x2
    ensures x1 == x2
  {
    assert x1 == (persona + x1)[|persona|..];
  }

  /** The response schema declared to the remote model. */
  datatype Schema =
    | ObjectSchema(properties: seq<Property>, required: seq<string>)
    | ArraySchema(items: Schema, description: Option<string>)
    | NumberSchema(description: Option<string>)
    | StringSchema(description: Option<string>)

  datatype Property = Property(name: string, schema: Schema)

  const FeatureSchema: Schema :=
    ObjectSchema(
      [ Property("feature", StringSchema(Some("Name of the feature (e.g., Eyes, Jawline, Hair)"))),
        Property("score", NumberSchema(Some("Score out of 10 for this specific feature"))),
        Property("comment", StringSchema(Some("Brief analysis of this feature"))) ],
      ["feature", "score", "comment"])

  const AnalysisSchema: Schema :=
    ObjectSchema(
      [ Property("overallScore", NumberSchema(Some("A realistic aesthetic score out of 10 based on symmetry, harmony, and grooming. Be strict but fair."))),
        Property("potentialScore", NumberSchema(Some("The potential score out of 10 if the user follows all advice."))),
        Property("summary", StringSchema(Some("A short, professional summary of the person's appearance."))),
        Property("faceShape", StringSchema(Some("The estimated face shape (e.g., Oval, Square, Heart)."))),
        Property("skinQuality", StringSchema(Some("Assessment of skin health and texture."))),
        Property("bestFeature", StringSchema(Some("The person's most attractive feature."))),
        Property("features", ArraySchema(FeatureSchema, None)),
        Property("improvements", ArraySchema(StringSchema(None), Some("A list of 3-5 specific, actionable steps to improve appearance (grooming, style, skincare, fitness).")))
      ],
      ["overallScore", "potentialScore", "summary", "faceShape", "skinQuality", "features", "improvements", "bestFeature"])

  /** The names an object schema declares properties for, in order. */
  function PropertyNames(properties: seq<Property>): (names: seq<string>)
    ensures |names| == |properties|
    ensures forall k :: 0 <= k < |properties| ==> names[k] == properties[k].name
  {
    if |properties| == 0 then [] else [properties[0].name] + PropertyNames(properties[1..])
  }

  /** The declared schema mirrors AnalysisResult: the required list is exactly
      its eight fields, every required field is declared and nothing else is,
      and a feature item requires exactly FeatureAnalysis's three fields. */
  lemma SchemaMatchesResultType()
    ensures AnalysisSchema.ObjectSchema? && FeatureSchema.ObjectSchema?
    ensures AnalysisSchema.required == ResultFieldNames
    ensures Distinct(AnalysisSchema.required) && |AnalysisSchema.required| == 8
    ensures (set n | n in PropertyNames(AnalysisSchema.properties)) == (set n | n in ResultFieldNames)
    ensures FeatureSchema.required == FeatureFieldNames && Distinct(FeatureFieldNames)
    ensures PropertyNames(FeatureSchema.properties) == FeatureFieldNames
  {
    var names := PropertyNames(AnalysisSchema.properties);
    assert names == ["overallScore", "potentialScore", "summary", "faceShape", "skinQuality",
                     "bestFeature", "features", "improvements"];
  }

  /** The whole request of one analysis. */
  datatype InlineData = InlineData(mimeType: string, data: Option<string>)

  datatype Request = Request(
    model: string,
    image: InlineData,
    prompt: string,
    responseMimeType: string,
    responseSchema: Schema,
    systemInstruction: string)

  /** The request `analyzeImage` sends: the image passed through untouched, the
      language's name embedded in both the prompt and the system instruction. */
  function BuildRequest(base64: Option<string>, mimeType: string, language: Language): (request: Request)
    ensures request.image == InlineData(mimeType, base64)
    ensures Contains(request.prompt, ResponseDirective(LanguageName(language)))
    ensures Contains(request.systemInstruction, CommunicateDirective(LanguageName(language)))
    ensures request.model == ModelName && request.responseMimeType == ResponseMimeType
    ensures request.responseSchema == AnalysisSchema
  {
    var name := LanguageName(language);
    Request(ModelName, InlineData(mimeType, base64), UserPrompt(name), ResponseMimeType,
            AnalysisSchema, SystemInstruction(name))
  }

  /** Different names give different prompts. */
  lemma UserPromptInjective(n1: string, n2: string)
    requires UserPrompt(n1) == UserPrompt(n2)
    ensures n1 == n2
  {
    PromptShapeInjective(PromptIntro, DirectiveLead, DirectiveEnd, PromptTranslate, PromptTail, n1, n2);
  }

  /** Different names give different system instructions. */
  lemma SystemInstructionInjective(n1: string, n2: string)
    requires SystemInstruction(n1) == SystemInstruction(n2)
    ensures n1 == n2
  {
    PersonaShapeInjective(SystemPersona, CommunicateDirective(n1), CommunicateDirective(n2));
    SentenceInjective(CommunicateLead, ".", n1, n2);
  }

  /** The prompt determines the language: two requests have the same prompt
      iff they were built for the same language. */
  lemma PromptDeterminesLanguage(b1: Option<string>, m1: string, l1: Language,
                                 b2: Option<string>, m2: string, l2: Language)
    ensures BuildRequest(b1, m1, l1).prompt == BuildRequest(b2, m2, l2).prompt <==> l1 == l2
  {
    var n1, n2 := LanguageName(l1), LanguageName(l2);
    if UserPrompt(n1) == UserPrompt(n2) {
      UserPromptInjective(n1, n2);
      LanguageNameInjective(l1, l2);
    }
  }

  /** The system instruction determines the language: two requests have the
      same system instruction iff they were built for the same language. */
  lemma SystemInstructionDeterminesLanguage(b1: Option<string>, m1: string, l1: Language,
                                            b2: Option<string>, m2: string, l2: Language)
    ensures BuildRequest(b1, m1, l1).systemInstruction == BuildRequest(b2, m2, l2).systemInstruction <==> l1 == l2
  {
    var n1, n2 := LanguageName(l1), LanguageName(l2);
    if SystemInstruction(n1) == SystemInstruction(n2) {
      SystemInstructionInjective(n1, n2);
      LanguageNameInjective(l1, l2);
    }
  }

  // ---------------------------------------------------------------------------
  // Reply
  // ---------------------------------------------------------------------------

  /** How the remote call settles: it throws, or it answers with `response.text`,
      which may be missing. */
  datatype Reply = Threw(error: JsError) | Responded(text: Option<string>)

  /** `!text` in JavaScript: the text is missing or empty. */
  predicate Falsy(text: Option<string>)
  {
    text.None? || text.value == ""
  }

  /**
   The body of `analyzeImage` after the call: a thrown error is rethrown as is,
   a missing or empty text throws "No response from AI", a text is handed to
   `parse` and whatever `parse` yields (value or thrown error) is the outcome.
   */
  function AcceptReply(reply: Reply, parse: string -> Result<AnalysisResult, JsError>): (r: Result<AnalysisResult, JsError>)
    ensures reply.Threw? ==> r == Failure(reply.error)
    ensures reply.Responded? && Falsy(reply.text) ==> r == Failure(NoResponseError)
    ensures r.Success? <==> reply.Responded? && !Falsy(reply.text) && parse(reply.text.value).Success?
    ensures reply.Responded? && !Falsy(reply.text) ==> r == parse(reply.text.value)
  {
    match reply
    case Threw(e) => Failure(e)
    case Responded(text) =>
      if Falsy(text) then Failure(NoResponseError)
      else parse(text.value)
  }

  /** `analyzeImage`: one call of `sdk` on the built request; its reply decides
      the outcome through `AcceptReply`. */
  function AnalyzeImage(base64: Option<string>, mimeType: string, language: Language,
                        sdk: Request -> Reply, parse: string -> Result<AnalysisResult, JsError>)
    : (r: Result<AnalysisResult, JsError>)
    ensures var reply := sdk(BuildRequest(base64, mimeType, language));
            && (reply.Threw? ==> r == Failure(reply.error))
            && (r.Success? ==> reply.Responded? && !Falsy(reply.text) && parse(reply.text.value) == r)
            && (reply.Responded? && Falsy(reply.text) ==> r == Failure(NoResponseError))
            && (reply.Responded? && !Falsy(reply.text) ==> r == parse(reply.text.value))
  {
    AcceptReply(sdk(BuildRequest(base64, mimeType, language)), parse)
  }

  /** No score is checked against the "out of 10" the schema describes: a
      parsed reply with any scores, including ones outside 0..10, is returned
      exactly as parsed. */
  lemma ScoresPassThrough(text: string, value: AnalysisResult, parse: string -> Result<AnalysisResult, JsError>)
    requires text != "" && parse(text) == Success(value)
    ensures AcceptReply(Responded(Some(text)), parse) == Success(value)
    ensures AcceptReply(Responded(Some(text)), parse).value.overallScore == value.overallScore
    ensures forall k :: 0 <= k < |value.features| ==>
              AcceptReply(Responded(Some(text)), parse).value.features[k].score == value.features[k].score
  {
  }
}
