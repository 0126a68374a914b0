/**
  The request and result assembly of the interpreter client (services/geminiService.ts):
  the prompt text, the ordered list of request parts, and the `AnalysisResult` built from
  the service's parsed JSON reply. The call to the remote model itself is not modelled: its
  outcome is a `ServiceReply` given by the caller.
 */
module Gemini {
  import opened Wrappers
  import opened Text
  import opened Types

  const INDENT := "\n    "
  const MODE_LEAD := INDENT + "Analyze this message in the context of "
  const DETAIL_LEAD := "." + INDENT + "Verbosity level: "
  const IMAGE_SENTENCE := "The input includes an image." + " Analyze any text found or the social situation depicted."
  const AUDIO_SENTENCE := "The input includes an audio recording." + " Please transcribe and analyze the spoken message and its social subtext."
  const MESSAGE_LEAD := "Input Message Text: \""

  /** The first three lines of the prompt, which name the mode and the verbosity level. */
  function Header(mode: Mode, detail: DetailLevel): string {
    MODE_LEAD + (ModeName(mode) + (DETAIL_LEAD + (DetailName(detail) + ("." + INDENT))))
  }

  function ImageLine(image: Option<Media>): string {
    if image.Some? then IMAGE_SENTENCE else ""
  }

  function AudioLine(audio: Option<Media>): string {
    if audio.Some? then AUDIO_SENTENCE else ""
  }

  /** The user's message in quotes, as the prompt's last line holds it. */
  function Quoted(message: string): string {
    MESSAGE_LEAD + message + "\"\n  "
  }

  /**
    The prompt template of `analyzeMessage`: the mode, the verbosity level, an optional image
    sentence, an optional audio sentence, and the user's message.
   */
  function Prompt(mode: Mode, detail: DetailLevel, message: string, image: Option<Media>, audio: Option<Media>): (r: string)
    ensures Header(mode, detail) <= r
  {
    Header(mode, detail) + (ImageLine(image) + (INDENT + (AudioLine(audio) + (INDENT + Quoted(message)))))
  }

  /** Where the audio sentence would start. */
  function AudioLineStart(mode: Mode, detail: DetailLevel, image: Option<Media>): nat {
    |Header(mode, detail)| + (|ImageLine(image)| + |INDENT|)
  }

  /** The prompt names the mode and the verbosity level, each at its fixed place in the first lines. */
  lemma PromptNamesModeAndDetail(mode: Mode, detail: DetailLevel, message: string, image: Option<Media>, audio: Option<Media>)
    ensures var r := Prompt(mode, detail, message, image, audio);
      && OccursAt(ModeName(mode), r, |MODE_LEAD|)
      && OccursAt(DetailName(detail), r, |MODE_LEAD| + (|ModeName(mode)| + (|DETAIL_LEAD| + 0)))
  {
    HeaderFields(MODE_LEAD, ModeName(mode), DETAIL_LEAD, DetailName(detail), "." + INDENT,
                 ImageLine(image) + (INDENT + (AudioLine(audio) + (INDENT + Quoted(message)))));
  }

  /** Where the two names of the header stand, whatever the strings are. */
  lemma HeaderFields(a: string, b: string, c: string, d: string, e: string, rest: string)
    ensures OccursAt(b, (a + (b + (c + (d + e)))) + rest, |a|)
    ensures OccursAt(d, (a + (b + (c + (d + e)))) + rest, |a| + (|b| + (|c| + 0)))
  {
    OccursAtStart(b, c + (d + e));
    OccursAtShift(b, b + (c + (d + e)), 0, a);
    OccursAtExtend(b, a + (b + (c + (d + e))), |a| + 0, rest);
    OccursAtStart(d, e);
    OccursAtShift(d, d + e, 0, c);
    OccursAtShift(d, c + (d + e), |c| + 0, b);
    OccursAtShift(d, b + (c + (d + e)), |b| + (|c| + 0), a);
    OccursAtExtend(d, a + (b + (c + (d + e))), |a| + (|b| + (|c| + 0)), rest);
  }

  /**
    A sentence placed after `h` stands at `|h|` exactly when it is present, provided the text
    that follows otherwise starts with another character.
   */
  lemma SentenceSlot(h: string, sentence: string, present: bool, after: string)
    requires sentence != [] && after != [] && after[0] != sentence[0]
    ensures present <==> OccursAt(sentence, h + ((if present then sentence else "") + after), |h|)
  {
    if present {
      OccursAtStart(sentence, after);
      OccursAtShift(sentence, sentence + after, 0, h);
    } else {
      assert "" + after == after;
      assert (h + after)[|h|] == after[0];
      NotOccursAtMismatch(sentence, h + after, |h|);
    }
  }

  lemma Regroup(a: string, b: string, c: string, d: string)
    ensures a + (b + (c + d)) == (a + (b + c)) + d
  {
  }

  /** The first characters of the literals that decide where a sentence can stand. */
  lemma LiteralStarts()
    ensures INDENT[0] == '\n' && IMAGE_SENTENCE[0] == 'T' && AUDIO_SENTENCE[0] == 'T'
  {
  }

  /** The image sentence stands right after the header exactly when an image is attached. */
  lemma PromptImageSentence(mode: Mode, detail: DetailLevel, message: string, image: Option<Media>, audio: Option<Media>)
    ensures image.Some? <==> OccursAt(IMAGE_SENTENCE, Prompt(mode, detail, message, image, audio), |Header(mode, detail)|)
  {
    var after := INDENT + (AudioLine(audio) + (INDENT + Quoted(message)));
    LiteralStarts();
    assert after[0] == INDENT[0];
    SentenceSlot(Header(mode, detail), IMAGE_SENTENCE, image.Some?, after);
  }

  /** The audio sentence stands on the line after the image line exactly when audio is attached. */
  lemma PromptAudioSentence(mode: Mode, detail: DetailLevel, message: string, image: Option<Media>, audio: Option<Media>)
    ensures audio.Some? <==> OccursAt(AUDIO_SENTENCE, Prompt(mode, detail, message, image, audio), AudioLineStart(mode, detail, image))
  {
    var h, il, al := Header(mode, detail), ImageLine(image), AudioLine(audio);
    var front := h + (il + INDENT);
    var closing := INDENT + Quoted(message);
    var p := Prompt(mode, detail, message, image, audio);
    assert p == h + (il + (INDENT + (al + closing)));
    Regroup(h, il, INDENT, al + closing);
    LiteralStarts();
    assert closing[0] == INDENT[0];
    SentenceSlot(front, AUDIO_SENTENCE, audio.Some?, closing);
    assert al == (if audio.Some? then AUDIO_SENTENCE else "");
    assert |front| == AudioLineStart(mode, detail, image);
    assert p == front + (al + closing);
  }

  /** The prompt ends with the user's message, quoted, unchanged. */
  lemma PromptEndsWithMessage(mode: Mode, detail: DetailLevel, message: string, image: Option<Media>, audio: Option<Media>)
    ensures EndsWith(Prompt(mode, detail, message, image, audio), Quoted(message))
  {
    var q := Quoted(message);
    assert EndsWith(q, q);
    EndsWithExtend(INDENT, q, q);
    EndsWithExtend(AudioLine(audio), INDENT + q, q);
    EndsWithExtend(INDENT, AudioLine(audio) + (INDENT + q), q);
    EndsWithExtend(ImageLine(image), INDENT + (AudioLine(audio) + (INDENT + q)), q);
    EndsWithExtend(Header(mode, detail), ImageLine(image) + (INDENT + (AudioLine(audio) + (INDENT + q))), q);
  }

  /** One element of the request's `parts` list. */
  datatype Part = TextPart(text: string) | InlineData(data: string, mimeType: string)

  /** The arguments of one `analyzeMessage` call: the text, the mode, the verbosity level and the attachments. */
  datatype Request = Request(message: string, mode: Mode, detail: DetailLevel, image: Option<Media>, audio: Option<Media>)

  /** The inline part an attachment contributes, if any. */
  function Attachment(m: Option<Media>): seq<Part> {
    if m.Some? then [InlineData(m.value.data, m.value.mimeType)] else []
  }

  /**
    The `contents.parts` sent for a request: the prompt built from all five arguments first,
    then the image, then the audio, each attachment carrying the caller's data and MIME type.
   */
  function Contents(req: Request): (parts: seq<Part>)
    ensures |parts| == 1 + (if req.image.Some? then 1 else 0) + (if req.audio.Some? then 1 else 0)
    ensures parts[0] == TextPart(Prompt(req.mode, req.detail, req.message, req.image, req.audio))
    ensures forall i :: 1 <= i < |parts| ==> parts[i].InlineData?
    ensures req.image.Some? ==> parts[1] == InlineData(req.image.value.data, req.image.value.mimeType)
    ensures req.audio.Some? ==> parts[|parts| - 1] == InlineData(req.audio.value.data, req.audio.value.mimeType)
  {
    [TextPart(Prompt(req.mode, req.detail, req.message, req.image, req.audio))] + Attachment(req.image) + Attachment(req.audio)
  }

  /** Builds the prompt, then `parts` by successive pushes. */
  method BuildParts(req: Request) returns (parts: seq<Part>)
    ensures parts == Contents(req)
  {
    var prompt := Prompt(req.mode, req.detail, req.message, req.image, req.audio);
    parts := [TextPart(prompt)];
    if req.image.Some? {
      parts := parts + [InlineData(req.image.value.data, req.image.value.mimeType)];
    }
    if req.audio.Some? {
      parts := parts + [InlineData(req.audio.value.data, req.audio.value.mimeType)];
    }
  }

  /**
    The parsed JSON reply. Every key may be missing; `id`, `timestamp`, `mode` and
    `originalMessage` are listed because a reply that has them overrides the client's values.
   */
  datatype ParsedResponse = ParsedResponse(
    id: Option<string>,
    timestamp: Option<int>,
    mode: Option<Mode>,
    originalMessage: Option<string>,
    whatWasSaid: Option<string>,
    whatIsExpected: Option<seq<string>>,
    whatIsOptional: Option<seq<string>>,
    whatCarriesRisk: Option<seq<string>>,
    whatIsNotAskingFor: Option<seq<string>>,
    hiddenRules: Option<seq<string>>,
    clarityScore: Option<ClarityScore>,
    responses: Option<seq<ResponseOption>>,
    confidenceLevel: Option<Confidence>)

  /** `JSON.parse('{}')`. */
  const EMPTY_OBJECT := ParsedResponse(None, None, None, None, None, None, None, None, None, None, None, None, None)

  /**
    What the remote call gave: a thrown error (transport, service or unparsable JSON), or
    a reply whose text was empty (`None`) or parsed to an object.
   */
  datatype ServiceReply = ServiceFailed(message: string) | ServiceAnswered(json: Option<ParsedResponse>)

  /** `message || (audio ? "Audio message" : "Image analysis")`: never empty. */
  function OriginalMessage(message: string, audio: Option<Media>): (r: string)
    ensures r != []
    ensures message != [] ==> r == message
    ensures message == [] ==> r == (if audio.Some? then "Audio message" else "Image analysis")
  {
    if message != [] then message
    else if audio.Some? then "Audio message"
    else "Image analysis"
  }

  /** The reply's analysis fields are taken over unchanged. */
  predicate CarriesReply(r: AnalysisResult, raw: ParsedResponse) {
    && r.whatWasSaid == raw.whatWasSaid
    && r.whatIsExpected == raw.whatIsExpected
    && r.whatIsOptional == raw.whatIsOptional
    && r.whatCarriesRisk == raw.whatCarriesRisk
    && r.whatIsNotAskingFor == raw.whatIsNotAskingFor
    && r.hiddenRules == raw.hiddenRules
    && r.clarityScore == raw.clarityScore
    && r.responses == raw.responses
    && r.confidenceLevel == raw.confidenceLevel
  }

  /**
    `{ id, timestamp, mode, originalMessage, ...rawJson }`: the spread comes last, so a key the
    reply has wins over the client's value. Nothing in the reply is validated.
   */
  function Assemble(id: string, now: int, mode: Mode, message: string, audio: Option<Media>, raw: ParsedResponse): (r: AnalysisResult)
    ensures CarriesReply(r, raw)
    ensures raw.id.None? ==> r.id == id
    ensures raw.timestamp.None? ==> r.timestamp == now
    ensures raw.mode.None? ==> r.mode == mode
    ensures raw.originalMessage.None? ==> r.originalMessage == OriginalMessage(message, audio)
    ensures raw.id.Some? ==> r.id == raw.id.value
    ensures raw.timestamp.Some? ==> r.timestamp == raw.timestamp.value
    ensures raw.mode.Some? ==> r.mode == raw.mode.value
    ensures raw.originalMessage.Some? ==> r.originalMessage == raw.originalMessage.value
  {
    AnalysisResult(
      raw.id.GetOr(id),
      raw.timestamp.GetOr(now),
      raw.mode.GetOr(mode),
      raw.originalMessage.GetOr(OriginalMessage(message, audio)),
      raw.whatWasSaid, raw.whatIsExpected, raw.whatIsOptional, raw.whatCarriesRisk,
      raw.whatIsNotAskingFor, raw.hiddenRules, raw.clarityScore, raw.responses, raw.confidenceLevel)
  }

  /**
    `analyzeMessage`, given the outcome of the remote call for `Contents(req)` and the generated
    id and clock value. The detail level and the image shape only what is sent.
   */
  function Analyze(req: Request, reply: ServiceReply, id: string, now: int): (r: Result<AnalysisResult, string>)
    ensures r.Failure? <==> reply.ServiceFailed?
    ensures r.Failure? ==> r.error == reply.message
  {
    match reply
    case ServiceFailed(m) => Failure(m)
    case ServiceAnswered(json) => Success(Assemble(id, now, req.mode, req.message, req.audio, json.GetOr(EMPTY_OBJECT)))
  }

  /** An empty reply text yields a result holding only the four client-set fields. */
  lemma EmptyReplyHasOnlyClientFields(req: Request, id: string, now: int)
    ensures Analyze(req, ServiceAnswered(None), id, now)
      == Success(AnalysisResult(id, now, req.mode, OriginalMessage(req.message, req.audio),
                                None, None, None, None, None, None, None, None, None))
  {
  }

  /** A reply that has none of the four client keys keeps the client's values and adds its own fields. */
  lemma ReplyWithoutClientKeys(req: Request, raw: ParsedResponse, id: string, now: int)
    requires raw.id.None? && raw.timestamp.None? && raw.mode.None? && raw.originalMessage.None?
    ensures var r := Analyze(req, ServiceAnswered(Some(raw)), id, now);
      && r.Success?
      && r.value.id == id && r.value.timestamp == now && r.value.mode == req.mode
      && r.value.originalMessage == OriginalMessage(req.message, req.audio)
      && CarriesReply(r.value, raw)
  {
  }
}
