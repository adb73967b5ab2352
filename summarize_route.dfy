/**
 * The `POST /api/summarize` handler: fetch the transcript from the captions backend,
 * serialise it into a prompt, ask the text-generation service for a summary and map each
 * stage's outcome to an HTTP response.
 *
 * The two network calls are not modelled: the captions backend's reply is a parameter
 * (`CaptionsReply`) and the generation service is an oracle from prompt to reply.
 */
module SummarizeRoute {
  import opened Options
  import opened Strings
  import Decimal

  /** One caption unit: `{ offset, text }`. The offset is taken to be integral. */
  datatype Segment = Segment(offset: int, text: string)

  type Transcript = seq<Segment>

  /** What `data.transcript` holds in the captions backend's JSON body. */
  datatype TranscriptField =
    | Missing                        // absent, or another falsy value
    | NotArray                       // present and truthy, but not an array
    | SegmentArray(segments: Transcript)

  /** How the captions request ends: `fetch` or `response.json()` throws, or a response arrives. */
  datatype CaptionsReply =
    | CaptionsThrew
    | CaptionsResponse(ok: bool, transcript: TranscriptField)

  /**
   * How `generateContent` ends: with the response's `text`, or by throwing. The `text`
   * getter yields `undefined` (None) when the reply has no text part, e.g. a blocked prompt.
   */
  datatype GenerationReply = Generated(text: Option<string>) | GenerationThrew

  /**
   * The JSON body the handler sends back. A summary of `undefined` (None) is dropped when
   * the body is encoded, so the page receives `{}`.
   */
  datatype Body = SummaryBody(summary: Option<string>) | ErrorBody(error: string)

  datatype Response = Response(status: nat, body: Body)

  /** The handler's response, and the prompt it sent to the generation service, if it got that far. */
  datatype Outcome = Outcome(response: Response, generationPrompt: Option<string>)

  const TranscriptError: string :=
    "Error fetching transcript. Please make sure the video has subtitles and the link is correct."
  const GenerationError: string := "Error generating summary. Please try again."

  /** The status `NextResponse.json` uses when none is given. */
  const DefaultStatus: nat := 200
  const BadRequest: nat := 400

  /**
   * The fixed instructions of the prompt template. Their wording is abstracted: only the
   * leading newline and the closing line that introduces the transcript are kept.
   */
  const Instructions: string := "\nYou are a skilled summarizer. <structured-format instructions>\n\n"
  const PromptPrefix: string := Instructions + "Here is the transcript:\n"

  // ---------------------------------------------------------------------------------------
  // Transcript stage

  /** The transcript the handler goes on with, or None when it answers with the fetch error. */
  function FetchTranscript(reply: CaptionsReply): (r: Option<Transcript>)
    ensures r.None? <==>
      reply.CaptionsThrew? || !reply.ok || reply.transcript.Missing? || reply.transcript.NotArray?
    ensures r.Some? ==> reply == CaptionsResponse(true, SegmentArray(r.value))
  {
    match reply
    case CaptionsThrew => None
    case CaptionsResponse(ok, transcript) =>
      if !ok then None
      else match transcript
        case Missing => None
        case NotArray => None
        case SegmentArray(segments) => Some(segments)
  }

  // ---------------------------------------------------------------------------------------
  // Serialisation

  /** The line that stands for one segment. */
  function Line(s: Segment): (line: string)
    ensures |line| >= 1 && line[|line| - 1] == '\n'
  {
    "Timestamp: " + Decimal.IntToString(s.offset) + ", Text: " + s.text + "\n"
  }

  /** The lines of the segments of `t`, in order. */
  function Serialised(t: Transcript): (text: string)
    ensures t != [] ==> |text| > 0 && text[|text| - 1] == '\n'
  {
    ConcatMap(t, Line)
  }

  /** The handler's loop: append one line per segment to an accumulator. */
  method Serialise(t: Transcript) returns (text: string)
    ensures text == Serialised(t)
  {
    text := "";
    var i := 0;
    while i < |t|
      invariant 0 <= i <= |t|
      invariant text == Serialised(t[..i])
    {
      assert t[..i + 1] == t[..i] + [t[i]];
      ConcatMapSnoc(t[..i], t[i], Line);
      text := text + Line(t[i]);
      i := i + 1;
    }
    assert t[..|t|] == t;
  }

  lemma SerialisedEmpty()
    ensures Serialised([]) == ""
  {
  }

  lemma SerialisedAppend(a: Transcript, b: Transcript)
    ensures Serialised(a + b) == Serialised(a) + Serialised(b)
  {
    ConcatMapAppend(a, b, Line);
  }

  lemma SerialisedSingleton(s: Segment)
    ensures Serialised([s]) == Line(s)
  {
    ConcatMapSnoc([], s, Line);
    assert [] + [s] == [s];
    assert "" + Line(s) == Line(s);
  }

  /** The line of segment `i` comes right after the lines of the segments before it. */
  lemma SerialisedAt(t: Transcript, i: nat)
    requires i < |t|
    ensures Serialised(t) == Serialised(t[..i]) + Line(t[i]) + Serialised(t[i + 1..])
  {
    var pre, post := t[..i], t[i + 1..];
    assert t == (pre + [t[i]]) + post;
    SerialisedAppend(pre + [t[i]], post);
    SerialisedAppend(pre, [t[i]]);
    SerialisedSingleton(t[i]);
  }

  /** A line holds exactly one newline, its last character, when the text holds none. */
  lemma LineNewlines(s: Segment)
    requires '\n' !in s.text
    ensures Count(Line(s), '\n') == 1
  {
    var num := Decimal.IntToString(s.offset);
    var body := "Timestamp: " + num + ", Text: " + s.text;
    assert '\n' !in num by {
      forall i | 0 <= i < |num| ensures num[i] != '\n' { }
    }
    assert '\n' !in body;
    assert Line(s) == body + "\n";
    CountAppend(body, "\n", '\n');
  }

  /** One newline per segment, when no segment text holds a newline of its own. */
  lemma SerialisedNewlines(t: Transcript)
    requires forall i :: 0 <= i < |t| ==> '\n' !in t[i].text
    ensures Count(Serialised(t), '\n') == |t|
  {
    forall s | s in t ensures Count(Line(s), '\n') == 1 {
      LineNewlines(s);
    }
    ConcatMapCountOne(t, Line, '\n');
  }

  lemma RenderedThousand()
    ensures Decimal.IntToString(1000) == "1000"
  {
    assert Decimal.NatToString(1) == "1";
    assert Decimal.NatToString(10) == "10";
    assert Decimal.NatToString(100) == "100";
  }

  lemma ExampleLines()
    ensures Line(Segment(0, "hi")) == "Timestamp: 0, Text: hi\n"
    ensures Line(Segment(1000, "there")) == "Timestamp: 1000, Text: there\n"
  {
    assert Decimal.IntToString(0) == "0";
    RenderedThousand();
  }

  /** The two-segment example: two lines, in input order, each ended by a newline. */
  lemma SerialisedExample()
    ensures Serialised([Segment(0, "hi"), Segment(1000, "there")])
         == "Timestamp: 0, Text: hi\n" + "Timestamp: 1000, Text: there\n"
  {
    var first, second := Segment(0, "hi"), Segment(1000, "there");
    SerialisedSingleton(first);
    ConcatMapSnoc([first], second, Line);
    assert [first] + [second] == [first, second];
    ExampleLines();
  }

  // ---------------------------------------------------------------------------------------
  // Prompt

  /** The template: the fixed prefix, the serialised transcript verbatim, and a final newline. */
  function Prompt(text: string): (p: string)
    ensures |p| == |PromptPrefix| + |text| + 1
    ensures p[..|PromptPrefix|] == PromptPrefix
    ensures p[|PromptPrefix|..|p| - 1] == text
    ensures p[|p| - 1] == '\n'
  {
    PromptPrefix + text + "\n"
  }

  /** The transcript text embedded in a prompt. */
  function PromptText(p: string): string
    requires |p| > |PromptPrefix|
  {
    p[|PromptPrefix|..|p| - 1]
  }

  lemma PromptTextOfPrompt(text: string)
    ensures PromptText(Prompt(text)) == text
  {
  }

  /** Different transcripts never give the same prompt. */
  lemma PromptInjective(a: Transcript, b: Transcript)
    requires Prompt(Serialised(a)) == Prompt(Serialised(b))
    ensures Serialised(a) == Serialised(b)
  {
    PromptTextOfPrompt(Serialised(a));
    PromptTextOfPrompt(Serialised(b));
  }

  // ---------------------------------------------------------------------------------------
  // Generation stage and the whole handler

  /** The response for the generation service's outcome. */
  function Generate(reply: GenerationReply): (r: Response)
    ensures r.status == DefaultStatus <==> reply.Generated?
    ensures r.body.SummaryBody? <==> reply.Generated?
    ensures reply.Generated? ==> r.body.summary == reply.text
    ensures reply.GenerationThrew? ==> r == Response(BadRequest, ErrorBody(GenerationError))
  {
    match reply
    case Generated(text) => Response(DefaultStatus, SummaryBody(text))
    case GenerationThrew => Response(BadRequest, ErrorBody(GenerationError))
  }

  /** `POST`: the transcript stage, then, only when it succeeds, the generation stage. */
  function Handle(captions: CaptionsReply, generate: string -> GenerationReply): (o: Outcome)
    ensures FetchTranscript(captions).None? ==>
      o == Outcome(Response(BadRequest, ErrorBody(TranscriptError)), None)
    ensures FetchTranscript(captions).Some? ==>
      o.generationPrompt == Some(Prompt(Serialised(FetchTranscript(captions).value)))
    ensures o.generationPrompt.Some? ==> o.response == Generate(generate(o.generationPrompt.value))
    ensures o.response.status == DefaultStatus || o.response.status == BadRequest
    ensures o.response.status == DefaultStatus <==>
      o.generationPrompt.Some? && generate(o.generationPrompt.value).Generated?
    ensures o.response.body.ErrorBody? ==>
      o.response.body.error == TranscriptError || o.response.body.error == GenerationError
  {
    match FetchTranscript(captions)
    case None => Outcome(Response(BadRequest, ErrorBody(TranscriptError)), None)
    case Some(transcript) =>
      var prompt := Prompt(Serialised(transcript));
      Outcome(Generate(generate(prompt)), Some(prompt))
  }

  /** A failed transcript stage answers the same whatever the generation service would do. */
  lemma HandleFailureIgnoresGeneration(
    captions: CaptionsReply, g1: string -> GenerationReply, g2: string -> GenerationReply)
    requires FetchTranscript(captions).None?
    ensures Handle(captions, g1) == Handle(captions, g2)
  {
  }

  /** Any array, the empty one included, is passed on to generation. */
  lemma HandleAcceptsAnyArray(t: Transcript, generate: string -> GenerationReply)
    ensures Handle(CaptionsResponse(true, SegmentArray(t)), generate).generationPrompt
         == Some(Prompt(Serialised(t)))
    ensures t == [] ==>
      Handle(CaptionsResponse(true, SegmentArray(t)), generate).generationPrompt
        == Some(PromptPrefix + "\n")
  {
  }

  /** The summary in a successful response is the generated text, unchanged. */
  lemma HandleSummaryVerbatim(t: Transcript, generate: string -> GenerationReply, text: Option<string>)
    requires generate(Prompt(Serialised(t))) == Generated(text)
    ensures Handle(CaptionsResponse(true, SegmentArray(t)), generate).response
         == Response(DefaultStatus, SummaryBody(text))
  {
  }
}
