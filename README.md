# TubeBrief summarizer, modelled in Dafny

TubeBrief takes a YouTube video URL in a browser page, posts it to its own
`POST /api/summarize` handler, and shows the summary the handler returns. The handler
asks an external captions backend for the transcript. It serialises the segments into
lines of the form `Timestamp: <offset>, Text: <text>` and embeds them in a fixed prompt.
It then asks a text-generation service for a summary. Each stage's failure becomes a
fixed 400 error.

This project models the two pieces of logic in that flow:

- `summarize_route.dfy` (module `SummarizeRoute`): the handler.
  - `FetchTranscript` classifies how the captions request ended.
  - `Serialise` is the serialisation loop. It is proved equal to `Serialised`, the in-order
    concatenation of one `Line` per segment.
  - `Prompt` builds the template. `Generate` maps the generation outcome to a response.
  - `Handle` is the whole handler, a pure function of the two outcomes. It also reports the
    prompt it sent, if it got that far.
- `page.dfy` (module `Page`): the page.
  - The class `Home` holds the page's four state variables (`videoUrl`, `summary`,
    `loading`, `error`).
  - `Home.HandleSubmit` updates them step by step as `handleSubmit` does. It is proved to
    end in the state given by the function `Submitted`.
  - `IsYouTubeUrl` is the validator. `Displayed` is the `*`-stripping display transform.
- `end_to_end.dfy` (module `EndToEnd`): how the page reads the handler's responses, and
  what the page shows for each way the handler answers.
- `strings.dfy` (module `Strings`): `includes`, `replaceAll` with a one-character
  pattern, occurrence counts, and concatenation over a sequence.
- `decimal.dfy` (module `Decimal`): the decimal rendering of an integral offset, with a
  parser that reads it back.
- `options.dfy` (module `Options`): the `Option` type.

The two network calls are parameters, not code:

- The captions request is a `CaptionsReply`: it threw, or it answered with an ok flag and
  a `transcript` field that is missing, not an array, or an array of segments.
- The generation service is an oracle of type `string -> GenerationReply`: it takes the
  prompt and returns the response's `text`, or reports that it threw. That `text` may be
  `undefined` (None), for a reply with no text part.
- The page's own request is a `Page.Reply`: it threw, or it answered with an ok flag and
  the JSON body's optional `error` and `summary` fields.

JavaScript's `null` and `undefined` are both `None`.

The model follows the code, which is simpler than a full transcript resolver would be:

- There is one captions request. No second or third transcript source is tried.
- The handler does not extract a video ID. It passes the whole URL to the captions backend.
- No 404 status is ever produced. There is no separate "captions unavailable" outcome.
- An empty transcript array is accepted and passed on to generation.
- The server does not validate the URL. Only the page does.

## Model

| member | source | states |
|---|---|---|
| SummarizeRoute.FetchTranscript | app/api/summarize/route.js:8-33 | The transcript stage fails exactly when the request threw, the response is not ok, or `transcript` is missing or not an array. On success the result is the array as received. |
| SummarizeRoute.Line | app/api/summarize/route.js:39 | A segment's line is non-empty and ends with its newline. |
| SummarizeRoute.Serialised | app/api/summarize/route.js:37-40 | The in-order concatenation of the segments' lines. A non-empty transcript's text ends with a newline. |
| SummarizeRoute.Serialise | app/api/summarize/route.js:37-40 | The loop that appends one line per segment to an initially empty accumulator ends with `Serialised(t)`. |
| SummarizeRoute.SerialisedEmpty | app/api/summarize/route.js:37 | An empty transcript serialises to the empty string. |
| SummarizeRoute.SerialisedSingleton | app/api/summarize/route.js:39 | A one-segment transcript serialises to exactly that segment's line. |
| SummarizeRoute.SerialisedAppend | app/api/summarize/route.js:37-40 | Serialising `a + b` gives the serialisation of `a` followed by that of `b`. |
| SummarizeRoute.SerialisedAt | app/api/summarize/route.js:38-39 | Segment `i`'s line comes right after the lines of segments `0..i-1` and right before those of the later segments, so the order is the input order. |
| SummarizeRoute.LineNewlines | app/api/summarize/route.js:39 | A segment's line holds exactly one newline when its text holds none. |
| SummarizeRoute.SerialisedNewlines | app/api/summarize/route.js:38-39 | When no segment text holds a newline, the serialised text holds exactly one newline per segment. |
| SummarizeRoute.ExampleLines | app/api/summarize/route.js:39 | Concrete lines: `(0, "hi")` gives `Timestamp: 0, Text: hi\n`, and `(1000, "there")` gives `Timestamp: 1000, Text: there\n`. |
| SummarizeRoute.SerialisedExample | app/api/summarize/route.js:37-40 | The two-segment transcript serialises to those two lines, in input order. |
| Decimal.NatToString | app/api/summarize/route.js:39 | The digits of a non-negative offset: non-empty, all decimal digits, and no leading zero except for 0 itself. |
| Decimal.IntToString | app/api/summarize/route.js:39 | The rendering of an offset is non-empty and made of digits, with a leading `-` exactly for negative offsets. |
| Decimal.ParseIntToString | app/api/summarize/route.js:39 | Parsing the rendering of an offset gives the offset back. |
| Decimal.IntToStringInjective | app/api/summarize/route.js:39 | Distinct offsets render differently. |
| SummarizeRoute.Prompt | app/api/summarize/route.js:44-78 | The prompt is the fixed prefix, then the serialised text verbatim, then one newline, and its length is the sum of the three lengths. |
| SummarizeRoute.PromptTextOfPrompt | app/api/summarize/route.js:76-78 | The serialised text can be cut back out of the prompt. |
| SummarizeRoute.PromptInjective | app/api/summarize/route.js:44-78 | Two transcripts give the same prompt only if they serialise the same. |
| SummarizeRoute.Generate | app/api/summarize/route.js:80-96 | Success gives status 200 with `{summary}` equal to the response's `text`, unchanged, `undefined` included. Failure gives status 400 with the fixed message "Error generating summary. Please try again." and no other detail. |
| SummarizeRoute.Handle | app/api/summarize/route.js:8-96 | For a request whose JSON body parses: a transcript failure gives 400 with the fixed "Error fetching transcript. ..." message, and no prompt is sent. Otherwise the prompt of the serialised transcript is sent, and the response is the generation outcome's. The status is always 200 or 400, never 404. It is 200 exactly when both stages succeed. Every error body is one of the two fixed messages. |
| SummarizeRoute.HandleFailureIgnoresGeneration | app/api/summarize/route.js:24-33 | When the transcript stage fails, the outcome is the same whatever the generation service would do: that service is never reached. |
| SummarizeRoute.HandleAcceptsAnyArray | app/api/summarize/route.js:19-23 | Any array of segments, the empty one included, is passed on to generation. The empty one gives the prompt made of the prefix and a newline. |
| SummarizeRoute.HandleSummaryVerbatim | app/api/summarize/route.js:87 | When generation succeeds, the response is status 200 with the response's `text`, unchanged, as `summary`. |
| Strings.Includes | app/page.jsx:35-36 | `s.includes(sub)` holds exactly when `sub` occurs in `s` at some index. |
| Page.IsYouTubeUrl | app/page.jsx:33-38 | The input passes exactly when "youtube.com/watch?v=" or "youtu.be/" occurs in it. A passing input is never empty. |
| Page.RequestOf | app/page.jsx:27-51 | A request is posted exactly when the input passes validation; its body is the input unchanged. |
| Page.Submitted | app/page.jsx:22-69 | The URL is kept and loading always ends false. Every path except an ok reply ends with summary "". Empty input gives error "Please enter a YouTube video URL". Non-empty invalid input gives "Please enter a valid YouTube video URL". A thrown request gives "An error occurred while fetching the summary". A non-ok reply gives the server's `data.error` verbatim. An ok reply gives `summary = data.summary` and error null. |
| Page.SubmittedForgetsPrior | app/page.jsx:23-25 | The state after a submit depends only on the URL and the reply, since the prior summary, error and loading flag are reset first. |
| Page.Home.constructor | app/page.jsx:17-20 | The initial state: empty URL, summary "", not loading, error null. |
| Page.Home.SetVideoUrl | app/page.jsx:102 | Editing the input changes the URL and nothing else. |
| Page.Home.HandleSubmit | app/page.jsx:22-69 | The step-by-step state updates end in `Submitted(old state, reply)`, and the request sent is `RequestOf(old state)`. |
| Strings.RemoveAll | app/page.jsx:163 | `replaceAll(c, "")` for a one-character pattern: the result is never longer than the input. |
| Page.Displayed | app/page.jsx:148-163 | A summary is shown exactly when it is a non-empty string. What is shown holds no `*`, is no longer than the summary, and keeps every other character as often as the summary has it. |
| Strings.RemoveAllRemoves | app/page.jsx:163 | `replaceAll("*", "")` leaves no `*`, and the length shrinks by the number of `*`s. |
| Strings.RemoveAllCount | app/page.jsx:163 | Every other character occurs as often as before. |
| Strings.RemoveAllAppend | app/page.jsx:163 | Stripping distributes over concatenation, which preserves the order of the kept characters. |
| Strings.RemoveAllAbsent | app/page.jsx:163 | A summary without `*` is shown unchanged. |
| Strings.RemoveAllIdempotent | app/page.jsx:163 | Stripping twice is the same as stripping once. |
| Strings.RemoveAllKeeps | app/page.jsx:163 | Every shown character comes from the summary. |
| Page.DisplayedIdempotent | app/page.jsx:163 | Stripping the shown text again changes nothing. |
| Page.ErrorBanner | app/page.jsx:139-146 | The banner shows the error exactly when it is a non-empty string, and then shows it verbatim. |
| EndToEnd.ReplyOf | app/page.jsx:53-55 | The page sees `ok` exactly for a 2xx status. For a summary body it reads no `error` and the handler's `summary` value, absent included. For an error body it reads the handler's `error` string and no `summary`. |
| EndToEnd.SubmitAgainstHandler | app/page.jsx:45-62 | For a valid URL, the page ends with no error exactly when the handler answered 200. Its `summary` state is then the handler's summary value; what is shown is that value through `Displayed`. Otherwise its error is the handler's message and its summary is "". |
| EndToEnd.SubmitGeneratedNothing | app/page.jsx:55-63 | When generation succeeds without text, the handler answers 200 and the page ends with `summary` undefined and `error` null, so it shows neither a summary nor an error banner. |
| EndToEnd.SubmitTranscriptFailure | app/api/summarize/route.js:24-33 | A failed transcript fetch ends on the page with the handler's fixed transcript message, summary "" and loading false. |

## Left out

- The captions `fetch` to `localhost:8080`, its URL encoding, and `response.json()` are network I/O and JSON decoding. Their outcomes are the parameter `CaptionsReply`.
- The `GoogleGenAI` client, the API key from `process.env`, the model name and `generateContent` are a foreign library call. They are the oracle `generate`, and the model records which prompt it is given.
- `NextResponse.json`, `req.json()` and the page's `fetch` and `response.json()` are JSON and HTTP plumbing. Responses are a `(status, body)` datatype, and the page's reply is `Page.Reply`.
- SummarizeRoute.Handle: a request body that is not valid JSON, or is `null`, makes `req.json()` or the destructuring at route.js line 5 throw outside any `try`. The framework then answers with its own error status. The model covers only requests whose body parses, so its "200 or 400" holds for those alone.
- The wording of the prompt's instructions is abstracted to a placeholder constant. Only the leading newline, the closing line "Here is the transcript:" and the structure (prefix, transcript, newline) are modelled.
- Decimal.IntToString: an offset is an integer here. JavaScript's rendering of non-integral or very large numbers ("1.5", "1e21") is not modelled.
- Segment elements that are not objects are not modelled. A `null` element makes line 39 throw outside the `try`, and the framework answers that with its own error. A segment with a missing field renders as "undefined". Both are outside this model.
- `console.log` and `console.error` are logging only.
- React's `useState`, render scheduling and batching of updates are not modelled. `Home.HandleSubmit` applies the setters in order and states the final state. The intermediate render with `loading` true while the request is pending is not modelled.
- The rest of the JSX render tree is UI layout. Only the summary panel's condition and transform and the error banner's condition are modelled.
- A fallback chain over several transcript sources, video-ID extraction and a 404 "unavailable" status do not exist in app/api/summarize/route.js and are not modelled.
