/**
 * The summarizer page: its four pieces of state, the submit handler that validates the
 * URL and asks `/api/summarize` for a summary, and the text it shows.
 *
 * The request to `/api/summarize` is not modelled: the handler is given how that request
 * would end (`Reply`) and reports the request body it would send.
 */
module Page {
  import opened Options
  import opened Strings

  const EmptyUrlError: string := "Please enter a YouTube video URL"
  const InvalidUrlError: string := "Please enter a valid YouTube video URL"
  const RequestError: string := "An error occurred while fetching the summary"

  const WatchPattern: string := "youtube.com/watch?v="
  const ShortPattern: string := "youtu.be/"

  /** The client-side check: a watch URL or a short URL appears somewhere in the input. */
  predicate IsYouTubeUrl(url: string)
    ensures IsYouTubeUrl(url) <==>
      (exists i :: OccursAt(url, WatchPattern, i)) || (exists i :: OccursAt(url, ShortPattern, i))
    ensures IsYouTubeUrl(url) ==> |url| >= |ShortPattern|
  {
    Includes(url, WatchPattern) || Includes(url, ShortPattern)
  }

  /** The fields of the reply's JSON body; absent ones read as `undefined`, here None. */
  datatype ReplyData = ReplyData(error: Option<string>, summary: Option<string>)

  /** How the request ends: `fetch` or `response.json()` throws, or a reply arrives. */
  datatype Reply = ReplyThrew | Reply(ok: bool, data: ReplyData)

  /**
   * The page's state. `summary` and `error` are None for `undefined` / `null`; the initial
   * summary is the empty string and the initial error is `null`.
   */
  datatype State = State(videoUrl: string, summary: Option<string>, loading: bool, error: Option<string>)

  const Initial: State := State("", Some(""), false, None)

  /** The body `{ videoUrl }` that submitting in state `s` posts, if it posts at all. */
  function RequestOf(s: State): (request: Option<string>)
    ensures request.Some? <==> IsYouTubeUrl(s.videoUrl)
    ensures request.Some? ==> request.value == s.videoUrl
  {
    if s.videoUrl == "" || !IsYouTubeUrl(s.videoUrl) then None else Some(s.videoUrl)
  }

  /** The state once the submit handler has finished, when the request ends with `reply`. */
  function Submitted(s: State, reply: Reply): (r: State)
    ensures r.videoUrl == s.videoUrl
    ensures !r.loading
    // every path that does not end in an ok reply leaves the summary cleared
    ensures RequestOf(s).None? || !reply.Reply? || !reply.ok ==> r.summary == Some("")
    ensures s.videoUrl == "" ==> r.error == Some(EmptyUrlError)
    ensures s.videoUrl != "" && !IsYouTubeUrl(s.videoUrl) ==> r.error == Some(InvalidUrlError)
    ensures RequestOf(s).Some? && reply.ReplyThrew? ==> r.error == Some(RequestError)
    ensures RequestOf(s).Some? && reply.Reply? && !reply.ok ==> r.error == reply.data.error
    ensures RequestOf(s).Some? && reply.Reply? && reply.ok ==>
      r.error == None && r.summary == reply.data.summary
  {
    var reset := s.(loading := true, error := None, summary := Some(""));
    if reset.videoUrl == "" then
      reset.(error := Some(EmptyUrlError), loading := false)
    else if !IsYouTubeUrl(reset.videoUrl) then
      reset.(error := Some(InvalidUrlError), loading := false)
    else match reply
      case ReplyThrew => reset.(error := Some(RequestError), loading := false)
      case Reply(ok, data) =>
        if !ok then reset.(error := data.error, loading := false)
        else reset.(summary := data.summary, loading := false)
  }

  /** What came before a submit does not matter: only the URL and the reply do. */
  lemma SubmittedForgetsPrior(s1: State, s2: State, reply: Reply)
    requires s1.videoUrl == s2.videoUrl
    ensures Submitted(s1, reply) == Submitted(s2, reply)
  {
  }

  /** The summary text shown: nothing for a falsy summary, otherwise the summary without '*'. */
  function Displayed(summary: Option<string>): (shown: Option<string>)
    ensures shown.Some? <==> summary.Some? && summary.value != ""
    ensures shown.Some? ==> '*' !in shown.value && |shown.value| <= |summary.value|
    ensures shown.Some? ==> forall c :: c != '*' ==> Count(shown.value, c) == Count(summary.value, c)
  {
    match summary
    case Some(text) =>
      if text == "" then None
      else
        RemoveAllRemoves(text, '*');
        assert forall c :: c != '*' ==> Count(RemoveAll(text, '*'), c) == Count(text, c) by {
          forall c | c != '*' ensures Count(RemoveAll(text, '*'), c) == Count(text, c) {
            RemoveAllCount(text, '*', c);
          }
        }
        Some(RemoveAll(text, '*'))
    case None => None
  }

  /** Stripping what is shown again changes nothing. */
  lemma DisplayedIdempotent(text: string)
    requires text != ""
    ensures RemoveAll(Displayed(Some(text)).value, '*') == Displayed(Some(text)).value
  {
    RemoveAllIdempotent(text, '*');
  }

  /** The error banner: shown when `error` is truthy, a non-empty string. */
  function ErrorBanner(error: Option<string>): (shown: Option<string>)
    ensures shown.Some? <==> error.Some? && error.value != ""
    ensures shown.Some? ==> shown == error
  {
    if error.Some? && error.value != "" then error else None
  }

  /** The `Home` component's state and its handlers. */
  class Home {
    var videoUrl: string
    var summary: Option<string>
    var loading: bool
    var error: Option<string>

    function Snapshot(): State
      reads this
    {
      State(videoUrl, summary, loading, error)
    }

    constructor ()
      ensures Snapshot() == Initial
    {
      videoUrl, summary, loading, error := "", Some(""), false, None;
    }

    /** The input's `onChange`. */
    method SetVideoUrl(url: string)
      modifies this
      ensures Snapshot() == old(Snapshot()).(videoUrl := url)
    {
      videoUrl := url;
    }

    /** `handleSubmit`: reset, validate, and record the reply's outcome. */
    method HandleSubmit(reply: Reply) returns (request: Option<string>)
      modifies this
      ensures request == RequestOf(old(Snapshot()))
      ensures Snapshot() == Submitted(old(Snapshot()), reply)
    {
      loading := true;
      error := None;
      summary := Some("");

      if videoUrl == "" {
        error := Some(EmptyUrlError);
        loading := false;
        return None;
      }

      if !(Includes(videoUrl, WatchPattern) || Includes(videoUrl, ShortPattern)) {
        error := Some(InvalidUrlError);
        loading := false;
        return None;
      }

      request := Some(videoUrl);
      match reply {
        case ReplyThrew =>
          error := Some(RequestError);
          loading := false;
        case Reply(ok, data) =>
          if !ok {
            error := data.error;
            loading := false;
            return;
          }
          summary := data.summary;
          loading := false;
      }
    }
  }
}
