/**
 * The page talking to the handler: how the page reads the handler's response
 * (`response.ok` is a 2xx status, the JSON body's fields), and what the page ends up
 * showing for each way the handler can answer.
 */
module EndToEnd {
  import opened Options
  import Route = SummarizeRoute
  import Page

  /** The page's view of one of the handler's responses. */
  function ReplyOf(response: Route.Response): (reply: Page.Reply)
    ensures reply.Reply?
    ensures reply.ok <==> 200 <= response.status < 300
    ensures response.body.SummaryBody? ==> reply.data == Page.ReplyData(None, response.body.summary)
    ensures response.body.ErrorBody? ==> reply.data == Page.ReplyData(Some(response.body.error), None)
  {
    var data :=
      match response.body
      case SummaryBody(summary) => Page.ReplyData(None, summary)
      case ErrorBody(error) => Page.ReplyData(Some(error), None);
    Page.Reply(200 <= response.status < 300, data)
  }

  /**
   * Submitting a valid URL: the page ends without an error exactly when both stages
   * succeed, and its summary is then the generated text; otherwise its error is the
   * handler's message and its summary is cleared.
   */
  lemma SubmitAgainstHandler(
    s: Page.State, captions: Route.CaptionsReply, generate: string -> Route.GenerationReply)
    requires Page.IsYouTubeUrl(s.videoUrl)
    ensures var o := Route.Handle(captions, generate);
            var r := Page.Submitted(s, ReplyOf(o.response));
            && (r.error.None? <==> o.response.status == Route.DefaultStatus)
            && (o.response.body.SummaryBody? ==> r.summary == o.response.body.summary)
            && (o.response.body.ErrorBody? ==>
                  r.error == Some(o.response.body.error) && r.summary == Some(""))
  {
  }

  /** A failed transcript fetch ends with its fixed message in the page's banner. */
  lemma SubmitTranscriptFailure(
    s: Page.State, captions: Route.CaptionsReply, generate: string -> Route.GenerationReply)
    requires Page.IsYouTubeUrl(s.videoUrl)
    requires Route.FetchTranscript(captions).None?
    ensures Page.Submitted(s, ReplyOf(Route.Handle(captions, generate).response))
         == s.(summary := Some(""), loading := false, error := Some(Route.TranscriptError))
  {
  }

  /**
   * Generation that succeeds without text: the handler answers 200 with `{}`, and the page
   * ends with neither a summary panel nor an error banner.
   */
  lemma SubmitGeneratedNothing(
    s: Page.State, t: Route.Transcript, generate: string -> Route.GenerationReply)
    requires Page.IsYouTubeUrl(s.videoUrl)
    requires generate(Route.Prompt(Route.Serialised(t))) == Route.Generated(None)
    ensures var captions := Route.CaptionsResponse(true, Route.SegmentArray(t));
            var response := Route.Handle(captions, generate).response;
            var r := Page.Submitted(s, ReplyOf(response));
            && response.status == Route.DefaultStatus
            && Page.Displayed(r.summary) == None
            && Page.ErrorBanner(r.error) == None
            && !r.loading
  {
  }
}
