/** The serverless entry point (netlify/functions/ssr.mjs): a pure function from the invocation
    event and the deployment's files to a response record. */
module NetlifySsr {
  import opened Results
  import opened SsrPage

  /** The parts of the invocation event read here; `headers` may be missing altogether. */
  datatype Event = Event(rawUrl: Option<string>, headers: Option<map<string, string>>)

  /** The response record; the error record carries no `headers` property. */
  datatype Response = Response(statusCode: int, headers: Option<seq<(string, string)>>, body: string)

  const HostHeader: string := "x-nf-original-host"

  /** The message of the TypeError thrown when the event has no headers to read. */
  const MissingHeadersMessage: string := "Cannot read properties of undefined (reading 'x-nf-original-host')"

  const ErrorPrefix: string := "Internal Server Error: "

  const PageHeaders: seq<(string, string)> := [("content-type", "text/html"), ("cache-control", "no-store")]

  /** `event.rawUrl || event.headers['x-nf-original-host'] || '/'`: the first non-empty of the two,
      else the root path; reading the header throws when the event has no headers. */
  function SelectUrl(event: Event): (r: Result<string>)
    ensures r.Err? <==> (event.rawUrl.None? || event.rawUrl.value == "") && event.headers.None?
    ensures r.Ok? ==> r.value != ""
    ensures event.rawUrl.Some? && event.rawUrl.value != "" ==> r == Ok(event.rawUrl.value)
    ensures (event.rawUrl.None? || event.rawUrl.value == "") && event.headers.Some? ==>
      r == Ok(if HostHeader in event.headers.value && event.headers.value[HostHeader] != ""
              then event.headers.value[HostHeader] else "/")
  {
    if event.rawUrl.Some? && event.rawUrl.value != "" then Ok(event.rawUrl.value)
    else if event.headers.None? then Err(JsError(MissingHeadersMessage))
    else if HostHeader in event.headers.value && event.headers.value[HostHeader] != "" then
      Ok(event.headers.value[HostHeader])
    else Ok("/")
  }

  /** `handler(event)`: every invocation renders the seed records afresh; success is a 200
      record with the page, any error a 500 record naming the error's message. */
  function Handler(event: Event, template: Result<string>, loaded: Result<Renderer>, serialize: Serializer): (r: Response)
    ensures r.statusCode == 200 || r.statusCode == 500
    ensures r.statusCode == 200 <==>
      SelectUrl(event).Ok? && RenderPage(SelectUrl(event).value, StateOf(SeedTodos), template, loaded, serialize).Ok?
    ensures r.statusCode == 200 ==>
      && r.headers == Some(PageHeaders)
      && r.body == RenderPage(SelectUrl(event).value, StateOf(SeedTodos), template, loaded, serialize).value
    ensures r.statusCode == 500 ==>
      && r.headers.None?
      && r.body == ErrorPrefix + (if SelectUrl(event).Err? then SelectUrl(event).error
                                  else RenderPage(SelectUrl(event).value, StateOf(SeedTodos), template, loaded, serialize).error).message
  {
    var page :=
      match SelectUrl(event)
      case Err(e) => Err(e)
      case Ok(url) => RenderPage(url, StateOf(SeedTodos), template, loaded, serialize);
    match page
    case Ok(html) => Response(200, Some(PageHeaders), html)
    case Err(e) => Response(500, None, ErrorPrefix + e.message)
  }

  /** An event without a URL or headers fails before any file is read, with the TypeError's
      message in the body. */
  lemma MissingHeadersFails(template: Result<string>, loaded: Result<Renderer>, serialize: Serializer)
    ensures Handler(Event(None, None), template, loaded, serialize)
         == Response(500, None, ErrorPrefix + MissingHeadersMessage)
  {
  }

  /** With a well-formed shell and a renderer that succeeds, the body is the shell with the seed's
      markup at the outlet and the serialised seed before `</body>`, whatever came before. */
  lemma HandlerServesSeedPage(event: Event, pre: string, mid: string, post: string,
                              render: Renderer, serialize: Serializer)
    requires SelectUrl(event).Ok?
    requires !Occurs(pre, Outlet)
    requires render(SelectUrl(event).value, StateOf(SeedTodos)).Ok?
    requires !Occurs(pre + render(SelectUrl(event).value, StateOf(SeedTodos)).value + mid, BodyEnd)
    ensures Handler(event, Ok(pre + Outlet + mid + BodyEnd + post), Ok(render), serialize)
         == Response(200, Some(PageHeaders),
                     pre + render(SelectUrl(event).value, StateOf(SeedTodos)).value + mid
                         + StateScript(serialize(StateOf(SeedTodos))) + BodyEnd + post)
  {
    RenderPageWellFormed(SelectUrl(event).value, StateOf(SeedTodos), pre, mid, post, render, serialize);
  }
}
