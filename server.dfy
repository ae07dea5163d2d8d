/** The long-running server's request handlers (server/index.js): the snapshot endpoint and the
    catch-all page route, over an Express response object that the handlers update in place. */
module Server {
  import opened Results
  import opened TodoList
  import opened Storage
  import opened SsrPage

  const ContentType: string := "Content-Type"

  /** The Express response `res`: status, header fields by name, and body, sent once `ended`. */
  class ExpressResponse {
    var statusCode: int
    var headers: map<string, string>
    var body: string
    var ended: bool

    constructor ()
      ensures statusCode == 200 && headers == map[] && body == "" && !ended
    {
      statusCode, headers, body, ended := 200, map[], "", false;
    }

    /** `res.status(code)`. */
    method Status(code: int)
      modifies this
      ensures statusCode == code
      ensures headers == old(headers) && body == old(body) && ended == old(ended)
    {
      statusCode := code;
    }

    /** `res.set(fields)`: each given field is set, replacing a field of the same name. */
    method Set(fields: map<string, string>)
      modifies this
      ensures headers == old(headers) + fields
      ensures statusCode == old(statusCode) && body == old(body) && ended == old(ended)
    {
      headers := headers + fields;
    }

    /** `res.end(data)`. */
    method End(data: string)
      modifies this
      ensures body == data && ended
      ensures statusCode == old(statusCode) && headers == old(headers)
    {
      body, ended := data, true;
    }

    /** `res.json(value)`, given the serialised value: the content type becomes JSON unless one
        was already set. */
    method Json(serialized: string)
      modifies this
      ensures ContentType in old(headers) ==> headers == old(headers)
      ensures ContentType !in old(headers) ==> headers == old(headers)[ContentType := "application/json"]
      ensures body == serialized && ended && statusCode == old(statusCode)
    {
      if ContentType !in headers {
        headers := headers[ContentType := "application/json"];
      }
      body, ended := serialized, true;
    }
  }

  /** The store the server starts with: the two seed records. */
  method NewSeededStorage() returns (storage: InMemoryTodoStorage)
    ensures fresh(storage) && storage.Contents() == SeedTodos
  {
    var seed := new JsArray(SeedTodos);
    storage := new InMemoryTodoStorage(seed);
  }

  /** `GET /api/todos`: responds with the store's current snapshot, serialised by `toJson`. */
  method ApiTodos(storage: InMemoryTodoStorage, res: ExpressResponse, toJson: seq<Todo> -> string)
    modifies res
    ensures res.body == toJson(storage.Contents()) && res.ended
    ensures res.statusCode == old(res.statusCode)
    ensures ContentType in old(res.headers) ==> res.headers == old(res.headers)
    ensures ContentType !in old(res.headers) ==> res.headers == old(res.headers)[ContentType := "application/json"]
  {
    var all := storage.GetAll();
    res.Json(toJson(all.elems));
  }

  /** The catch-all route: the shell and the renderer come in as read (or failed), the state is
      the store's snapshot. On success the page goes out with status 200 as `text/html` and
      nothing is forwarded; on any error `res` is untouched and the error goes to `next`. */
  method HandlePage(storage: InMemoryTodoStorage, url: string, template: Result<string>,
                    loaded: Result<Renderer>, serialize: Serializer, res: ExpressResponse)
    returns (forwarded: Option<JsError>)
    modifies res
    ensures var page := RenderPage(url, StateOf(storage.Contents()), template, loaded, serialize);
      && (page.Ok? ==> forwarded == None && res.statusCode == 200 && res.body == page.value && res.ended
                       && res.headers == old(res.headers)[ContentType := "text/html"])
      && (page.Err? ==> forwarded == Some(page.error) && unchanged(res))
  {
    if template.Err? {
      return Some(template.error);
    }
    if loaded.Err? {
      return Some(loaded.error);
    }
    var all := storage.GetAll();
    var initialData := StateOf(all.elems);
    var appHtml := loaded.value(url, initialData);
    if appHtml.Err? {
      return Some(appHtml.error);
    }
    var html := ComposePage(template.value, appHtml.value, serialize(initialData));
    res.Status(200);
    res.Set(map[ContentType := "text/html"]);
    res.End(html);
    forwarded := None;
  }
}
