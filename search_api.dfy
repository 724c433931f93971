/** The Flask `search_music` handler: it reads the JSON body itself, so the
    shape of the body decides between a result list and the error branch. */
module SearchApi {
  import opened Text
  import opened Catalogue

  datatype Option<T> = None | Some(value: T)

  /** A parsed JSON value. */
  datatype Json =
    | JNull
    | JBool(b: bool)
    | JNumber(n: int)
    | JString(s: string)
    | JArray(items: seq<Json>)
    | JObject(fields: map<string, Json>)

  /** What `request.get_json()` yields: a value, or a failure (no body, a
      body that is not JSON, or a content type other than JSON). */
  datatype RequestBody = Unreadable | Body(value: Json)

  /** The HTTP answer: `{"results": [...]}` with status 200, or
      `{"error": ...}` with the given status. */
  datatype Response = Results(tracks: seq<Track>) | Error(status: int)

  /** The status of the error branch. */
  const SERVER_ERROR := 500

  /** The query `data.get('query', '')` yields before `.lower()` is applied,
      or None when that call or `.lower()` would raise. */
  function QueryOf(body: RequestBody): (r: Option<string>)
    ensures r.Some? <==> body.Body? && body.value.JObject?
                         && ("query" in body.value.fields ==> body.value.fields["query"].JString?)
  {
    match body
    case Body(JObject(fields)) =>
      if "query" !in fields then Some("")
      else if fields["query"].JString? then Some(fields["query"].s)
      else None
    case _ => None
  }

  /** The handler's answer to a request body. */
  function HandleSearch(body: RequestBody): Response
  {
    match QueryOf(body)
    case None => Error(SERVER_ERROR)
    case Some(query) => Results(SearchResults(query))
  }

  /** `search_music()`: the body's query, lower-cased; the collecting loop;
      the fallback; every raised exception answered with status 500. */
  method SearchMusic(body: RequestBody) returns (response: Response)
    ensures response == HandleSearch(body)
  {
    if !body.Body? || !body.value.JObject? {
      return Error(SERVER_ERROR);
    }
    var data := body.value.fields;
    var raw: Json := if "query" in data then data["query"] else JString("");
    if !raw.JString? {
      return Error(SERVER_ERROR);
    }
    var query := Lower(raw.s);
    if query == "" {
      return Results([]);
    }
    var results := CollectMatches(query);
    if results == [] {
      results := MOCK_MUSIC_DB[..SUGGESTION_COUNT];
    }
    return Results(results);
  }

  // ---------------------------------------------------------------------
  // Properties of the handler.
  // ---------------------------------------------------------------------

  /** A JSON object without a `query` key answers an empty result list. */
  lemma MissingQueryGivesNoResults(fields: map<string, Json>)
    requires "query" !in fields
    ensures HandleSearch(Body(JObject(fields))) == Results([])
  {
  }

  /** A missing or unreadable body, or a body that is not a JSON object,
      always ends in the 500 branch, never in a result list. */
  lemma NonObjectBodyFails(body: RequestBody)
    requires body.Unreadable? || !body.value.JObject?
    ensures HandleSearch(body) == Error(500)
  {
  }

  /** A `query` that is not a string cannot be lower-cased: status 500. */
  lemma NonStringQueryFails(fields: map<string, Json>)
    requires "query" in fields && !fields["query"].JString?
    ensures HandleSearch(Body(JObject(fields))) == Error(500)
  {
  }

  /** With a string query the Flask handler gives what the FastAPI handler
      gives for the same query: nothing when empty, otherwise a non-empty
      list of catalogue tracks. */
  lemma StringQuerySearches(fields: map<string, Json>, query: string)
    requires "query" in fields && fields["query"] == JString(query)
    ensures HandleSearch(Body(JObject(fields))) == Results(SearchResults(query))
    ensures Lower(query) == "" <==> HandleSearch(Body(JObject(fields))).tracks == []
    ensures forall t :: t in HandleSearch(Body(JObject(fields))).tracks ==> t in MOCK_MUSIC_DB
  {
    if Lower(query) != "" {
      SearchNonEmptyAndBounded(query);
      FilterSpec(MOCK_MUSIC_DB, Lower(query));
    }
  }
}
