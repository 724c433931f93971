/** The FastAPI `search_music` handler, stripped of its routing: the request
    model already guarantees a string `query`. */
module Server {
  import opened Text
  import opened Catalogue

  /** `search_music(request)`: lower-case the query, answer nothing for an
      empty one, else collect the matching tracks and fall back to the
      first three tracks when none matched. */
  method SearchMusic(query: string) returns (results: seq<Track>)
    ensures results == SearchResults(query)
  {
    var q := Lower(query);
    if q == "" {
      return [];
    }
    results := CollectMatches(q);
    if results == [] {
      results := MOCK_MUSIC_DB[..SUGGESTION_COUNT];
    }
  }
}
