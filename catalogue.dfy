/** The mock music catalogue and its search: a case-insensitive substring
    filter over title, artist, genre and mood, with the first three tracks
    offered when nothing matches. The FastAPI and the Flask handlers carry
    identical copies of the catalogue and of the filter; both use this one. */
module Catalogue {
  import opened Text

  datatype Track = Track(title: string, artist: string, genre: string, duration: string, mood: string,
                         downloadUrl: string)

  const MOCK_MUSIC_DB: seq<Track> := [
    Track("Upbeat Adventure", "Creative Commons", "Electronic", "2:45", "energetic",
          "https://example.com/upbeat-adventure.mp3"),
    Track("Calm Waters", "Free Music Archive", "Ambient", "3:20", "relaxing",
          "https://example.com/calm-waters.mp3"),
    Track("Tech Startup", "CC Mixter", "Corporate", "1:55", "professional",
          "https://example.com/tech-startup.mp3"),
    Track("Summer Vibes", "Incompetech", "Pop", "2:30", "happy",
          "https://example.com/summer-vibes.mp3"),
    Track("Night Drive", "Free Music Archive", "Synthwave", "4:15", "mysterious",
          "https://example.com/night-drive.mp3")
  ]

  /** How many tracks are offered when nothing matches. */
  const SUGGESTION_COUNT := 3

  /** The lower-cased query occurs in the lower-cased title, artist, genre or mood. */
  predicate Matches(t: Track, query: string)
  {
    Contains(Lower(t.title), query) || Contains(Lower(t.artist), query)
    || Contains(Lower(t.genre), query) || Contains(Lower(t.mood), query)
  }

  /** The tracks of `tracks` that match, in order (the append loop, read from its last round). */
  function Filter(tracks: seq<Track>, query: string): seq<Track>
  {
    if tracks == [] then []
    else Filter(tracks[..|tracks| - 1], query)
         + (if Matches(tracks[|tracks| - 1], query) then [tracks[|tracks| - 1]] else [])
  }

  /** The search over a catalogue `db`: nothing for an empty query, the
      matches if there are any, else the first three tracks. */
  function Search(db: seq<Track>, rawQuery: string): seq<Track>
  {
    var query := Lower(rawQuery);
    if query == "" then []
    else
      var hits := Filter(db, query);
      if hits != [] then hits else Take(db, SUGGESTION_COUNT)
  }

  /** The search both handlers perform. */
  function SearchResults(rawQuery: string): seq<Track>
  {
    Search(MOCK_MUSIC_DB, rawQuery)
  }

  // ---------------------------------------------------------------------
  // The filter.
  // ---------------------------------------------------------------------

  /** The filter keeps exactly the matching tracks, in catalogue order. */
  lemma {:induction false} FilterSpec(tracks: seq<Track>, query: string)
    ensures forall t :: t in Filter(tracks, query) <==> t in tracks && Matches(t, query)
    ensures Subsequence(Filter(tracks, query), tracks)
    ensures |Filter(tracks, query)| <= |tracks|
  {
    if tracks != [] {
      var init, last := tracks[..|tracks| - 1], tracks[|tracks| - 1];
      FilterSpec(init, query);
      assert tracks == init + [last];
      SubsequenceAppend(Filter(init, query), init, if Matches(last, query) then [last] else [], [last]);
    }
  }

  /** The filter keeps every copy of a matching track and no copy of any other. */
  lemma {:induction false} FilterCounts(tracks: seq<Track>, query: string)
    ensures forall t :: multiset(Filter(tracks, query))[t] == if Matches(t, query) then multiset(tracks)[t] else 0
  {
    if tracks != [] {
      var init, last := tracks[..|tracks| - 1], tracks[|tracks| - 1];
      FilterCounts(init, query);
      assert tracks == init + [last];
      assert multiset(tracks) == multiset(init) + multiset{last};
    }
  }

  /** The filter is empty exactly when no track matches. */
  lemma FilterEmptyIff(tracks: seq<Track>, query: string)
    ensures Filter(tracks, query) == [] <==> forall t :: t in tracks ==> !Matches(t, query)
  {
    FilterSpec(tracks, query);
    if Filter(tracks, query) != [] {
      assert Filter(tracks, query)[0] in Filter(tracks, query);
    }
  }

  // ---------------------------------------------------------------------
  // The search.
  // ---------------------------------------------------------------------

  /** An empty query finds nothing. */
  lemma EmptyQueryFindsNothing(db: seq<Track>)
    ensures Search(db, "") == []
  {
  }

  /** A query that matches some track yields exactly the matching tracks, in catalogue order. */
  lemma MatchingQueryYieldsMatches(db: seq<Track>, rawQuery: string)
    requires rawQuery != "" && exists t :: t in db && Matches(t, Lower(rawQuery))
    ensures forall t :: t in Search(db, rawQuery) <==> t in db && Matches(t, Lower(rawQuery))
    ensures Subsequence(Search(db, rawQuery), db)
    ensures forall t :: multiset(Search(db, rawQuery))[t] == if Matches(t, Lower(rawQuery)) then multiset(db)[t] else 0
  {
    FilterEmptyIff(db, Lower(rawQuery));
    FilterSpec(db, Lower(rawQuery));
    FilterCounts(db, Lower(rawQuery));
  }

  /** A non-empty query that matches no track yields the first three tracks. */
  lemma UnmatchedQueryYieldsSuggestions(db: seq<Track>, rawQuery: string)
    requires rawQuery != "" && forall t :: t in db ==> !Matches(t, Lower(rawQuery))
    ensures Search(db, rawQuery) == db[..if |db| < SUGGESTION_COUNT then |db| else SUGGESTION_COUNT]
  {
    FilterEmptyIff(db, Lower(rawQuery));
  }

  /** A non-empty query over the mock catalogue gets at least one track and
      never more than the catalogue holds. */
  lemma SearchNonEmptyAndBounded(rawQuery: string)
    requires rawQuery != ""
    ensures 0 < |SearchResults(rawQuery)| <= |MOCK_MUSIC_DB|
  {
    FilterSpec(MOCK_MUSIC_DB, Lower(rawQuery));
  }

  /** Queries that differ only in letter case give the same results. */
  lemma SearchIgnoresCase(db: seq<Track>, q1: string, q2: string)
    requires Lower(q1) == Lower(q2)
    ensures Search(db, q1) == Search(db, q2)
    ensures Search(db, q1) == Search(db, Lower(q1))
  {
    LowerIdempotent(q1);
  }

  /** The searched fields of a track. */
  function SearchedFields(t: Track): (string, string, string, string)
  {
    (t.title, t.artist, t.genre, t.mood)
  }

  /** Two catalogues that agree track by track on the searched fields. */
  predicate SameSearchedFields(db1: seq<Track>, db2: seq<Track>)
  {
    |db1| == |db2| && forall i :: 0 <= i < |db1| ==> SearchedFields(db1[i]) == SearchedFields(db2[i])
  }

  lemma {:induction false} FilterIgnoresDurationAndUrl(db1: seq<Track>, db2: seq<Track>, query: string)
    requires SameSearchedFields(db1, db2)
    ensures SameSearchedFields(Filter(db1, query), Filter(db2, query))
  {
    if db1 != [] {
      var n := |db1| - 1;
      assert SameSearchedFields(db1[..n], db2[..n]);
      FilterIgnoresDurationAndUrl(db1[..n], db2[..n], query);
      assert SearchedFields(db1[n]) == SearchedFields(db2[n]);
      var f1, f2 := Filter(db1[..n], query), Filter(db2[..n], query);
      var l1 := if Matches(db1[n], query) then [db1[n]] else [];
      var l2 := if Matches(db2[n], query) then [db2[n]] else [];
      assert |l1| == |l2| && forall i :: 0 <= i < |l1| ==> SearchedFields(l1[i]) == SearchedFields(l2[i]);
      assert forall i :: 0 <= i < |f1| ==> (f1 + l1)[i] == f1[i] && (f2 + l2)[i] == f2[i];
      assert forall i :: |f1| <= i < |f1 + l1| ==> (f1 + l1)[i] == l1[i - |f1|] && (f2 + l2)[i] == l2[i - |f1|];
    }
  }

  /** Duration and download URL are never searched: catalogues that differ
      only in those fields give results that differ only in those fields. */
  lemma SearchIgnoresDurationAndUrl(db1: seq<Track>, db2: seq<Track>, rawQuery: string)
    requires SameSearchedFields(db1, db2)
    ensures SameSearchedFields(Search(db1, rawQuery), Search(db2, rawQuery))
  {
    FilterIgnoresDurationAndUrl(db1, db2, Lower(rawQuery));
  }

  // ---------------------------------------------------------------------
  // The source's loop.
  // ---------------------------------------------------------------------

  /** The loop both handlers run: every track of the catalogue whose
      searched fields contain the (already lower-cased) query, appended in order. */
  method CollectMatches(query: string) returns (results: seq<Track>)
    ensures results == Filter(MOCK_MUSIC_DB, query)
  {
    results := [];
    for k := 0 to |MOCK_MUSIC_DB|
      invariant results == Filter(MOCK_MUSIC_DB[..k], query)
    {
      var track := MOCK_MUSIC_DB[k];
      assert MOCK_MUSIC_DB[..k + 1][..k] == MOCK_MUSIC_DB[..k];
      if Contains(Lower(track.title), query) || Contains(Lower(track.artist), query)
         || Contains(Lower(track.genre), query) || Contains(Lower(track.mood), query) {
        results := results + [track];
      }
    }
    assert MOCK_MUSIC_DB[..|MOCK_MUSIC_DB|] == MOCK_MUSIC_DB;
  }
}
