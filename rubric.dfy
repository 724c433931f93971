/** The fixed tables of the prompt gate (keyword categories, problematic words
    and characters, the keyword lists of the restructuring step) and the four
    "Lyria format" regular expressions, written out as string predicates. */
module Rubric {
  import opened Text

  datatype Category = Category(name: string, keywords: seq<string>)

  /** The four keyword categories a prompt is scored on. The location list
      holds four capitalised names that are compared against the lower-cased
      prompt, so they can never be found (see LocationNamesNeverFound). */
  const REQUIRED_ELEMENTS: seq<Category> := [
    Category("style", ["film score", "trailer music", "ambient", "electronic", "orchestral", "jazz",
                       "rock", "pop", "classical", "folk", "world", "experimental"]),
    Category("location", ["studio", "concert hall", "outdoor", "live", "recording",
                          "Los Angeles", "London", "New York", "Tokyo"]),
    Category("instruments", ["piano", "guitar", "drums", "bass", "strings", "brass", "synths",
                             "percussion", "violin", "cello", "trumpet", "saxophone"]),
    Category("mood", ["peaceful", "dramatic", "energetic", "melancholic", "uplifting", "dark",
                      "bright", "mysterious", "romantic", "tension", "relaxing"])
  ]

  const LOCATION_NAMES: seq<string> := ["Los Angeles", "London", "New York", "Tokyo"]

  /** Words that make a prompt invalid; the sanitiser deletes them as whole words. */
  const PROBLEMATIC_WORDS: seq<string> := [
    "copyright", "trademark", "brand", "explicit", "offensive", "inappropriate",
    "illegal", "unauthorized", "stolen", "plagiarized", "ripped off"
  ]

  /** Characters that cost score; the sanitiser replaces each by a space. */
  const PROBLEMATIC_CHARS: seq<char> := ['<', '>', '&', '"', '\'', '\\', '/', '|']

  /** Keywords the restructuring step looks for to name the style. */
  const STYLE_KEYWORDS: seq<string> := [
    "ambient", "dramatic", "peaceful", "energetic", "melancholic", "uplifting",
    "dark", "bright", "mysterious", "romantic"
  ]

  /** Keywords the restructuring step looks for to name instruments. */
  const INSTRUMENT_KEYWORDS: seq<string> := [
    "piano", "guitar", "drums", "bass", "strings", "brass", "synths", "percussion", "violin", "cello"
  ]

  predicate NoProblematicChars(s: string)
  {
    forall i :: 0 <= i < |s| ==> s[i] !in PROBLEMATIC_CHARS
  }

  lemma CleanConcat(a: string, b: string)
    requires NoProblematicChars(a) && NoProblematicChars(b)
    ensures NoProblematicChars(a + b)
  {
    assert forall i :: |a| <= i < |a + b| ==> (a + b)[i] == b[i - |a|];
  }

  /** `[kw for kw in keywords if kw in text]`. */
  function FoundIn(keywords: seq<string>, text: string): seq<string>
  {
    if keywords == [] then []
    else if Contains(text, keywords[0]) then [keywords[0]] + FoundIn(keywords[1..], text)
    else FoundIn(keywords[1..], text)
  }

  /** The comprehension keeps exactly the keywords that occur, in table order. */
  lemma {:induction false} FoundInSpec(keywords: seq<string>, text: string)
    ensures forall w :: w in FoundIn(keywords, text) <==> w in keywords && Contains(text, w)
    ensures Subsequence(FoundIn(keywords, text), keywords)
    ensures FoundIn(keywords, text) == [] <==> forall w :: w in keywords ==> !Contains(text, w)
  {
    if keywords != [] {
      FoundInSpec(keywords[1..], text);
      if !Contains(text, keywords[0]) && FoundIn(keywords, text) != [] {
        assert FoundIn(keywords, text)[0] in FoundIn(keywords[1..], text);
      }
    }
  }

  /** `[c for c in chars if c in text]`. */
  function FoundCharsIn(chars: seq<char>, text: string): seq<char>
  {
    if chars == [] then []
    else if chars[0] in text then [chars[0]] + FoundCharsIn(chars[1..], text)
    else FoundCharsIn(chars[1..], text)
  }

  /** The comprehension keeps exactly the characters that occur, in table order. */
  lemma {:induction false} FoundCharsInSpec(chars: seq<char>, text: string)
    ensures forall c :: c in FoundCharsIn(chars, text) <==> c in chars && c in text
    ensures Subsequence(FoundCharsIn(chars, text), chars)
    ensures FoundCharsIn(chars, text) == [] <==> forall i :: 0 <= i < |text| ==> text[i] !in chars
  {
    if chars != [] {
      FoundCharsInSpec(chars[1..], text);
      if chars[0] !in text && FoundCharsIn(chars, text) != [] {
        assert FoundCharsIn(chars, text)[0] in FoundCharsIn(chars[1..], text);
      }
    }
  }

  /** The capitalised location names are never found in a lower-cased prompt. */
  lemma LocationNamesNeverFound(prompt: string)
    ensures forall w :: w in LOCATION_NAMES ==> w in REQUIRED_ELEMENTS[1].keywords && !Contains(Lower(prompt), w)
  {
    UpperWordNotInLowered(prompt, "Los Angeles", 0);
    UpperWordNotInLowered(prompt, "London", 0);
    UpperWordNotInLowered(prompt, "New York", 0);
    UpperWordNotInLowered(prompt, "Tokyo", 0);
  }

  // ---------------------------------------------------------------------
  // The regular expressions, as predicates on match positions.
  // `re.search` succeeds when some position starts a match, so each pattern
  // is an existential over the boundaries of its parts.
  // ---------------------------------------------------------------------

  /** `text[c..]` starts with one of `phrases`, letter case ignored (ASCII). */
  predicate PhraseAtIgnoringCase(text: string, c: int, phrases: seq<string>)
  {
    exists ph | ph in phrases :: 0 <= c && c + |ph| <= |text| && Lower(text[c..c + |ph|]) == Lower(ph)
  }

  /** `text[c..]` starts with one of `phrases`, letter case respected. */
  predicate PhraseAt(text: string, c: int, phrases: seq<string>)
  {
    exists ph | ph in phrases :: StartsAt(text, c, ph)
  }

  /** `\s+` matches exactly `text[b..c]`. */
  predicate SpaceRun(text: string, b: int, c: int)
  {
    0 <= b < c <= |text| && forall k :: b <= k < c ==> IsSpace(text[k])
  }

  /** `[A-Z][a-z]+` matches exactly `text[a..b]`, letter case respected. */
  predicate TitledWord(text: string, a: int, b: int)
  {
    0 <= a && a + 2 <= b <= |text| && IsUpper(text[a]) && forall k :: a < k < b ==> IsLower(text[k])
  }

  /** `[A-Z][a-z]+` under `re.IGNORECASE` matches exactly `text[a..b]`: two or more letters. */
  predicate LetterWord(text: string, a: int, b: int)
  {
    0 <= a && a + 2 <= b <= |text| && forall k :: a <= k < b ==> IsLetter(text[k])
  }

  /** `[a-z\s]+` under `re.IGNORECASE` matches exactly `text[c..d]`. */
  predicate LettersOrSpaces(text: string, c: int, d: int)
  {
    0 <= c < d <= |text| && forall k :: c <= k < d ==> IsLetter(text[k]) || IsSpace(text[k])
  }

  /** `(w1|w2|...)\s+` under `re.IGNORECASE`, the alternative starting at `a` and the spaces ending at `c`. */
  predicate LeadThenSpaces(text: string, a: int, leads: seq<string>, c: int)
  {
    exists w | w in leads :: 0 <= a && a + |w| <= |text| && Lower(text[a..a + |w|]) == Lower(w) && SpaceRun(text, a + |w|, c)
  }

  const HEADINGS: seq<string> := ["Film Score", "Trailer Music", "Background Music"]

  datatype LyriaPattern =
    | StyleHeading      // ([A-Z][a-z]+)\s+(Film Score|Trailer Music|Background Music)
    | RecordingType     // (Studio|Live|Concert)\s+recording
    | InstrumentalKind  // (Pristine|Contemporary|Modern)\s+(Instrumental|Music)
    | FeaturingClause   // (featuring|with|including)\s+[a-z\s]+(instruments?|elements?)

  const LYRIA_PATTERNS: seq<LyriaPattern> := [StyleHeading, RecordingType, InstrumentalKind, FeaturingClause]

  /** `re.search(pattern, prompt, re.IGNORECASE)` succeeds. */
  predicate PatternFound(pattern: LyriaPattern, prompt: string)
  {
    match pattern
    case StyleHeading =>
      exists a, b, c | 0 <= a <= b <= c <= |prompt| ::
        LetterWord(prompt, a, b) && SpaceRun(prompt, b, c) && PhraseAtIgnoringCase(prompt, c, HEADINGS)
    case RecordingType =>
      exists a, c | 0 <= a <= c <= |prompt| ::
        LeadThenSpaces(prompt, a, ["Studio", "Live", "Concert"], c) && PhraseAtIgnoringCase(prompt, c, ["recording"])
    case InstrumentalKind =>
      exists a, c | 0 <= a <= c <= |prompt| ::
        LeadThenSpaces(prompt, a, ["Pristine", "Contemporary", "Modern"], c)
        && PhraseAtIgnoringCase(prompt, c, ["Instrumental", "Music"])
    case FeaturingClause =>
      // `s?` never changes whether a search succeeds, so the nouns are matched without it
      exists a, c, d | 0 <= a <= c <= d <= |prompt| ::
        LeadThenSpaces(prompt, a, ["featuring", "with", "including"], c) && LettersOrSpaces(prompt, c, d)
        && PhraseAtIgnoringCase(prompt, d, ["instrument", "element"])
  }

  /** How many of `patterns` are found in `prompt`. */
  function CountFound(patterns: seq<LyriaPattern>, prompt: string): (n: nat)
    ensures n <= |patterns|
  {
    if patterns == [] then 0
    else (if PatternFound(patterns[0], prompt) then 1 else 0) + CountFound(patterns[1..], prompt)
  }

  /** The case-sensitive structure guard of the restructuring step:
      `re.search(r"([A-Z][a-z]+)\s+(Film Score|Trailer Music|Background Music|Music)", prompt)`. */
  predicate WellStructured(prompt: string)
  {
    exists a, b, c | 0 <= a <= b <= c <= |prompt| ::
      TitledWord(prompt, a, b) && SpaceRun(prompt, b, c)
      && PhraseAt(prompt, c, ["Film Score", "Trailer Music", "Background Music", "Music"])
  }
}
