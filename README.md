# Prompt quality gate and mock music search

This project models two pieces of the backend of a music-for-video
service and proves properties about them.

**The prompt quality gate** (`backend/agents/prompt_checker_agent.py`) checks a
text prompt before it goes to a music-generation model. It has five functions:

- `validate_prompt_format` scores the prompt with a fixed rubric: length
  limits, four keyword categories, four format patterns, problematic words
  and problematic characters.
- `sanitize_prompt` replaces problematic characters with spaces, deletes
  problematic words, collapses white space, capitalises the first letter and
  adds a closing full stop.
- `improve_prompt_structure` rebuilds an unstructured prompt as "Style Film
  Score, Studio recording, Pristine contemporary Instrumental, featuring …,
  description." It leaves a prompt alone when a capitalised word followed by
  white space and "Film Score", "Trailer Music", "Background Music" or "Music"
  already occurs in it. That check is case-sensitive.
- `check_prompt_quality` validates, sanitises, restructures below a score of
  70, validates again and keeps the better of the two.
- `validate_and_fix_prompt` accepts the result from a score of 50 and answers a
  fixed fallback below that.

**The mock catalogue search** (`backend/server.py` for FastAPI and
`backend/api/search-music.py` for Flask) filters a fixed list of five tracks:

- It matches the lower-cased query as a substring of a track's lower-cased
  title, artist, genre or mood.
- An empty query gives no results.
- When nothing matches, it offers the first three tracks.
- The Flask handler reads the JSON body itself. A missing `query` key counts as
  the empty query. A body it cannot use ends in the status-500 branch.

How the Python code maps to Dafny:

- `sanitize_prompt`, `improve_prompt_structure`, `validate_prompt_format` and
  both `search_music` handlers change local state step by step. Each is a
  `method` that runs the source's loops and is proved equal to a
  specification function: `Validation.Validate`, `Sanitizer.Sanitize`,
  `Restructure.Improve`, `Catalogue.SearchResults` and
  `SearchApi.HandleSearch`.
- What the source promises is proved as lemmas about those functions.
- `check_prompt_quality` and `validate_and_fix_prompt` only compose other calls,
  so they are functions.
- Each regular expression is a predicate over match positions.
- Python's string operations (`lower`, `isspace`, `strip`, `title`, `\b`, `\w`,
  `\s`) are written out for ASCII text.

Modules:

- `Text`: character classes, string helpers and subsequences.
- `Rubric`: the keyword tables and the regex predicates.
- `Validation`
- `Sanitizer`
- `Restructure`
- `Quality`
- `Catalogue`: the track list, the filter and the shared loop.
- `Server`: the FastAPI handler.
- `SearchApi`: the Flask handler.

Four behaviours of the source are stated as lemmas rather than corrected:

- The location keywords "Los Angeles", "London", "New York" and "Tokyo" are
  written with capitals but compared against the lower-cased prompt, so they
  never match (`Rubric.LocationNamesNeverFound`).
- The validator finds problematic words as plain substrings, but the sanitiser
  deletes them only as whole words. "brands" is flagged, yet it comes out of
  the sanitiser as "Brands." and is still flagged
  (`Sanitizer.BannedWordSurvivesSanitize`).
- The sanitiser is not idempotent. "<" sanitises to "", and a second pass
  turns "" into the fallback (`Sanitizer.NoiseThenFallback`). White space is
  collapsed only after the word pass, so "ripped  off" (two blanks) comes out
  as "Ripped off.", and a second pass deletes "ripped off" from that and
  leaves "." (`Sanitizer.SanitizeTwiceDeletesMore`). A second pass changes
  nothing when the first result is not empty and no problematic word stands
  in it as a whole word (`Sanitizer.SanitizeTwiceWithoutWords`). The fallback
  itself has no closing mark (`Sanitizer.FallbackUnclosed`), so that lemma
  needs a non-empty prompt.
- A prompt that scores the maximum of 70 is answered in its sanitised form,
  not unchanged. So a top-scoring prompt that ends in a word such as "brass"
  comes back with a full stop added (`Quality.TopScoreReturnsSanitized`).

## Model

| member | source | states |
|---|---|---|
| Text.Lower | backend/agents/prompt_checker_agent.py:102 | `prompt.lower()` keeps the length and lower-cases each ASCII capital, leaving every other character alone |
| Text.LowerHasNoUpper | backend/agents/prompt_checker_agent.py:102 | a lower-cased text contains no upper-case letter |
| Text.TrimStart | backend/agents/prompt_checker_agent.py:25 | the left strip drops exactly a leading run of white space and leaves a text that does not start with white space |
| Text.TrimEnd | backend/agents/prompt_checker_agent.py:25 | the right strip drops exactly a trailing run of white space and leaves a text that does not end with white space |
| Text.StripIsSlice | backend/agents/prompt_checker_agent.py:25 | `strip()` is a slice of the input with only white space cut off either side, and does not begin or end with white space |
| Text.Title | backend/agents/prompt_checker_agent.py:290 | `str.title()` keeps the length |
| Text.TitleOfLowerWord | backend/agents/prompt_checker_agent.py:290 | title-casing a lower-case word capitalises its first letter and keeps the rest |
| Text.JoinAppend | backend/agents/prompt_checker_agent.py:309 | `", ".join` of two non-empty lists is the two joins separated by the separator |
| Text.Take | backend/agents/prompt_checker_agent.py:299 | `xs[:n]` is a prefix of length at most n: all of `xs` when it has at most n elements, and exactly the first n otherwise |
| Rubric.FoundInSpec | backend/agents/prompt_checker_agent.py:106 | the keyword comprehension keeps exactly the keywords contained in the text, in table order, and is empty iff none occurs |
| Rubric.FoundCharsInSpec | backend/agents/prompt_checker_agent.py:167-168 | the character comprehension keeps exactly the table characters present in the prompt, in table order, and is empty iff the prompt holds none |
| Rubric.LocationNamesNeverFound | backend/agents/prompt_checker_agent.py:62-72 | the four capitalised location keywords can never be found in the lower-cased prompt |
| Rubric.CountFound | backend/agents/prompt_checker_agent.py:119-129 | the number of format patterns found is at most the number of patterns |
| Validation.CategoryPointsBounds | backend/agents/prompt_checker_agent.py:105-116 | each category adds +5 or -10, so n categories contribute between -10n and +5n |
| Validation.CategoriesKeepValidity | backend/agents/prompt_checker_agent.py:105-116 | the category checks never change validity |
| Validation.CategoriesAppendIssues | backend/agents/prompt_checker_agent.py:105-116 | the category checks append exactly one "Missing … description" issue per category with no keyword found, in table order |
| Validation.MissingCategoryReported | backend/agents/prompt_checker_agent.py:109-114 | a category none of whose keywords occurs is reported in the final issues |
| Validation.ScoreIsSumOfContributions | backend/agents/prompt_checker_agent.py:22-179 | the score is 50 plus the sum of the length, category, format, word and character contributions, clamped to 0..100 |
| Validation.ScoreCeiling | backend/agents/prompt_checker_agent.py:22-179 | the raw contributions add to between -155 and +20, so every score lies in 0..70 |
| Validation.ValidityIff | backend/agents/prompt_checker_agent.py:25-164 | a prompt is valid iff its stripped length is at least 20, its length is at most 500 and it holds no problematic word |
| Validation.LengthRules | backend/agents/prompt_checker_agent.py:25-44 | a stripped length below 20, or a length above 500, makes the prompt invalid and puts the corresponding issue in the report |
| Validation.ProblematicWordReported | backend/agents/prompt_checker_agent.py:141-164 | any problematic word in the lower-cased prompt makes it invalid, costs 50 points and is listed in the one issue that names every word found |
| Validation.CheckLengthStep | backend/agents/prompt_checker_agent.py:22-44 | the two length checks produce the length rules' evaluation |
| Validation.CheckFormatStep | backend/agents/prompt_checker_agent.py:126-138 | with fewer than two patterns found, the format issue and suggestion are appended and 5 points lost; otherwise nothing changes; validity never changes |
| Validation.ScoreCategoriesLoop | backend/agents/prompt_checker_agent.py:105-116 | the category loop produces the category specification's evaluation |
| Validation.CountPatternMatches | backend/agents/prompt_checker_agent.py:126-129 | the pattern loop counts exactly the patterns found |
| Validation.CheckWordsStep | backend/agents/prompt_checker_agent.py:155-164 | the word check produces the word rule's evaluation |
| Validation.CheckCharsStep | backend/agents/prompt_checker_agent.py:166-176 | a prompt holding a problematic character gets one issue naming the characters found and the suggestion, and loses 10 points; a clean prompt changes nothing; validity never changes |
| Validation.ValidatePromptFormat | backend/agents/prompt_checker_agent.py:12-181 | `validate_prompt_format` returns `Validate(prompt)`: its score is 50 plus the rule contributions, clamped, and lies in 0..70; it is valid iff the stripped length is at least 20, the length at most 500 and no problematic word occurs |
| Validation.FormatRuleReported | backend/agents/prompt_checker_agent.py:131-138 | fewer than two format patterns puts the format issue and suggestion in the final report and costs 5 points |
| Validation.CharRuleReported | backend/agents/prompt_checker_agent.py:166-176 | a problematic character makes the last issue name exactly the table characters present in the prompt, makes the last suggestion the character suggestion, and costs 10 points |
| Validation.CategoryPointsNoneFound | backend/agents/prompt_checker_agent.py:105-116 | categories none of whose keywords is found cost 10 points each |
| Validation.EmptyPromptScoresZero | backend/agents/prompt_checker_agent.py:22-179 | the empty prompt finds no keyword of any category and scores 0 |
| Sanitizer.ReplaceChar | backend/agents/prompt_checker_agent.py:201 | `s.replace(c, " ")` changes exactly the occurrences of c and keeps the length |
| Sanitizer.MaskChars | backend/agents/prompt_checker_agent.py:199-201 | after the character pass, each position holds a space where the input held a problematic character and the input character elsewhere |
| Sanitizer.DeleteWordsKeepsClean | backend/agents/prompt_checker_agent.py:218-219 | deleting words never brings back a problematic character |
| Sanitizer.CollapseSpacesSingle | backend/agents/prompt_checker_agent.py:222 | after `re.sub(r"\s+", " ", …)` the only white space is single blanks |
| Sanitizer.CollapseAllSpace | backend/agents/prompt_checker_agent.py:222 | a run of white space only becomes one blank, or nothing if it was empty |
| Sanitizer.TidyShape | backend/agents/prompt_checker_agent.py:221-230 | the clean-up, capitalisation and full stop turn any clean text into a well-formed output |
| Sanitizer.SanitizeOutputShape | backend/agents/prompt_checker_agent.py:194-232 | for a non-empty prompt the output is either empty or holds no problematic character, has single blanks only, no leading or trailing white space, no lower-case first letter, and ends in `.`, `!` or `?` |
| Sanitizer.FallbackClean | backend/agents/prompt_checker_agent.py:194-195 | the empty-prompt answer holds no problematic character |
| Sanitizer.OnlyNoiseSanitizesToEmpty | backend/agents/prompt_checker_agent.py:198-230 | a non-empty prompt made only of problematic characters and white space sanitises to the empty string, with no full stop added |
| Sanitizer.SanitizeBrands | backend/agents/prompt_checker_agent.py:218-230 | "brands" is not deleted by the whole-word pass and comes out as "Brands." |
| Sanitizer.BannedWordSurvivesSanitize | backend/agents/prompt_checker_agent.py:155-219 | the validator's substring test finds "brand" both in "brands" and in its sanitised output |
| Sanitizer.DeleteWordNoMatch | backend/agents/prompt_checker_agent.py:218-219 | with no whole-word match from a position on, the word pass keeps the rest of the text unchanged |
| Sanitizer.DeleteWordFirstMatch | backend/agents/prompt_checker_agent.py:218-219 | the word pass keeps the text before the leftmost whole-word match, deletes the match, and resumes after it |
| Sanitizer.FirstLettersAbsent | backend/agents/prompt_checker_agent.py:218-219 | words whose first letter starts no long enough stretch of the text delete nothing |
| Sanitizer.WordPassDeletesCopyright | backend/agents/prompt_checker_agent.py:218-219 | the word pass deletes "Copyright" in any case from "calm Copyright music" and nothing else |
| Sanitizer.SanitizeDeletesWholeWord | backend/agents/prompt_checker_agent.py:194-232 | "calm Copyright music" sanitises to "Calm music.": the whole word goes and the white space it leaves collapses |
| Sanitizer.MaskProblematicChars | backend/agents/prompt_checker_agent.py:198-201 | the character loop produces the masked text |
| Sanitizer.DeleteProblematicWords | backend/agents/prompt_checker_agent.py:204-219 | the word loop deletes the words of its list one after another, in list order |
| Sanitizer.SanitizePrompt | backend/agents/prompt_checker_agent.py:184-232 | `sanitize_prompt` returns `Sanitize(prompt)`, whose output shape the lemmas above establish |
| Sanitizer.DeleteWordsUnmatched | backend/agents/prompt_checker_agent.py:218-219 | when no word of the list stands anywhere as a whole word, the word loop changes nothing |
| Sanitizer.DeleteWordsLastOnly | backend/agents/prompt_checker_agent.py:218-219 | when only the last word of the list can stand, the word loop is that word's deletion alone |
| Sanitizer.CollapseSingleSpaced | backend/agents/prompt_checker_agent.py:222 | collapsing white space changes nothing in a text that has single blanks only |
| Sanitizer.SanitizeFixesOutput | backend/agents/prompt_checker_agent.py:194-232 | a non-empty text of the sanitiser's output shape, in which no problematic word stands as a whole word, sanitises to itself |
| Sanitizer.SanitizeTwiceWithoutWords | backend/agents/prompt_checker_agent.py:194-232 | sanitising twice equals sanitising once when the first result is not empty and no problematic word stands in it as a whole word |
| Sanitizer.FallbackUnclosed | backend/agents/prompt_checker_agent.py:194-195 | the empty-prompt answer does not end in `.`, `!` or `?` |
| Sanitizer.NoiseThenFallback | backend/agents/prompt_checker_agent.py:194-230 | "<" sanitises to "", and sanitising that gives the fallback, so the sanitiser is not idempotent |
| Sanitizer.SanitizeTwiceDeletesMore | backend/agents/prompt_checker_agent.py:218-230 | "ripped  off" sanitises to "Ripped off.", and sanitising that gives ".", because the collapse runs after the word pass |
| Restructure.AfterLastComma | backend/agents/prompt_checker_agent.py:305 | `split(",")[-1]` is the suffix after the last comma: it holds no comma, and a comma precedes it when it is not the whole text |
| Restructure.StylePartShape | backend/agents/prompt_checker_agent.py:289-293 | the heading is a capitalised word of at least two letters followed by " Film Score" |
| Restructure.RebuiltStartsWithHeading | backend/agents/prompt_checker_agent.py:287-313 | the rebuilt prompt starts with its heading part |
| Restructure.ImproveIsStructured | backend/agents/prompt_checker_agent.py:245-315 | every output for a non-empty prompt passes the structure guard |
| Restructure.ImproveIdempotent | backend/agents/prompt_checker_agent.py:245-315 | improving a non-empty prompt twice gives the same result as improving it once |
| Restructure.RebuiltEndsTerminal | backend/agents/prompt_checker_agent.py:245-313 | a prompt that fails the guard comes out ending in `.`, `!` or `?` |
| Restructure.RebuiltOpening | backend/agents/prompt_checker_agent.py:289-296 | a rebuilt prompt opens with the heading, "Studio recording" and "Pristine contemporary Instrumental", comma-separated |
| Restructure.NamedInstrumentsSpec | backend/agents/prompt_checker_agent.py:284-300 | the named instruments are exactly the first three instrument keywords found in the lower-cased prompt, in table order, or all of them when three or fewer occur |
| Restructure.RebuiltFeaturing | backend/agents/prompt_checker_agent.py:298-300 | when an instrument occurs, the opening is followed by "featuring" and the named instruments joined by ", " |
| Restructure.ImproveKeepsClean | backend/agents/prompt_checker_agent.py:245-315 | restructuring a prompt free of problematic characters never introduces one |
| Restructure.RebuiltEndsWithDescription | backend/agents/prompt_checker_agent.py:302-313 | a rebuilt prompt longer than 50 characters whose description exceeds 10 characters ends with ", " and that description, with a full stop added unless it already ends in `.`, `!` or `?` |
| Restructure.DescriptionFollowsOpening | backend/agents/prompt_checker_agent.py:287-313 | with no instrument named, a rebuilt prompt with a description is the opening, ", ", the description, closed with a full stop |
| Restructure.RebuiltWithoutDescription | backend/agents/prompt_checker_agent.py:287-313 | without a description, a rebuilt prompt is the opening plus a full stop, or the opening, ", featuring" and the instruments plus a full stop |
| Restructure.ImprovePromptStructure | backend/agents/prompt_checker_agent.py:235-315 | `improve_prompt_structure` returns `Improve(prompt)`: the fallback for an empty prompt, the prompt itself when the guard passes, and otherwise a rebuilt prompt that passes the guard and ends in `.`, `!` or `?` |
| Quality.FinalScoreIsBest | backend/agents/prompt_checker_agent.py:357 | the final score is at least each of the two scores, equal to one of them, and lies in 0..70 |
| Quality.FinalPromptChoice | backend/agents/prompt_checker_agent.py:337-357 | the improvement is taken iff it scores strictly higher, and then the final score is its own score; otherwise the sanitised prompt is kept under the original score; at a score of 70 the second validation is the sanitised prompt's and the final score stays 70 |
| Quality.RestructuredOnlyBelowCeiling | backend/agents/prompt_checker_agent.py:337-340 | a prompt scoring the ceiling of 70 is only sanitised; below 70 the sanitised prompt is restructured |
| Quality.SanitizedIsClean | backend/agents/prompt_checker_agent.py:334 | the sanitised prompt never holds a problematic character |
| Quality.FinalPromptIsClean | backend/agents/prompt_checker_agent.py:334-355 | the final prompt never holds a problematic character |
| Quality.FixAcceptsFromFifty | backend/agents/prompt_checker_agent.py:380-390 | the final prompt is returned iff the final score is at least 50; otherwise the fixed fallback is returned |
| Quality.FixedPromptIsClean | backend/agents/prompt_checker_agent.py:379-390 | what `validate_and_fix_prompt` returns never holds a problematic character |
| Quality.LowScoreFix | backend/agents/prompt_checker_agent.py:337-390 | a prompt scoring below 50 is answered by its restructured sanitised form when that scores at least 50, and by the fixed fallback otherwise |
| Quality.EmptyPromptFix | backend/agents/prompt_checker_agent.py:318-390 | for the empty prompt the sanitiser's fallback is restructured, and the answer is that restructured prompt when it scores at least 50 and the fixed fallback otherwise |
| Quality.TopScoreReturnsSanitized | backend/agents/prompt_checker_agent.py:337-385 | a prompt scoring 70 is answered in its sanitised form, which ends in `.`, `!` or `?` when not empty, so a top-scoring prompt without a closing mark is not returned unchanged |
| Catalogue.FilterSpec | backend/server.py:105-114 | the collected results are exactly the matching catalogue tracks, as a subsequence of the catalogue, and never more tracks than it holds |
| Catalogue.FilterCounts | backend/server.py:105-114 | every copy of a matching track is kept and no copy of another |
| Catalogue.FilterEmptyIff | backend/server.py:105-117 | there are no collected results iff no track matches |
| Catalogue.EmptyQueryFindsNothing | backend/server.py:99-102 | an empty query answers an empty list |
| Catalogue.MatchingQueryYieldsMatches | backend/api/search-music.py:62-68 | a query that matches some track answers exactly the matching tracks, in catalogue order, each as often as the catalogue holds it |
| Catalogue.UnmatchedQueryYieldsSuggestions | backend/api/search-music.py:70-72 | a non-empty query that matches nothing answers the first three tracks |
| Catalogue.SearchNonEmptyAndBounded | backend/server.py:105-118 | a non-empty query answers at least one track and no more than the catalogue holds |
| Catalogue.SearchIgnoresCase | backend/server.py:99 | queries that agree after lower-casing answer the same tracks |
| Catalogue.SearchIgnoresDurationAndUrl | backend/server.py:108-113 | catalogues that differ only in duration and download URL give results that differ only in those fields |
| Catalogue.CollectMatches | backend/api/search-music.py:62-68 | the append loop collects exactly `Filter(MOCK_MUSIC_DB, query)` |
| Server.SearchMusic | backend/server.py:97-120 | the FastAPI handler answers `SearchResults(query)` |
| SearchApi.QueryOf | backend/api/search-music.py:55-56 | a query exists iff the body is a JSON object whose `query` entry is absent or a string |
| SearchApi.SearchMusic | backend/api/search-music.py:53-77 | the Flask handler answers `HandleSearch(body)` |
| SearchApi.MissingQueryGivesNoResults | backend/api/search-music.py:56-59 | a JSON object without `query` answers `{"results": []}` |
| SearchApi.NonObjectBodyFails | backend/api/search-music.py:55-77 | a missing or unreadable body, or one that is not a JSON object, answers status 500 |
| SearchApi.NonStringQueryFails | backend/api/search-music.py:56-77 | a `query` that is not a string answers status 500 |
| SearchApi.StringQuerySearches | backend/api/search-music.py:56-74 | with a string query the Flask handler answers what the FastAPI handler answers: nothing iff the lower-cased query is empty, and only catalogue tracks |

## Definitions

These specification functions carry no contract of their own. The lemmas and
methods in the table above state their properties.

- `Validation.Validate` (backend/agents/prompt_checker_agent.py:12-181): the result record of `validate_prompt_format`, rule by rule, with the clamped score.
- `Rubric.FoundIn` (backend/agents/prompt_checker_agent.py:106): a keyword comprehension over a keyword table. The same comprehension serves lines 155 and 283-284.
- `Rubric.PatternFound` (backend/agents/prompt_checker_agent.py:119-129): `re.search` with `re.IGNORECASE` for each of the four format patterns, as an existential over match positions.
- `Rubric.WellStructured` (backend/agents/prompt_checker_agent.py:249-250): the case-sensitive structure guard of `improve_prompt_structure`.
- `Sanitizer.WholeWordAt` and `Sanitizer.DeleteWord` (backend/agents/prompt_checker_agent.py:218-219): `re.sub(rf"\b{word}\b", "", …, flags=re.IGNORECASE)` as a left-to-right scan that deletes non-overlapping whole-word matches.
- `Sanitizer.CollapseSpaces` (backend/agents/prompt_checker_agent.py:222): `re.sub(r"\s+", " ", …)`.
- `Sanitizer.Sanitize` (backend/agents/prompt_checker_agent.py:194-232): `sanitize_prompt`.
- `Restructure.Opening` (backend/agents/prompt_checker_agent.py:287-296): the heading, "Studio recording" and "Pristine contemporary Instrumental", comma-separated.
- `Restructure.Description` (backend/agents/prompt_checker_agent.py:305): the descriptive part, either the stripped text after the last comma or the whole prompt.
- `Restructure.Improve` (backend/agents/prompt_checker_agent.py:245-315): `improve_prompt_structure`.
- `Quality.CheckPromptQuality` (backend/agents/prompt_checker_agent.py:318-366): the report `check_prompt_quality` builds.
- `Quality.ValidateAndFix` (backend/agents/prompt_checker_agent.py:369-396): `validate_and_fix_prompt` without its exception branch.
- `Catalogue.Filter` and `Catalogue.Search` (backend/server.py:99-118, and the same code at backend/api/search-music.py:56-72): the substring filter and the search with its empty-query and fallback branches.
- `SearchApi.HandleSearch` (backend/api/search-music.py:53-77): the Flask handler on a parsed JSON body.

## Left out

- Unicode: case mapping, `isspace`, `\s` and `\w` cover ASCII only. With `re.IGNORECASE`, Python also matches some non-ASCII letters (for instance the Kelvin sign matches `k`), and the model does not capture that.
- Logging: all `print` calls in `check_prompt_quality` and `validate_and_fix_prompt`.
- The agent declaration: the `Agent(...)`/`LiteLlm` object at the end of `prompt_checker_agent.py`, and loading environment variables.
- The exception branch of `validate_and_fix_prompt` (lines 392-396). Only the `print` calls can raise, for instance on a lone surrogate or on an emoji when standard output cannot encode it. Logging is not modelled, so the model never takes that branch.
- Routing: the FastAPI and Flask routing, CORS, the health and root endpoints, and `backend/api/index.py`.
- FastAPI request validation: Pydantic rejects a non-string `query` before the handler runs, so `Server.SearchMusic` takes the query as a string. The HTTPException branch (server.py:122-123) is unreachable for a string query.
- Response serialisation: the JSON encoding of the response, and the text of the error message.
- Quality.FinalPromptChoice: below a score of 70, when the sanitised prompt is kept, it is never validated on its own, so its own score is not stated. At a score of 70 it is validated, and the lemma states that.
- Quality.EmptyPromptFix: does not compute the score of the restructured fallback, which by reading is 40 because it names no instrument and no mood keyword. So the lemma states the answer to "" as a function of that score. Deciding that none of the 23 instrument and mood keywords occurs anywhere in the 140-character restructured text is beyond what the verifier evaluates within its resource limit.
- Literal splitting: the source writes each fallback text as one string literal. The model builds the same characters from shorter pieces, and nothing depends on the split.
