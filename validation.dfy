/** `validate_prompt_format`: scores a prompt against the fixed rubric.
    The source builds a result record step by step; ValidatePromptFormat does
    the same and is proved equal to the function Validate, whose score is
    shown to be the sum of independent per-rule contributions, clamped. */
module Validation {
  import opened Text
  import opened Rubric

  datatype Evaluation = Evaluation(isValid: bool, issues: seq<string>, suggestions: seq<string>, score: int)

  const INITIAL := Evaluation(true, [], [], 0)

  const TOO_SHORT_ISSUE := "Prompt is too short (minimum 20 characters)"
  const TOO_SHORT_SUGGESTION := "Add more descriptive elements about style, instruments, and mood"
  const TOO_LONG_ISSUE := "Prompt is too long (maximum 500 characters)"
  const TOO_LONG_SUGGESTION := "Make the prompt more concise while keeping key elements"
  const FORMAT_ISSUE := "Prompt doesn't follow Lyria format guidelines"
  const FORMAT_SUGGESTION :=
    "Follow format: 'Style, Location, Recording type, Pristine/Contemporary Instrumental, featuring instruments and elements'"
  const WORDS_SUGGESTION := "Remove references to copyrighted material or inappropriate content"
  const CHARS_SUGGESTION := "Remove special characters that might cause API issues"

  function MissingIssue(category: string): string { "Missing " + category + " description" }

  function MissingSuggestion(category: string): string { "Add " + category + " elements to make the prompt more specific" }

  function WordsIssue(found: seq<string>): string { "Contains problematic words: " + Join(found, ", ") }

  function CharsIssue(found: seq<char>): string
  {
    "Contains problematic characters: " + Join(seq(|found|, i requires 0 <= i < |found| => [found[i]]), ", ")
  }

  /** Records an issue and its suggestion and moves the score by `delta`. */
  function Flag(e: Evaluation, issue: string, suggestion: string, delta: int): Evaluation
  {
    e.(issues := e.issues + [issue], suggestions := e.suggestions + [suggestion], score := e.score + delta)
  }

  /** As Flag, and marks the prompt invalid. */
  function Reject(e: Evaluation, issue: string, suggestion: string, delta: int): Evaluation
  {
    Flag(e, issue, suggestion, delta).(isValid := false)
  }

  /** One round of the category loop: -10 and an issue when no keyword is found, +5 otherwise. */
  function ScoreCategory(e: Evaluation, c: Category, lower: string): Evaluation
  {
    if FoundIn(c.keywords, lower) == [] then Flag(e, MissingIssue(c.name), MissingSuggestion(c.name), -10)
    else e.(score := e.score + 5)
  }

  function ScoreCategories(e: Evaluation, cs: seq<Category>, lower: string): Evaluation
    decreases |cs|
  {
    if cs == [] then e else ScoreCategories(ScoreCategory(e, cs[0], lower), cs[1..], lower)
  }

  /** The two length rules, applied to a fresh record. */
  function CheckLength(prompt: string): Evaluation
  {
    var e := if |Strip(prompt)| < 20 then Reject(INITIAL, TOO_SHORT_ISSUE, TOO_SHORT_SUGGESTION, -30) else INITIAL;
    if |prompt| > 500 then Reject(e, TOO_LONG_ISSUE, TOO_LONG_SUGGESTION, -20) else e
  }

  /** Fewer than two of the four format patterns: -5 and an issue. */
  function CheckFormat(e: Evaluation, prompt: string): Evaluation
  {
    if CountFound(LYRIA_PATTERNS, prompt) < 2 then Flag(e, FORMAT_ISSUE, FORMAT_SUGGESTION, -5) else e
  }

  /** Any problematic word in the lower-cased prompt: invalid, -50, one issue naming them all. */
  function CheckWords(e: Evaluation, prompt: string): Evaluation
  {
    var words := FoundIn(PROBLEMATIC_WORDS, Lower(prompt));
    if words != [] then Reject(e, WordsIssue(words), WORDS_SUGGESTION, -50) else e
  }

  /** Any problematic character: -10 and one issue naming them all. */
  function CheckChars(e: Evaluation, prompt: string): Evaluation
  {
    var chars := FoundCharsIn(PROBLEMATIC_CHARS, prompt);
    if chars != [] then Flag(e, CharsIssue(chars), CHARS_SUGGESTION, -10) else e
  }

  /** The result record just before the score is normalised. */
  function Assess(prompt: string): Evaluation
  {
    CheckChars(CheckWords(CheckFormat(ScoreCategories(CheckLength(prompt), REQUIRED_ELEMENTS, Lower(prompt)), prompt), prompt), prompt)
  }

  /** `max(0, min(100, x))`. */
  function Clamp(x: int): int { if x < 0 then 0 else if x > 100 then 100 else x }

  /** `validate_prompt_format(prompt)`. */
  function Validate(prompt: string): Evaluation
  {
    var e := Assess(prompt);
    e.(score := Clamp(e.score + 50))
  }

  // ---------------------------------------------------------------------
  // The score as a sum of per-rule contributions.
  // ---------------------------------------------------------------------

  function LengthPoints(prompt: string): int
  {
    (if |Strip(prompt)| < 20 then -30 else 0) + (if |prompt| > 500 then -20 else 0)
  }

  function CategoryPoints(cs: seq<Category>, lower: string): int
  {
    if cs == [] then 0
    else (if FoundIn(cs[0].keywords, lower) == [] then -10 else 5) + CategoryPoints(cs[1..], lower)
  }

  function FormatPoints(prompt: string): int
  {
    if CountFound(LYRIA_PATTERNS, prompt) < 2 then -5 else 0
  }

  /** Some problematic word occurs anywhere in the lower-cased prompt, even inside another word. */
  predicate HasProblematicWord(prompt: string)
  {
    exists w | w in PROBLEMATIC_WORDS :: Contains(Lower(prompt), w)
  }

  function WordPoints(prompt: string): int
  {
    if HasProblematicWord(prompt) then -50 else 0
  }

  function CharPoints(prompt: string): int
  {
    if NoProblematicChars(prompt) then 0 else -10
  }

  function RawScore(prompt: string): int
  {
    LengthPoints(prompt) + CategoryPoints(REQUIRED_ELEMENTS, Lower(prompt)) + FormatPoints(prompt)
    + WordPoints(prompt) + CharPoints(prompt)
  }

  /** The issues the category loop records, in category order. */
  function MissingIssues(cs: seq<Category>, lower: string): seq<string>
  {
    if cs == [] then []
    else (if FoundIn(cs[0].keywords, lower) == [] then [MissingIssue(cs[0].name)] else []) + MissingIssues(cs[1..], lower)
  }

  lemma {:induction false} CategoryPointsBounds(cs: seq<Category>, lower: string)
    ensures -10 * |cs| <= CategoryPoints(cs, lower) <= 5 * |cs|
  {
    if cs != [] {
      CategoryPointsBounds(cs[1..], lower);
    }
  }

  /** The category loop never changes validity. */
  /** Categories none of whose keywords is found each cost 10 points. */
  lemma {:induction false} CategoryPointsNoneFound(cs: seq<Category>, lower: string)
    requires forall c :: c in cs ==> FoundIn(c.keywords, lower) == []
    ensures CategoryPoints(cs, lower) == -10 * |cs|
  {
    if cs != [] {
      CategoryPointsNoneFound(cs[1..], lower);
    }
  }

  lemma {:induction false} CategoriesKeepValidity(e: Evaluation, cs: seq<Category>, lower: string)
    decreases |cs|
    ensures ScoreCategories(e, cs, lower).isValid == e.isValid
  {
    if cs != [] {
      CategoriesKeepValidity(ScoreCategory(e, cs[0], lower), cs[1..], lower);
    }
  }

  /** The category loop adds CategoryPoints to the score. */
  lemma {:induction false} CategoriesAddPoints(e: Evaluation, cs: seq<Category>, lower: string)
    decreases |cs|
    ensures ScoreCategories(e, cs, lower).score == e.score + CategoryPoints(cs, lower)
  {
    if cs != [] {
      CategoriesAddPoints(ScoreCategory(e, cs[0], lower), cs[1..], lower);
    }
  }

  /** The category loop only appends issues. */
  lemma {:induction false} CategoriesKeepIssues(e: Evaluation, cs: seq<Category>, lower: string)
    decreases |cs|
    ensures e.issues <= ScoreCategories(e, cs, lower).issues
  {
    if cs != [] {
      CategoriesKeepIssues(ScoreCategory(e, cs[0], lower), cs[1..], lower);
    }
  }

  /** The category loop appends MissingIssues to the issues. */
  lemma {:induction false} CategoriesAppendIssues(e: Evaluation, cs: seq<Category>, lower: string)
    decreases |cs|
    ensures ScoreCategories(e, cs, lower).issues == e.issues + MissingIssues(cs, lower)
  {
    if cs != [] {
      var e' := ScoreCategory(e, cs[0], lower);
      CategoriesAppendIssues(e', cs[1..], lower);
      assert e'.issues + MissingIssues(cs[1..], lower) == e.issues + MissingIssues(cs, lower);
    }
  }

  /** Every category none of whose keywords occurs gets its "Missing" issue. */
  lemma {:induction false} MissingIssueListed(cs: seq<Category>, lower: string, c: Category)
    requires c in cs && FoundIn(c.keywords, lower) == []
    ensures MissingIssue(c.name) in MissingIssues(cs, lower)
  {
    if cs[0] != c {
      MissingIssueListed(cs[1..], lower, c);
    }
  }

  /** The format rule adds FormatPoints. */
  lemma FormatAddsPoints(e: Evaluation, prompt: string)
    ensures CheckFormat(e, prompt).score == e.score + FormatPoints(prompt)
  {
  }

  /** The problematic-word rule adds WordPoints. */
  lemma WordsAddPoints(e: Evaluation, prompt: string)
    ensures CheckWords(e, prompt).score == e.score + WordPoints(prompt)
  {
    FoundInSpec(PROBLEMATIC_WORDS, Lower(prompt));
  }

  /** The problematic-character rule adds CharPoints. */
  lemma CharsAddPoints(e: Evaluation, prompt: string)
    ensures CheckChars(e, prompt).score == e.score + CharPoints(prompt)
  {
    FoundCharsInSpec(PROBLEMATIC_CHARS, prompt);
  }

  /** The accumulated score is exactly the sum of the per-rule contributions. */
  lemma ScoreIsSumOfContributions(prompt: string)
    ensures Assess(prompt).score == RawScore(prompt)
    ensures Validate(prompt).score == Clamp(RawScore(prompt) + 50)
  {
    var e1 := CheckLength(prompt);
    var e2 := ScoreCategories(e1, REQUIRED_ELEMENTS, Lower(prompt));
    var e3 := CheckFormat(e2, prompt);
    var e4 := CheckWords(e3, prompt);
    CategoriesAddPoints(e1, REQUIRED_ELEMENTS, Lower(prompt));
    FormatAddsPoints(e2, prompt);
    WordsAddPoints(e3, prompt);
    CharsAddPoints(e4, prompt);
  }

  /** The contributions range over [-155, 20]; after `+ 50` and the clamp the
      score therefore lies in [0, 70]: it can never reach 100. */
  lemma ScoreCeiling(prompt: string)
    ensures -155 <= RawScore(prompt) <= 20
    ensures 0 <= Validate(prompt).score <= 70
  {
    CategoryPointsBounds(REQUIRED_ELEMENTS, Lower(prompt));
    ScoreIsSumOfContributions(prompt);
  }

  /** No keyword occurs in the empty text. */
  lemma {:induction false} NothingFoundInEmpty(keywords: seq<string>)
    requires forall k :: 0 <= k < |keywords| ==> |keywords[k]| > 0
    ensures FoundIn(keywords, "") == []
  {
    if keywords != [] {
      NothingFoundInEmpty(keywords[1..]);
    }
  }

  /** No keyword of a category occurs in the empty text. */
  lemma CategoryMissesEmpty(i: nat)
    requires i < |REQUIRED_ELEMENTS|
    ensures FoundIn(REQUIRED_ELEMENTS[i].keywords, "") == []
  {
    NothingFoundInEmpty(REQUIRED_ELEMENTS[i].keywords);
  }

  /** The empty prompt finds no keyword of any category and scores 0. */
  lemma EmptyPromptScoresZero()
    ensures Validate("").score == 0
  {
    CategoryMissesEmpty(0);
    CategoryMissesEmpty(1);
    CategoryMissesEmpty(2);
    CategoryMissesEmpty(3);
    assert Lower("") == "";
    CategoryPointsNoneFound(REQUIRED_ELEMENTS, "");
    ScoreIsSumOfContributions("");
  }

  /** Only the two length checks and the problematic-word check make a prompt
      invalid; missing categories, the format check and problematic characters
      only cost score. */
  lemma ValidityIff(prompt: string)
    ensures Validate(prompt).isValid <==>
            |Strip(prompt)| >= 20 && |prompt| <= 500 && !HasProblematicWord(prompt)
  {
    var lower := Lower(prompt);
    CategoriesKeepValidity(CheckLength(prompt), REQUIRED_ELEMENTS, lower);
    FoundInSpec(PROBLEMATIC_WORDS, lower);
  }

  /** The rules after the category loop only append issues. */
  lemma IssuesOnlyGrow(e: Evaluation, prompt: string)
    ensures e.issues <= CheckChars(CheckWords(CheckFormat(e, prompt), prompt), prompt).issues
  {
  }

  /** The word and character rules only append issues and suggestions. */
  lemma LastRulesAppend(e: Evaluation, prompt: string)
    ensures e.issues <= CheckChars(CheckWords(e, prompt), prompt).issues
    ensures e.suggestions <= CheckChars(CheckWords(e, prompt), prompt).suggestions
  {
  }

  /** Fewer than two format patterns: the format issue and its suggestion are
      in the report and the rule costs 5 points. */
  lemma FormatRuleReported(prompt: string)
    requires CountFound(LYRIA_PATTERNS, prompt) < 2
    ensures FORMAT_ISSUE in Validate(prompt).issues
    ensures FORMAT_SUGGESTION in Validate(prompt).suggestions
    ensures FormatPoints(prompt) == -5
  {
    var e2 := ScoreCategories(CheckLength(prompt), REQUIRED_ELEMENTS, Lower(prompt));
    var e3 := CheckFormat(e2, prompt);
    assert e3.issues[|e3.issues| - 1] == FORMAT_ISSUE;
    assert e3.suggestions[|e3.suggestions| - 1] == FORMAT_SUGGESTION;
    LastRulesAppend(e3, prompt);
    assert e3.issues <= Validate(prompt).issues;
    assert e3.suggestions <= Validate(prompt).suggestions;
  }

  /** A problematic character anywhere in the prompt: the last issue names
      every problematic character present, in table order, the last
      suggestion asks to remove them, and the rule costs 10 points. */
  lemma CharRuleReported(prompt: string)
    requires !NoProblematicChars(prompt)
    ensures var v := Validate(prompt);
      |v.issues| > 0 && v.issues[|v.issues| - 1] == CharsIssue(FoundCharsIn(PROBLEMATIC_CHARS, prompt))
      && |v.suggestions| > 0 && v.suggestions[|v.suggestions| - 1] == CHARS_SUGGESTION
    ensures forall c :: c in FoundCharsIn(PROBLEMATIC_CHARS, prompt) <==> c in PROBLEMATIC_CHARS && c in prompt
    ensures CharPoints(prompt) == -10
  {
    FoundCharsInSpec(PROBLEMATIC_CHARS, prompt);
    var e4 := CheckWords(CheckFormat(ScoreCategories(CheckLength(prompt), REQUIRED_ELEMENTS, Lower(prompt)), prompt), prompt);
    var found := FoundCharsIn(PROBLEMATIC_CHARS, prompt);
    assert found != [];
    assert Validate(prompt).issues == CheckChars(e4, prompt).issues == e4.issues + [CharsIssue(found)];
    assert Validate(prompt).suggestions == e4.suggestions + [CHARS_SUGGESTION];
  }

  /** A prompt shorter than 20 characters once stripped, or longer than 500,
      is invalid and reported; the points each rule costs are LengthPoints. */
  lemma LengthRules(prompt: string)
    ensures |Strip(prompt)| < 20 ==>
              !Validate(prompt).isValid && TOO_SHORT_ISSUE in Validate(prompt).issues
    ensures |prompt| > 500 ==>
              !Validate(prompt).isValid && TOO_LONG_ISSUE in Validate(prompt).issues
  {
    var e := CheckLength(prompt);
    var e3 := ScoreCategories(e, REQUIRED_ELEMENTS, Lower(prompt));
    CategoriesKeepIssues(e, REQUIRED_ELEMENTS, Lower(prompt));
    IssuesOnlyGrow(e3, prompt);
    assert e.issues <= Assess(prompt).issues;
    if |Strip(prompt)| < 20 {
      assert TOO_SHORT_ISSUE == e.issues[0];
    }
    if |prompt| > 500 {
      assert TOO_LONG_ISSUE == e.issues[|e.issues| - 1];
    }
    ValidityIff(prompt);
  }

  /** A problematic word anywhere in the lower-cased prompt makes it invalid,
      costs 50 points, and one issue lists every problematic word found, in
      table order. */
  lemma ProblematicWordReported(prompt: string, w: string)
    requires w in PROBLEMATIC_WORDS && Contains(Lower(prompt), w)
    ensures !Validate(prompt).isValid && WordPoints(prompt) == -50
    ensures w in FoundIn(PROBLEMATIC_WORDS, Lower(prompt))
    ensures WordsIssue(FoundIn(PROBLEMATIC_WORDS, Lower(prompt))) in Validate(prompt).issues
  {
    var lower := Lower(prompt);
    CategoriesKeepValidity(CheckLength(prompt), REQUIRED_ELEMENTS, lower);
    FoundInSpec(PROBLEMATIC_WORDS, lower);
  }

  /** A category with no keyword in the prompt is reported as missing. */
  lemma MissingCategoryReported(prompt: string, c: Category)
    requires c in REQUIRED_ELEMENTS && FoundIn(c.keywords, Lower(prompt)) == []
    ensures MissingIssue(c.name) in Validate(prompt).issues
  {
    var lower := Lower(prompt);
    CategoriesAppendIssues(CheckLength(prompt), REQUIRED_ELEMENTS, lower);
    MissingIssueListed(REQUIRED_ELEMENTS, lower, c);
  }

  /** The category loop of `validate_prompt_format`, over the record's fields. */
  method ScoreCategoriesLoop(e: Evaluation, categories: seq<Category>, lower: string) returns (result: Evaluation)
    ensures result == ScoreCategories(e, categories, lower)
  {
    var isValid, issues, suggestions, score := e.isValid, e.issues, e.suggestions, e.score;
    for k := 0 to |categories|
      invariant ScoreCategories(Evaluation(isValid, issues, suggestions, score), categories[k..], lower)
                == ScoreCategories(e, categories, lower)
    {
      var category := categories[k];
      var found := FoundIn(category.keywords, lower);
      if found == [] {
        issues := issues + [MissingIssue(category.name)];
        suggestions := suggestions + [MissingSuggestion(category.name)];
        score := score - 10;
      } else {
        score := score + 5;
      }
    }
    result := Evaluation(isValid, issues, suggestions, score);
  }

  /** The loop that counts how many format patterns match. */
  method CountPatternMatches(patterns: seq<LyriaPattern>, prompt: string) returns (matches: nat)
    ensures matches == CountFound(patterns, prompt)
  {
    matches := 0;
    for k := 0 to |patterns|
      invariant matches + CountFound(patterns[k..], prompt) == CountFound(patterns, prompt)
    {
      if PatternFound(patterns[k], prompt) {
        matches := matches + 1;
      }
    }
  }

  /** The problematic-word rule, on the record's fields. */
  method CheckWordsStep(e: Evaluation, prompt: string) returns (result: Evaluation)
    ensures result == CheckWords(e, prompt)
  {
    var isValid, issues, suggestions, score := e.isValid, e.issues, e.suggestions, e.score;
    var foundWords := FoundIn(PROBLEMATIC_WORDS, Lower(prompt));
    if foundWords != [] {
      isValid := false;
      issues := issues + [WordsIssue(foundWords)];
      suggestions := suggestions + [WORDS_SUGGESTION];
      score := score - 50;
    }
    result := Evaluation(isValid, issues, suggestions, score);
  }

  /** The problematic-character rule, on the record's fields. */
  method CheckCharsStep(e: Evaluation, prompt: string) returns (result: Evaluation)
    ensures result == CheckChars(e, prompt)
    ensures result.isValid == e.isValid
    ensures !NoProblematicChars(prompt) ==>
      result.issues == e.issues + [CharsIssue(FoundCharsIn(PROBLEMATIC_CHARS, prompt))]
      && result.suggestions == e.suggestions + [CHARS_SUGGESTION] && result.score == e.score - 10
    ensures NoProblematicChars(prompt) ==> result == e
  {
    FoundCharsInSpec(PROBLEMATIC_CHARS, prompt);
    var isValid, issues, suggestions, score := e.isValid, e.issues, e.suggestions, e.score;
    var foundChars := FoundCharsIn(PROBLEMATIC_CHARS, prompt);
    if foundChars != [] {
      issues := issues + [CharsIssue(foundChars)];
      suggestions := suggestions + [CHARS_SUGGESTION];
      score := score - 10;
    }
    result := Evaluation(isValid, issues, suggestions, score);
  }

  /** The two length rules, on a fresh record's fields. */
  method CheckLengthStep(prompt: string) returns (result: Evaluation)
    ensures result == CheckLength(prompt)
  {
    var isValid, issues, suggestions, score := true, [], [], 0;
    if |Strip(prompt)| < 20 {
      isValid := false;
      issues := issues + [TOO_SHORT_ISSUE];
      suggestions := suggestions + [TOO_SHORT_SUGGESTION];
      score := score - 30;
    }
    if |prompt| > 500 {
      isValid := false;
      issues := issues + [TOO_LONG_ISSUE];
      suggestions := suggestions + [TOO_LONG_SUGGESTION];
      score := score - 20;
    }
    result := Evaluation(isValid, issues, suggestions, score);
  }

  /** The format rule: the pattern count, then the penalty below two matches. */
  method CheckFormatStep(e: Evaluation, prompt: string) returns (result: Evaluation)
    ensures result == CheckFormat(e, prompt)
    ensures result.isValid == e.isValid
    ensures CountFound(LYRIA_PATTERNS, prompt) < 2 ==>
      result.issues == e.issues + [FORMAT_ISSUE] && result.suggestions == e.suggestions + [FORMAT_SUGGESTION]
      && result.score == e.score - 5
    ensures CountFound(LYRIA_PATTERNS, prompt) >= 2 ==> result == e
  {
    result := e;
    var patternMatches := CountPatternMatches(LYRIA_PATTERNS, prompt);
    if patternMatches < 2 {
      result := e.(issues := e.issues + [FORMAT_ISSUE], suggestions := e.suggestions + [FORMAT_SUGGESTION],
                   score := e.score - 5);
    }
  }

  /** `validate_prompt_format` as the source writes it: a record updated rule
      by rule, a loop over the categories and a loop counting pattern matches. */
  method ValidatePromptFormat(prompt: string) returns (result: Evaluation)
    ensures result == Validate(prompt)
    ensures result.score == Clamp(RawScore(prompt) + 50) && 0 <= result.score <= 70
    ensures result.isValid <==> |Strip(prompt)| >= 20 && |prompt| <= 500 && !HasProblematicWord(prompt)
  {
    ScoreIsSumOfContributions(prompt);
    ScoreCeiling(prompt);
    ValidityIff(prompt);
    var e := CheckLengthStep(prompt);
    e := ScoreCategoriesLoop(e, REQUIRED_ELEMENTS, Lower(prompt));
    e := CheckFormatStep(e, prompt);
    e := CheckWordsStep(e, prompt);
    e := CheckCharsStep(e, prompt);
    result := e.(score := Clamp(e.score + 50));
  }
}
