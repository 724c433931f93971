/** `check_prompt_quality` and `validate_and_fix_prompt`: the gate that
    scores a prompt, sanitises it, restructures it when its score is below
    70, scores the result and keeps whichever scored better. */
module Quality {
  import opened Rubric
  import opened Validation
  import opened Sanitizer
  import opened Restructure

  /** The report `check_prompt_quality` returns. */
  datatype QualityReport = QualityReport(
    originalPrompt: string,
    originalValidation: Evaluation,
    sanitizedPrompt: string,
    improvedPrompt: string,
    improvedValidation: Evaluation,
    finalPrompt: string,
    wasImproved: bool,
    finalScore: int)

  /** The score below which restructuring is attempted. */
  const RESTRUCTURE_BELOW := 70

  /** The score from which the final prompt is accepted. */
  const ACCEPT_FROM := 50

  /** What `validate_and_fix_prompt` answers when the best score is below 50: the
      sanitiser's fallback with a longer closing clause (one literal in the source). */
  const FIX_FALLBACK := SANITIZE_FALLBACK + ", suitable for contemplative scenes " + "with natural elements and soft lighting."

  function Max(a: int, b: int): int { if a >= b then a else b }

  /** `check_prompt_quality(prompt)`. */
  function CheckPromptQuality(prompt: string): QualityReport
  {
    var validation := Validate(prompt);
    var sanitized := Sanitize(prompt);
    var improved := if validation.score < RESTRUCTURE_BELOW then Improve(sanitized) else sanitized;
    var improvedValidation := Validate(improved);
    var better := improvedValidation.score > validation.score;
    QualityReport(prompt, validation, sanitized, improved, improvedValidation,
                  if better then improved else sanitized, better,
                  Max(validation.score, improvedValidation.score))
  }

  /** `validate_and_fix_prompt(prompt)`; the two accepting branches of the source return the same value. */
  function ValidateAndFix(prompt: string): string
  {
    var report := CheckPromptQuality(prompt);
    if report.finalScore >= RESTRUCTURE_BELOW then report.finalPrompt
    else if report.finalScore >= ACCEPT_FROM then report.finalPrompt
    else FIX_FALLBACK
  }

  // ---------------------------------------------------------------------
  // Properties of the report.
  // ---------------------------------------------------------------------

  /** The final score is the better of the two scores, and lies in [0, 70]. */
  lemma FinalScoreIsBest(prompt: string)
    ensures var r := CheckPromptQuality(prompt);
      r.finalScore >= r.originalValidation.score && r.finalScore >= r.improvedValidation.score
      && (r.finalScore == r.originalValidation.score || r.finalScore == r.improvedValidation.score)
    ensures 0 <= CheckPromptQuality(prompt).finalScore <= 70
  {
    var r := CheckPromptQuality(prompt);
    ScoreCeiling(prompt);
    ScoreCeiling(r.improvedPrompt);
  }

  /** The improvement is taken exactly when it scores strictly higher; then
      the final score is the final prompt's own score. Otherwise the
      sanitised prompt is kept and the final score is the original
      prompt's. At the ceiling of 70 the sanitised prompt is the one scored
      second, so it is never improved on and keeps the score of 70 even if
      its own score is lower. */
  lemma FinalPromptChoice(prompt: string)
    ensures var r := CheckPromptQuality(prompt);
      (r.wasImproved <==> r.improvedValidation.score > r.originalValidation.score)
      && (r.wasImproved ==> r.finalPrompt == r.improvedPrompt && r.finalScore == Validate(r.finalPrompt).score)
      && (!r.wasImproved ==> r.finalPrompt == r.sanitizedPrompt && r.finalScore == r.originalValidation.score)
    ensures var r := CheckPromptQuality(prompt);
      r.originalValidation.score == 70 ==>
        r.improvedValidation == Validate(r.sanitizedPrompt) && !r.wasImproved && r.finalScore == 70
  {
    var r := CheckPromptQuality(prompt);
    ScoreCeiling(r.improvedPrompt);
  }

  /** A prompt that already scores the maximum of 70 is only sanitised, not
      restructured; below 70 the sanitised prompt is restructured. */
  lemma RestructuredOnlyBelowCeiling(prompt: string)
    ensures var r := CheckPromptQuality(prompt);
      (r.originalValidation.score == 70 ==> r.improvedPrompt == r.sanitizedPrompt)
      && (r.originalValidation.score < 70 ==> r.improvedPrompt == Improve(r.sanitizedPrompt))
    ensures CheckPromptQuality(prompt).originalValidation.score <= 70
  {
    ScoreCeiling(prompt);
  }

  /** Whatever the input, the sanitised prompt holds no problematic character. */
  lemma SanitizedIsClean(prompt: string)
    ensures NoProblematicChars(Sanitize(prompt))
  {
    if prompt == "" {
      FallbackClean();
    } else {
      SanitizeOutputShape(prompt);
    }
  }

  /** Whatever the input, the final prompt holds no problematic character. */
  lemma FinalPromptIsClean(prompt: string)
    ensures NoProblematicChars(CheckPromptQuality(prompt).finalPrompt)
  {
    SanitizedIsClean(prompt);
    ImproveKeepsClean(Sanitize(prompt));
  }

  lemma FixFallbackClean()
    ensures NoProblematicChars(FIX_FALLBACK)
  {
    FallbackClean();
    CleanConcat(SANITIZE_FALLBACK, ", suitable for contemplative scenes ");
    CleanConcat(SANITIZE_FALLBACK + ", suitable for contemplative scenes ", "with natural elements and soft lighting.");
  }

  // ---------------------------------------------------------------------
  // Properties of `validate_and_fix_prompt`.
  // ---------------------------------------------------------------------

  /** The final prompt is returned exactly when its report scores at least
      50; below that the fixed fallback is returned. */
  lemma FixAcceptsFromFifty(prompt: string)
    ensures CheckPromptQuality(prompt).finalScore >= 50 ==> ValidateAndFix(prompt) == CheckPromptQuality(prompt).finalPrompt
    ensures CheckPromptQuality(prompt).finalScore < 50 ==> ValidateAndFix(prompt) == FIX_FALLBACK
  {
  }

  /** A prompt scoring below 50 is answered by its restructured sanitised
      form when that scores at least 50, and by the fixed fallback otherwise. */
  lemma LowScoreFix(prompt: string)
    ensures Validate(prompt).score < ACCEPT_FROM ==>
      ValidateAndFix(prompt) ==
        var improved := Improve(Sanitize(prompt));
        if Validate(improved).score >= ACCEPT_FROM then improved else FIX_FALLBACK
  {
  }

  /** For the empty prompt the sanitiser's fallback is restructured, and
      `validate_and_fix_prompt` answers that restructured prompt when it
      scores at least 50 and the fixed fallback otherwise. */
  lemma EmptyPromptFix()
    ensures CheckPromptQuality("").improvedPrompt == Improve(SANITIZE_FALLBACK)
    ensures ValidateAndFix("") ==
      if Validate(Improve(SANITIZE_FALLBACK)).score >= ACCEPT_FROM then Improve(SANITIZE_FALLBACK) else FIX_FALLBACK
  {
    EmptyPromptScoresZero();
    LowScoreFix("");
  }

  /** A prompt scoring the maximum of 70 is answered in its sanitised form,
      which ends in ".", "!" or "?" whenever it is not empty; so such a
      prompt without a closing mark is not returned unchanged. */
  lemma TopScoreReturnsSanitized(prompt: string)
    ensures Validate(prompt).score == 70 ==> ValidateAndFix(prompt) == Sanitize(prompt)
    ensures Validate(prompt).score == 70 && Sanitize(prompt) != "" ==> EndsTerminal(ValidateAndFix(prompt))
    ensures Validate(prompt).score == 70 && Sanitize(prompt) != "" && !EndsTerminal(prompt) ==> ValidateAndFix(prompt) != prompt
  {
    if Validate(prompt).score == 70 {
      FinalPromptChoice(prompt);
      EmptyPromptScoresZero();
      SanitizeOutputShape(prompt);
    }
  }

  /** What `validate_and_fix_prompt` returns never holds a problematic character. */
  lemma FixedPromptIsClean(prompt: string)
    ensures NoProblematicChars(ValidateAndFix(prompt))
  {
    FinalPromptIsClean(prompt);
    FixFallbackClean();
  }
}
