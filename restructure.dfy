/** `improve_prompt_structure`: leaves a prompt alone when it already has a
    "<Word> Film Score"-style heading, and otherwise rebuilds it from the
    style and instrument keywords it mentions. */
module Restructure {
  import opened Text
  import opened Rubric
  import opened Sanitizer

  /** The answer to an empty prompt: the sanitiser's fallback with a closing clause. */
  const IMPROVE_FALLBACK := SANITIZE_FALLBACK + ", suitable for contemplative scenes."

  const RECORDING_PART := "Studio recording"
  const INSTRUMENTAL_PART := "Pristine contemporary Instrumental"
  const DEFAULT_STYLE_PART := "Contemporary Film Score"
  const FEATURING := "featuring "

  /** The text after the last comma of `s` (`s.split(",")[-1]`), or all of `s`. */
  function AfterLastComma(s: string): (r: string)
    ensures |r| <= |s| && r == s[|s| - |r|..]
    ensures ',' !in r
    ensures |r| < |s| ==> s[|s| - |r| - 1] == ','
  {
    if s == [] then []
    else if s[|s| - 1] == ',' then []
    else AfterLastComma(s[..|s| - 1]) + [s[|s| - 1]]
  }

  /** The heading: the first style keyword found, title-cased, or a default. */
  function StylePart(styles: seq<string>): string
  {
    if styles != [] then Title(styles[0]) + " Film Score" else DEFAULT_STYLE_PART
  }

  /** The instruments the rebuilt prompt names: the first three found. */
  function NamedInstruments(prompt: string): seq<string>
  {
    Take(FoundIn(INSTRUMENT_KEYWORDS, Lower(prompt)), 3)
  }

  /** The optional "featuring" clause. */
  function FeaturingParts(prompt: string): seq<string>
  {
    var instruments := NamedInstruments(prompt);
    if instruments != [] then [FEATURING + Join(instruments, ", ")] else []
  }

  /** The original description kept at the end of a long prompt: the text
      after the last comma, stripped (or the whole prompt when it has no
      comma), when it is longer than 10 characters. */
  function DescriptiveParts(prompt: string): seq<string>
  {
    if |prompt| > 50 then
      var part := Description(prompt);
      if part != "" && |part| > 10 then [part] else []
    else []
  }

  /** The candidate description: the stripped text after the last comma, or the whole prompt. */
  function Description(prompt: string): string
  {
    if ',' in prompt then Strip(AfterLastComma(prompt)) else prompt
  }

  /** The fixed opening of a rebuilt prompt: heading, recording type, instrumental kind. */
  function Opening(prompt: string): string
  {
    StylePart(FoundIn(STYLE_KEYWORDS, Lower(prompt))) + ", " + RECORDING_PART + ", " + INSTRUMENTAL_PART
  }

  /** The rebuilt prompt's parts, in order. */
  function ImprovedParts(prompt: string): seq<string>
  {
    [StylePart(FoundIn(STYLE_KEYWORDS, Lower(prompt))), RECORDING_PART, INSTRUMENTAL_PART]
    + FeaturingParts(prompt) + DescriptiveParts(prompt)
  }

  /** `improve_prompt_structure(prompt)`. */
  function Improve(prompt: string): string
  {
    if prompt == "" then IMPROVE_FALLBACK
    else if WellStructured(prompt) then prompt
    else CloseSentence(Join(ImprovedParts(prompt), ", "))
  }

  // ---------------------------------------------------------------------
  // Properties.
  // ---------------------------------------------------------------------

  lemma StyleKeywordsAreLowerWords()
    ensures forall w :: w in STYLE_KEYWORDS ==> |w| >= 2 && LowerWord(w)
  {
  }

  /** A text that starts with a capitalised word, a blank and "Film Score"
      passes the case-sensitive structure guard. */
  lemma HeadingIsStructured(r: string, word: string)
    requires |word| >= 2 && IsUpper(word[0]) && LowerWord(word[1..])
    requires word + " Film Score" <= r
    ensures WellStructured(r)
  {
    var b := |word|;
    assert r[..b + 11] == word + " Film Score";
    assert forall k :: 0 < k < b ==> r[k] == word[1..][k - 1];
    assert TitledWord(r, 0, b);
    assert r[b] == ' ';
    assert SpaceRun(r, b, b + 1);
    assert r[b + 1..b + 11] == "Film Score";
    assert StartsAt(r, b + 1, "Film Score");
    assert PhraseAt(r, b + 1, ["Film Score", "Trailer Music", "Background Music", "Music"]);
  }

  /** The first style keyword found is a lower-case word of two letters or more. */
  lemma FirstStyleIsLowerWord(prompt: string)
    requires FoundIn(STYLE_KEYWORDS, Lower(prompt)) != []
    ensures var style := FoundIn(STYLE_KEYWORDS, Lower(prompt))[0]; |style| >= 2 && LowerWord(style)
  {
    FoundInSpec(STYLE_KEYWORDS, Lower(prompt));
    StyleKeywordsAreLowerWords();
    assert FoundIn(STYLE_KEYWORDS, Lower(prompt))[0] in FoundIn(STYLE_KEYWORDS, Lower(prompt));
  }

  /** The heading is a capitalised word followed by " Film Score". */
  lemma StylePartShape(prompt: string) returns (word: string)
    ensures |word| >= 2 && IsUpper(word[0]) && LowerWord(word[1..])
    ensures StylePart(FoundIn(STYLE_KEYWORDS, Lower(prompt))) == word + " Film Score"
  {
    var styles := FoundIn(STYLE_KEYWORDS, Lower(prompt));
    if styles != [] {
      FirstStyleIsLowerWord(prompt);
      TitleOfLowerWord(styles[0]);
      word := Title(styles[0]);
    } else {
      word := "Contemporary";
      assert word[1..] == "ontemporary";
    }
  }

  /** The rebuilt text starts with its heading. */
  lemma RebuiltStartsWithHeading(prompt: string)
    ensures ImprovedParts(prompt)[0] <= CloseSentence(Join(ImprovedParts(prompt), ", "))
  {
    var parts := ImprovedParts(prompt);
    JoinAppend(parts[..1], parts[1..], ", ");
    assert parts[..1] + parts[1..] == parts;
  }

  /** Every non-empty prompt comes out with the heading the guard looks for. */
  lemma ImproveIsStructured(prompt: string)
    requires prompt != ""
    ensures WellStructured(Improve(prompt))
  {
    if !WellStructured(prompt) {
      var word := StylePartShape(prompt);
      RebuiltStartsWithHeading(prompt);
      HeadingIsStructured(Improve(prompt), word);
    }
  }

  /** Improving twice is improving once, for every non-empty prompt. */
  lemma ImproveIdempotent(prompt: string)
    requires prompt != ""
    ensures Improve(Improve(prompt)) == Improve(prompt)
  {
    ImproveIsStructured(prompt);
  }

  /** A prompt that is rebuilt, or the fallback, ends in `.`, `!` or `?`. */
  lemma RebuiltEndsTerminal(prompt: string)
    requires !WellStructured(prompt)
    ensures EndsTerminal(Improve(prompt))
  {
    if prompt != "" {
      var joined := Join(ImprovedParts(prompt), ", ");
      RebuiltStartsWithHeading(prompt);
      assert joined != [];
    } else {
      assert IMPROVE_FALLBACK[|IMPROVE_FALLBACK| - 1] == '.';
    }
  }

  /** The rebuilt prompt opens with its heading, the recording type and the
      instrumental kind, in that order and separated by ", ". */
  lemma RebuiltOpening(prompt: string)
    requires prompt != "" && !WellStructured(prompt)
    ensures StylePart(FoundIn(STYLE_KEYWORDS, Lower(prompt))) + ", " + RECORDING_PART + ", " + INSTRUMENTAL_PART
            <= Improve(prompt)
  {
    var parts := ImprovedParts(prompt);
    assert parts[..3] == [parts[0], RECORDING_PART, INSTRUMENTAL_PART];
    JoinThree(parts[0], RECORDING_PART, INSTRUMENTAL_PART, ", ");
    JoinPrefix(parts, 3, ", ");
  }

  lemma JoinThree(a: string, b: string, c: string, sep: string)
    ensures Join([a, b, c], sep) == a + sep + b + sep + c
  {
    assert [a, b, c][1..] == [b, c];
    assert [b, c][1..] == [c];
    assert Join([b, c], sep) == b + sep + c;
  }

  /** The instruments named are the first three found (all of them when
      three or fewer occur): instrument keywords that occur in the
      lower-cased prompt, in table order. */
  lemma NamedInstrumentsSpec(prompt: string)
    ensures var found := FoundIn(INSTRUMENT_KEYWORDS, Lower(prompt));
      NamedInstruments(prompt) == found[..if |found| <= 3 then |found| else 3]
    ensures |NamedInstruments(prompt)| <= 3
    ensures forall w :: w in NamedInstruments(prompt) ==> w in INSTRUMENT_KEYWORDS && Contains(Lower(prompt), w)
    ensures Subsequence(NamedInstruments(prompt), FoundIn(INSTRUMENT_KEYWORDS, Lower(prompt)))
    ensures |FoundIn(INSTRUMENT_KEYWORDS, Lower(prompt))| <= 3 ==>
              NamedInstruments(prompt) == FoundIn(INSTRUMENT_KEYWORDS, Lower(prompt))
  {
    var found := FoundIn(INSTRUMENT_KEYWORDS, Lower(prompt));
    FoundInSpec(INSTRUMENT_KEYWORDS, Lower(prompt));
    PrefixIsSubsequence(NamedInstruments(prompt), found);
  }

  lemma JoinFour(a: string, b: string, c: string, d: string, sep: string)
    ensures Join([a, b, c, d], sep) == a + sep + b + sep + c + sep + d
  {
    JoinThree(b, c, d, sep);
    assert [a, b, c, d][1..] == [b, c, d];
  }

  /** The rebuilt prompt, when some instrument occurs, goes on to name them
      right after the instrumental kind. */
  lemma RebuiltFeaturing(prompt: string)
    requires prompt != "" && !WellStructured(prompt) && NamedInstruments(prompt) != []
    ensures StylePart(FoundIn(STYLE_KEYWORDS, Lower(prompt))) + ", " + RECORDING_PART + ", " + INSTRUMENTAL_PART
            + ", " + (FEATURING + Join(NamedInstruments(prompt), ", ")) <= Improve(prompt)
  {
    var parts := ImprovedParts(prompt);
    var clause := FEATURING + Join(NamedInstruments(prompt), ", ");
    assert parts[..4] == [parts[0], RECORDING_PART, INSTRUMENTAL_PART, clause];
    JoinFour(parts[0], RECORDING_PART, INSTRUMENTAL_PART, clause, ", ");
    JoinPrefix(parts, 4, ", ");
  }

  /** Joining a last part after others ends the text with ", " and that part. */
  lemma JoinEndsWithLast(head: seq<string>, part: string)
    requires head != [] && part != []
    ensures Join(head + [part], ", ") == Join(head, ", ") + ", " + part
    ensures EndsWith(Join(head + [part], ", "), ", " + part)
  {
    JoinAppend(head, [part], ", ");
    var j := Join(head + [part], ", ");
    assert j[|j| - |", " + part|..] == ", " + part;
  }

  /** Closing a sentence keeps a suffix, followed by a full stop when the suffix has no terminal mark. */
  lemma CloseKeepsSuffix(j: string, t: string)
    requires t != [] && EndsWith(j, t)
    ensures EndsTerminal(t) ==> EndsWith(CloseSentence(j), t)
    ensures !EndsTerminal(t) ==> EndsWith(CloseSentence(j), t + ".")
  {
    assert j[|j| - 1] == t[|t| - 1];
    if !EndsTerminal(t) {
      var r := j + ".";
      assert r[|r| - |t + "."|..] == j[|j| - |t|..] + ".";
    }
  }

  /** A prompt that fails the guard is rebuilt from its parts. */
  lemma RebuiltFromParts(prompt: string)
    requires prompt != "" && !WellStructured(prompt)
    ensures Improve(prompt) == CloseSentence(Join(ImprovedParts(prompt), ", "))
  {
  }

  /** A long prompt whose description is longer than 10 characters ends,
      once rebuilt, with ", " and that description, and a full stop when the
      description does not end in `.`, `!` or `?`. */
  lemma RebuiltEndsWithDescription(prompt: string)
    requires prompt != "" && !WellStructured(prompt) && |prompt| > 50 && |Description(prompt)| > 10
    ensures EndsTerminal(Description(prompt)) ==> EndsWith(Improve(prompt), ", " + Description(prompt))
    ensures !EndsTerminal(Description(prompt)) ==> EndsWith(Improve(prompt), ", " + Description(prompt) + ".")
  {
    var part := Description(prompt);
    var head := [StylePart(FoundIn(STYLE_KEYWORDS, Lower(prompt))), RECORDING_PART, INSTRUMENTAL_PART]
                + FeaturingParts(prompt);
    assert DescriptiveParts(prompt) == [part];
    assert ImprovedParts(prompt) == head + [part];
    RebuiltFromParts(prompt);
    ClosedJoinEndsWithLast(head, part);
  }

  /** The closed join of parts ends with ", " and the last part, then a full stop if it needs one. */
  lemma ClosedJoinEndsWithLast(head: seq<string>, part: string)
    requires head != [] && part != []
    ensures EndsTerminal(part) ==> EndsWith(CloseSentence(Join(head + [part], ", ")), ", " + part)
    ensures !EndsTerminal(part) ==> EndsWith(CloseSentence(Join(head + [part], ", ")), ", " + part + ".")
  {
    JoinEndsWithLast(head, part);
    CloseKeepsSuffix(Join(head + [part], ", "), ", " + part);
    assert EndsTerminal(", " + part) == EndsTerminal(part);
  }

  /** With no instrument, the kept description follows the opening directly. */
  lemma DescriptionFollowsOpening(prompt: string)
    requires prompt != "" && !WellStructured(prompt) && |prompt| > 50 && |Description(prompt)| > 10
    requires NamedInstruments(prompt) == []
    ensures Improve(prompt) == CloseSentence(Opening(prompt) + ", " + Description(prompt))
  {
    var part := Description(prompt);
    var style := StylePart(FoundIn(STYLE_KEYWORDS, Lower(prompt)));
    assert DescriptiveParts(prompt) == [part];
    assert ImprovedParts(prompt) == [style, RECORDING_PART, INSTRUMENTAL_PART, part];
    RebuiltFromParts(prompt);
    JoinFour(style, RECORDING_PART, INSTRUMENTAL_PART, part, ", ");
  }

  /** A prompt that keeps no description ends right after the opening, or
      after the "featuring" clause when some instrument occurs. */
  lemma RebuiltWithoutDescription(prompt: string)
    requires prompt != "" && !WellStructured(prompt) && !(|prompt| > 50 && |Description(prompt)| > 10)
    ensures NamedInstruments(prompt) == [] ==> Improve(prompt) == Opening(prompt) + "."
    ensures NamedInstruments(prompt) != [] ==>
              Improve(prompt) == CloseSentence(Opening(prompt) + ", " + (FEATURING + Join(NamedInstruments(prompt), ", ")))
  {
    var style := StylePart(FoundIn(STYLE_KEYWORDS, Lower(prompt)));
    assert DescriptiveParts(prompt) == [];
    RebuiltFromParts(prompt);
    if NamedInstruments(prompt) == [] {
      assert ImprovedParts(prompt) == [style, RECORDING_PART, INSTRUMENTAL_PART];
      JoinThree(style, RECORDING_PART, INSTRUMENTAL_PART, ", ");
      var o := Opening(prompt);
      assert o[|o| - 1] == 'l';
    } else {
      var clause := FEATURING + Join(NamedInstruments(prompt), ", ");
      assert ImprovedParts(prompt) == [style, RECORDING_PART, INSTRUMENTAL_PART, clause];
      JoinFour(style, RECORDING_PART, INSTRUMENTAL_PART, clause, ", ");
    }
  }

  // ---------------------------------------------------------------------
  // No problematic character is introduced.
  // ---------------------------------------------------------------------

  lemma LowerKeepsClean(s: string)
    requires NoProblematicChars(s)
    ensures NoProblematicChars(Lower(s))
  {
  }

  /** Whatever occurs in a clean text is clean. */
  lemma ContainedIsClean(s: string, w: string)
    requires NoProblematicChars(s) && Contains(s, w)
    ensures NoProblematicChars(w)
  {
    var i :| 0 <= i <= |s| - |w| && StartsAt(s, i, w);
    assert forall k :: 0 <= k < |w| ==> w[k] == s[i + k];
  }

  lemma TitleKeepsClean(s: string)
    requires NoProblematicChars(s)
    ensures NoProblematicChars(Title(s))
  {
  }

  lemma {:induction false} JoinKeepsClean(xs: seq<string>, sep: string)
    requires NoProblematicChars(sep)
    requires forall k :: 0 <= k < |xs| ==> NoProblematicChars(xs[k])
    ensures NoProblematicChars(Join(xs, sep))
  {
    if |xs| > 1 {
      JoinKeepsClean(xs[1..], sep);
      CleanConcat(xs[0], sep);
      CleanConcat(xs[0] + sep, Join(xs[1..], sep));
    }
  }

  /** Keywords found in a clean prompt are clean. */
  lemma FoundKeywordsClean(keywords: seq<string>, prompt: string)
    requires NoProblematicChars(prompt)
    ensures forall w :: w in FoundIn(keywords, Lower(prompt)) ==> NoProblematicChars(w)
  {
    LowerKeepsClean(prompt);
    FoundInSpec(keywords, Lower(prompt));
    forall w | w in FoundIn(keywords, Lower(prompt))
      ensures NoProblematicChars(w)
    {
      ContainedIsClean(Lower(prompt), w);
    }
  }

  lemma StylePartClean(prompt: string)
    requires NoProblematicChars(prompt)
    ensures NoProblematicChars(StylePart(FoundIn(STYLE_KEYWORDS, Lower(prompt))))
  {
    var styles := FoundIn(STYLE_KEYWORDS, Lower(prompt));
    if styles != [] {
      FoundKeywordsClean(STYLE_KEYWORDS, prompt);
      assert styles[0] in styles;
      TitleKeepsClean(styles[0]);
      CleanConcat(Title(styles[0]), " Film Score");
    } else {
      assert NoProblematicChars(DEFAULT_STYLE_PART);
    }
  }

  lemma FeaturingClean(prompt: string)
    requires NoProblematicChars(prompt)
    ensures forall k :: 0 <= k < |FeaturingParts(prompt)| ==> NoProblematicChars(FeaturingParts(prompt)[k])
  {
    var instruments := NamedInstruments(prompt);
    if instruments != [] {
      FoundKeywordsClean(INSTRUMENT_KEYWORDS, prompt);
      var found := FoundIn(INSTRUMENT_KEYWORDS, Lower(prompt));
      assert forall k :: 0 <= k < |instruments| ==> instruments[k] == found[k];
      assert NoProblematicChars(", ");
      JoinKeepsClean(instruments, ", ");
      CleanConcat(FEATURING, Join(instruments, ", "));
    }
  }

  lemma StripKeepsClean(s: string)
    requires NoProblematicChars(s)
    ensures NoProblematicChars(Strip(s))
  {
    var lo, hi := StripIsSlice(s);
    assert forall k :: 0 <= k < hi - lo ==> Strip(s)[k] == s[lo + k];
  }

  lemma AfterLastCommaKeepsClean(s: string)
    requires NoProblematicChars(s)
    ensures NoProblematicChars(AfterLastComma(s))
  {
    var tail := AfterLastComma(s);
    assert forall k :: 0 <= k < |tail| ==> tail[k] == s[|s| - |tail| + k];
  }

  lemma DescriptiveClean(prompt: string)
    requires NoProblematicChars(prompt)
    ensures forall k :: 0 <= k < |DescriptiveParts(prompt)| ==> NoProblematicChars(DescriptiveParts(prompt)[k])
  {
    if |prompt| > 50 && ',' in prompt {
      AfterLastCommaKeepsClean(prompt);
      StripKeepsClean(AfterLastComma(prompt));
    }
  }

  /** Every part is free of problematic characters. */
  predicate AllClean(parts: seq<string>)
  {
    forall k :: 0 <= k < |parts| ==> NoProblematicChars(parts[k])
  }

  lemma AllCleanConcat(xs: seq<string>, ys: seq<string>)
    requires AllClean(xs) && AllClean(ys)
    ensures AllClean(xs + ys)
  {
    forall k | 0 <= k < |xs + ys|
      ensures NoProblematicChars((xs + ys)[k])
    {
      if k < |xs| {
        assert (xs + ys)[k] == xs[k];
      } else {
        assert (xs + ys)[k] == ys[k - |xs|];
      }
    }
  }

  lemma ImprovedPartsClean(prompt: string)
    requires NoProblematicChars(prompt)
    ensures forall k :: 0 <= k < |ImprovedParts(prompt)| ==> NoProblematicChars(ImprovedParts(prompt)[k])
  {
    var fixedParts := [StylePart(FoundIn(STYLE_KEYWORDS, Lower(prompt))), RECORDING_PART, INSTRUMENTAL_PART];
    var featuring, descriptive := FeaturingParts(prompt), DescriptiveParts(prompt);
    assert AllClean(fixedParts) by {
      StylePartClean(prompt);
      assert NoProblematicChars(RECORDING_PART) && NoProblematicChars(INSTRUMENTAL_PART);
    }
    assert AllClean(featuring) by {
      FeaturingClean(prompt);
    }
    assert AllClean(descriptive) by {
      DescriptiveClean(prompt);
    }
    AllCleanConcat(fixedParts, featuring);
    AllCleanConcat(fixedParts + featuring, descriptive);
    assert ImprovedParts(prompt) == fixedParts + featuring + descriptive;
  }

  lemma ImproveFallbackClean()
    ensures NoProblematicChars(IMPROVE_FALLBACK)
  {
    FallbackClean();
    CleanConcat(SANITIZE_FALLBACK, ", suitable for contemplative scenes.");
  }

  /** Restructuring never introduces a problematic character. */
  lemma ImproveKeepsClean(prompt: string)
    requires NoProblematicChars(prompt)
    ensures NoProblematicChars(Improve(prompt))
  {
    if prompt == "" {
      ImproveFallbackClean();
    } else if !WellStructured(prompt) {
      ImprovedPartsClean(prompt);
      assert NoProblematicChars(", ");
      JoinKeepsClean(ImprovedParts(prompt), ", ");
      CleanConcat(Join(ImprovedParts(prompt), ", "), ".");
    }
  }

  // ---------------------------------------------------------------------
  // The source's construction.
  // ---------------------------------------------------------------------

  /** `improve_prompt_structure` as the source writes it: a list of parts
      appended one by one, then joined and closed with a full stop. */
  method ImprovePromptStructure(prompt: string) returns (improved: string)
    ensures improved == Improve(prompt)
    ensures prompt == "" ==> improved == IMPROVE_FALLBACK
    ensures prompt != "" && WellStructured(prompt) ==> improved == prompt
    ensures prompt != "" ==> WellStructured(improved)
    ensures prompt != "" && !WellStructured(prompt) ==> EndsTerminal(improved)
  {
    if prompt == "" {
      return IMPROVE_FALLBACK;
    }
    ImproveIsStructured(prompt);
    if WellStructured(prompt) {
      return prompt;
    }
    RebuiltEndsTerminal(prompt);
    assert Improve(prompt) == CloseSentence(Join(ImprovedParts(prompt), ", "));
    var promptLower := Lower(prompt);
    var foundStyle := FoundIn(STYLE_KEYWORDS, promptLower);
    var foundInstruments := FoundIn(INSTRUMENT_KEYWORDS, promptLower);

    var improvedParts: seq<string> := [];
    if foundStyle != [] {
      improvedParts := improvedParts + [Title(foundStyle[0]) + " Film Score"];
    } else {
      improvedParts := improvedParts + [DEFAULT_STYLE_PART];
    }
    assert improvedParts == [StylePart(foundStyle)];
    improvedParts := improvedParts + [RECORDING_PART];
    improvedParts := improvedParts + [INSTRUMENTAL_PART];
    ghost var fixedParts := improvedParts;
    assert fixedParts == [StylePart(FoundIn(STYLE_KEYWORDS, Lower(prompt))), RECORDING_PART, INSTRUMENTAL_PART];
    if foundInstruments != [] {
      improvedParts := improvedParts + [FEATURING + Join(Take(foundInstruments, 3), ", ")];
    }
    assert improvedParts == fixedParts + FeaturingParts(prompt);
    if |prompt| > 50 {
      var descriptivePart := if ',' in prompt then Strip(AfterLastComma(prompt)) else prompt;
      if descriptivePart != "" && |descriptivePart| > 10 {
        improvedParts := improvedParts + [descriptivePart];
      }
    }

    assert improvedParts == fixedParts + FeaturingParts(prompt) + DescriptiveParts(prompt);
    assert improvedParts == ImprovedParts(prompt);
    improved := Join(improvedParts, ", ");
    RebuiltStartsWithHeading(prompt);
    assert improved != [];
    if !EndsTerminal(improved) {
      improved := improved + ".";
    }
  }
}
