/** `sanitize_prompt`: masks the problematic characters, deletes the
    problematic words where they stand as whole words, collapses white space,
    capitalises the first letter and adds a closing full stop. */
module Sanitizer {
  import opened Text
  import opened Rubric

  /** The sanitiser's answer to an empty prompt (one literal in the source; split here only so
      that facts about its characters stay cheap to prove). */
  const SANITIZE_FALLBACK := "Ambient atmospheric music " + "with gentle textures and flowing melodies"

  /** `s.replace(c, r)` for single characters. */
  function ReplaceChar(s: string, c: char, r: char): (t: string)
    ensures |t| == |s|
    ensures forall i :: 0 <= i < |s| ==> t[i] == if s[i] == c then r else s[i]
  {
    seq(|s|, i requires 0 <= i < |s| => if s[i] == c then r else s[i])
  }

  /** Every problematic character replaced by a space. */
  function MaskChars(s: string): (t: string)
    ensures |t| == |s|
    ensures forall i :: 0 <= i < |s| ==> t[i] == if s[i] in PROBLEMATIC_CHARS then ' ' else s[i]
  {
    seq(|s|, i requires 0 <= i < |s| => if s[i] in PROBLEMATIC_CHARS then ' ' else s[i])
  }

  /** `\b` at index `i` of `s`: a word character on exactly one side. */
  predicate Boundary(s: string, i: int)
  {
    (0 < i <= |s| && IsWordChar(s[i - 1])) != (0 <= i < |s| && IsWordChar(s[i]))
  }

  /** `\bw\b` under `re.IGNORECASE` matches `s[i..i + |w|]`. */
  predicate WholeWordAt(s: string, i: int, w: string)
  {
    0 <= i && i + |w| <= |s| && Lower(s[i..i + |w|]) == Lower(w) && Boundary(s, i) && Boundary(s, i + |w|)
  }

  /** `re.sub(rf"\b{w}\b", "", s[i..], flags=re.IGNORECASE)` with the
      boundaries judged in the whole of `s`: the scan goes left to right,
      a match is deleted and the scan resumes after it, so matches never overlap. */
  function DeleteWord(s: string, w: string, i: nat): (t: string)
    requires |w| > 0 && i <= |s|
    decreases |s| - i
  {
    if i + |w| > |s| then s[i..]
    else if WholeWordAt(s, i, w) then DeleteWord(s, w, i + |w|)
    else [s[i]] + DeleteWord(s, w, i + 1)
  }

  /** The word loop: each word deleted from the text the previous one left. */
  function DeleteWords(s: string, words: seq<string>): string
    requires forall k :: 0 <= k < |words| ==> |words[k]| > 0
    decreases |words|
  {
    if words == [] then s else DeleteWords(DeleteWord(s, words[0], 0), words[1..])
  }

  /** `re.sub(r"\s+", " ", s)`: every run of white space becomes one space. */
  function CollapseSpaces(s: string): string
  {
    if s == [] then []
    else if IsSpace(s[0]) && |s| > 1 && IsSpace(s[1]) then CollapseSpaces(s[1..])
    else if IsSpace(s[0]) then " " + CollapseSpaces(s[1..])
    else [s[0]] + CollapseSpaces(s[1..])
  }

  /** Upper-cases the first character when it is a lower-case letter. */
  function CapitalizeFirst(s: string): string
  {
    if s != [] && IsLower(s[0]) then [ToUpper(s[0])] + s[1..] else s
  }

  predicate EndsTerminal(s: string)
  {
    s != [] && s[|s| - 1] in ['.', '!', '?']
  }

  /** Adds a full stop to a non-empty text that does not already end in `.`, `!` or `?`. */
  function CloseSentence(s: string): string
  {
    if s != [] && !EndsTerminal(s) then s + "." else s
  }

  /** The text after the character and word passes, tidied up. */
  function Tidy(s: string): string
  {
    CloseSentence(CapitalizeFirst(Strip(CollapseSpaces(s))))
  }

  /** `sanitize_prompt(prompt)`. */
  function Sanitize(prompt: string): string
  {
    if prompt == "" then SANITIZE_FALLBACK
    else Tidy(DeleteWords(MaskChars(prompt), PROBLEMATIC_WORDS))
  }

  // ---------------------------------------------------------------------
  // What the output looks like.
  // ---------------------------------------------------------------------

  /** No white space other than single blanks, and no two of them in a row. */
  predicate SingleSpaced(s: string)
  {
    forall i {:trigger s[i]} :: 0 <= i < |s| ==> IsSpace(s[i]) ==> s[i] == ' ' && (i + 1 < |s| ==> !IsSpace(s[i + 1]))
  }

  /** The shape every non-fallback output has. */
  predicate WellFormedOutput(s: string)
  {
    NoProblematicChars(s) && SingleSpaced(s)
    && (s == [] || (!IsSpace(s[0]) && !IsSpace(s[|s| - 1]) && !IsLower(s[0]) && EndsTerminal(s)))
  }

  /** Deleting a word only drops characters, in order. */
  lemma {:induction false} DeleteWordKeepsClean(s: string, w: string, i: nat)
    requires |w| > 0 && i <= |s|
    requires NoProblematicChars(s)
    ensures NoProblematicChars(DeleteWord(s, w, i))
    decreases |s| - i
  {
    if i + |w| > |s| {
    } else if WholeWordAt(s, i, w) {
      DeleteWordKeepsClean(s, w, i + |w|);
    } else {
      DeleteWordKeepsClean(s, w, i + 1);
    }
  }

  lemma {:induction false} DeleteWordsKeepsClean(s: string, words: seq<string>)
    requires forall k :: 0 <= k < |words| ==> |words[k]| > 0
    requires NoProblematicChars(s)
    ensures NoProblematicChars(DeleteWords(s, words))
    decreases |words|
  {
    if words != [] {
      DeleteWordKeepsClean(s, words[0], 0);
      DeleteWordsKeepsClean(DeleteWord(s, words[0], 0), words[1..]);
    }
  }

  /** Collapsing keeps the text empty or not, and keeps whether it starts with white space. */
  lemma {:induction false} CollapseSpacesHead(s: string)
    ensures CollapseSpaces(s) == [] <==> s == []
    ensures s != [] ==> (IsSpace(CollapseSpaces(s)[0]) <==> IsSpace(s[0]))
  {
    if s != [] && IsSpace(s[0]) && |s| > 1 && IsSpace(s[1]) {
      CollapseSpacesHead(s[1..]);
    }
  }

  /** Putting a character in front of a single-spaced text. */
  lemma ConsSingleSpaced(x: char, t: string)
    requires SingleSpaced(t)
    requires IsSpace(x) ==> x == ' ' && (t == [] || !IsSpace(t[0]))
    ensures SingleSpaced([x] + t)
  {
    var u := [x] + t;
    forall i | 0 <= i < |u|
      ensures IsSpace(u[i]) ==> u[i] == ' ' && (i + 1 < |u| ==> !IsSpace(u[i + 1]))
    {
      if i == 0 {
        if |u| > 1 {
          assert u[1] == t[0];
        }
      } else {
        assert u[i] == t[i - 1];
        if i + 1 < |u| {
          assert u[i + 1] == t[i];
        }
      }
    }
  }

  /** Collapsing leaves single blanks only. */
  lemma {:induction false} CollapseSpacesSingle(s: string)
    ensures SingleSpaced(CollapseSpaces(s))
  {
    if s != [] {
      CollapseSpacesSingle(s[1..]);
      CollapseSpacesHead(s[1..]);
      if IsSpace(s[0]) && |s| > 1 && IsSpace(s[1]) {
      } else if IsSpace(s[0]) {
        ConsSingleSpaced(' ', CollapseSpaces(s[1..]));
      } else {
        ConsSingleSpaced(s[0], CollapseSpaces(s[1..]));
      }
    }
  }

  /** Collapsing adds no character other than a blank. */
  lemma {:induction false} CollapseSpacesClean(s: string)
    requires NoProblematicChars(s)
    ensures NoProblematicChars(CollapseSpaces(s))
  {
    if s != [] {
      CollapseSpacesClean(s[1..]);
    }
  }

  /** A slice of a single-spaced text free of problematic characters is both. */
  lemma SliceSingleSpaced(s: string, lo: nat, hi: nat)
    requires lo <= hi <= |s| && SingleSpaced(s) && NoProblematicChars(s)
    ensures SingleSpaced(s[lo..hi]) && NoProblematicChars(s[lo..hi])
  {
    var t := s[lo..hi];
    forall i | 0 <= i < |t|
      ensures t[i] !in PROBLEMATIC_CHARS
      ensures IsSpace(t[i]) ==> t[i] == ' ' && (i + 1 < |t| ==> !IsSpace(t[i + 1]))
    {
      assert t[i] == s[lo + i];
      if IsSpace(t[i]) && i + 1 < |t| {
        assert t[i + 1] == s[lo + i + 1];
        assert !IsSpace(s[lo + i + 1]);
      }
    }
  }

  /** Stripping a single-spaced text keeps it single-spaced. */
  lemma StripSingleSpaced(s: string)
    requires SingleSpaced(s) && NoProblematicChars(s)
    ensures SingleSpaced(Strip(s)) && NoProblematicChars(Strip(s))
    ensures Strip(s) == [] || (!IsSpace(Strip(s)[0]) && !IsSpace(Strip(s)[|Strip(s)| - 1]))
  {
    var lo, hi := StripIsSlice(s);
    SliceSingleSpaced(s, lo, hi);
  }

  /** Capitalising keeps the shape and leaves no lower-case letter in front. */
  lemma CapitalizeShape(t: string)
    requires SingleSpaced(t) && NoProblematicChars(t)
    requires t == [] || (!IsSpace(t[0]) && !IsSpace(t[|t| - 1]))
    ensures var u := CapitalizeFirst(t);
      SingleSpaced(u) && NoProblematicChars(u)
      && (u == [] || (!IsSpace(u[0]) && !IsSpace(u[|u| - 1]) && !IsLower(u[0])))
  {
    if t != [] && IsLower(t[0]) {
      SliceSingleSpaced(t, 1, |t|);
      ConsSingleSpaced(ToUpper(t[0]), t[1..]);
      var u := CapitalizeFirst(t);
      assert u[|u| - 1] == t[|t| - 1] || |t| == 1;
    }
  }

  /** Closing the sentence keeps the shape and ends it in `.`, `!` or `?`. */
  lemma CloseShape(u: string)
    requires SingleSpaced(u) && NoProblematicChars(u)
    requires u == [] || (!IsSpace(u[0]) && !IsSpace(u[|u| - 1]) && !IsLower(u[0]))
    ensures WellFormedOutput(CloseSentence(u))
  {
    if u != [] && !EndsTerminal(u) {
      var v := u + ".";
      forall i | 0 <= i < |v|
        ensures v[i] !in PROBLEMATIC_CHARS
        ensures IsSpace(v[i]) ==> v[i] == ' ' && (i + 1 < |v| ==> !IsSpace(v[i + 1]))
      {
        if i < |u| {
          assert v[i] == u[i];
          if IsSpace(v[i]) && i + 1 < |u| {
            assert v[i + 1] == u[i + 1];
          }
        }
      }
      assert v[0] == u[0] && v[|v| - 1] == '.';
      assert CloseSentence(u) == v;
    }
  }

  /** The tidy-up stage yields the promised shape from any text free of problematic characters. */
  lemma TidyShape(s: string)
    requires NoProblematicChars(s)
    ensures WellFormedOutput(Tidy(s))
  {
    CollapseSpacesSingle(s);
    CollapseSpacesClean(s);
    StripSingleSpaced(CollapseSpaces(s));
    CapitalizeShape(Strip(CollapseSpaces(s)));
    CloseShape(CapitalizeFirst(Strip(CollapseSpaces(s))));
  }

  /** Every output of the sanitiser for a non-empty prompt: no problematic
      character, no white space at either end, no white space other than
      single blanks, and, unless empty, a first character that is not a
      lower-case letter and a closing `.`, `!` or `?`. */
  lemma SanitizeOutputShape(prompt: string)
    requires prompt != ""
    ensures WellFormedOutput(Sanitize(prompt))
  {
    var masked := MaskChars(prompt);
    DeleteWordsKeepsClean(masked, PROBLEMATIC_WORDS);
    TidyShape(DeleteWords(masked, PROBLEMATIC_WORDS));
  }

  /** The fallback holds no problematic character either. */
  lemma FallbackClean()
    ensures NoProblematicChars(SANITIZE_FALLBACK)
  {
    CleanConcat("Ambient atmospheric music ", "with gentle textures and flowing melodies");
  }

  // ---------------------------------------------------------------------
  // What the word pass deletes.
  // ---------------------------------------------------------------------

  /** With no whole-word match from `i` on, the scan keeps the rest of the text. */
  lemma {:induction false} DeleteWordNoMatch(s: string, w: string, i: nat)
    requires |w| > 0 && i <= |s|
    requires forall k :: i <= k ==> !WholeWordAt(s, k, w)
    ensures DeleteWord(s, w, i) == s[i..]
    decreases |s| - i
  {
    if i + |w| <= |s| {
      DeleteWordNoMatch(s, w, i + 1);
      assert s[i..] == [s[i]] + s[i + 1..];
    }
  }

  /** One step of the scan at a position where the word does not stand. */
  lemma DeleteWordSkips(s: string, w: string, i: nat)
    requires |w| > 0 && i + |w| <= |s| && !WholeWordAt(s, i, w)
    ensures DeleteWord(s, w, i) == [s[i]] + DeleteWord(s, w, i + 1)
  {
  }

  /** One step of the scan at a position where the word stands. */
  lemma DeleteWordDrops(s: string, w: string, i: nat)
    requires |w| > 0 && WholeWordAt(s, i, w)
    ensures DeleteWord(s, w, i) == DeleteWord(s, w, i + |w|)
  {
  }

  /** Putting `s[i]` in front of the slice that follows it. */
  lemma ConsSlice(s: string, i: nat, j: nat, rest: string)
    requires i < j <= |s|
    ensures [s[i]] + (s[i + 1..j] + rest) == s[i..j] + rest
  {
    assert s[i..j] == [s[i]] + s[i + 1..j];
  }

  /** One copying step of the scan, given what the rest of the scan copies. */
  lemma DeleteWordCopiesOne(s: string, w: string, i: nat, j: nat)
    requires |w| > 0 && i < j && j + |w| <= |s| && !WholeWordAt(s, i, w)
    requires DeleteWord(s, w, i + 1) == s[i + 1..j] + DeleteWord(s, w, j)
    ensures DeleteWord(s, w, i) == s[i..j] + DeleteWord(s, w, j)
  {
    DeleteWordSkips(s, w, i);
    ConsSlice(s, i, j, DeleteWord(s, w, j));
  }

  /** The scan copies every position before `j` where the word does not stand. */
  lemma {:induction false} DeleteWordCopies(s: string, w: string, i: nat, j: nat)
    requires |w| > 0 && i <= j && j + |w| <= |s|
    requires forall k :: i <= k < j ==> !WholeWordAt(s, k, w)
    ensures DeleteWord(s, w, i) == s[i..j] + DeleteWord(s, w, j)
    decreases j - i
  {
    if i < j {
      DeleteWordCopies(s, w, i + 1, j);
      DeleteWordCopiesOne(s, w, i, j);
    } else {
      assert s[i..j] == [];
    }
  }

  /** The scan keeps the text before the leftmost whole-word match, drops the
      match, and goes on after it. */
  lemma DeleteWordFirstMatch(s: string, w: string, i: nat, j: nat)
    requires |w| > 0 && i <= j && WholeWordAt(s, j, w)
    requires forall k :: i <= k < j ==> !WholeWordAt(s, k, w)
    ensures DeleteWord(s, w, i) == s[i..j] + DeleteWord(s, w, j + |w|)
  {
    DeleteWordCopies(s, w, i, j);
    DeleteWordDrops(s, w, j);
  }

  /** The word's first letter, case ignored, occurs nowhere in the text where the word would still fit. */
  predicate NeverStarts(s: string, w: string)
  {
    |w| > 0 && (|w| > |s| || ToLower(w[0]) !in Lower(s[..|s| - |w| + 1]))
  }

  /** A word that never starts a long enough stretch of the text is never matched. */
  /** `w` stands as a whole word nowhere in `s`. */
  predicate Unmatched(s: string, w: string)
  {
    forall k | 0 <= k <= |s| - |w| :: !WholeWordAt(s, k, w)
  }

  /** A word that never starts a long enough stretch of the text never stands in it. */
  lemma NeverStartsUnmatched(s: string, w: string)
    requires NeverStarts(s, w)
    ensures Unmatched(s, w)
  {
    forall k | 0 <= k
      ensures !WholeWordAt(s, k, w)
    {
      if k + |w| <= |s| {
        assert Lower(s[k..k + |w|])[0] == ToLower(s[k]);
        assert Lower(s[..|s| - |w| + 1])[k] == ToLower(s[k]);
        assert Lower(w)[0] == ToLower(w[0]);
      }
    }
  }

  /** A word that never starts a long enough stretch of the text is never matched. */
  lemma FirstLetterAbsent(s: string, w: string)
    requires NeverStarts(s, w)
    ensures DeleteWord(s, w, 0) == s
  {
    NeverStartsUnmatched(s, w);
    DeleteWordNoMatch(s, w, 0);
  }

  lemma {:induction false} FirstLettersAbsent(s: string, words: seq<string>)
    requires forall j :: 0 <= j < |words| ==> |words[j]| > 0 && NeverStarts(s, words[j])
    ensures DeleteWords(s, words) == s
  {
    if words != [] {
      FirstLetterAbsent(s, words[0]);
      FirstLettersAbsent(s, words[1..]);
    }
  }

  /** "Copyright" stands as a whole word at index 5 of the example, and nowhere before. */
  lemma CopyrightFoundAtFive()
    ensures WholeWordAt("calm Copyright music", 5, "copyright")
    ensures forall k :: 0 <= k < 5 ==> !WholeWordAt("calm Copyright music", k, "copyright")
  {
    var s := "calm Copyright music";
    assert s[5..14] == "Copyright";
    assert Lower("Copyright") == "copyright";
    assert !IsWordChar(s[4]) && IsWordChar(s[5]) && IsWordChar(s[13]) && !IsWordChar(s[14]);
    forall k | 0 <= k < 5
      ensures !WholeWordAt(s, k, "copyright")
    {
      if k == 0 {
        assert Lower(s[0..9])[1] == 'a';
      } else if k < 4 {
        assert IsWordChar(s[k - 1]) && IsWordChar(s[k]);
      } else {
        assert Lower(s[4..13])[0] == ' ';
      }
    }
  }

  lemma CopyrightDeleted()
    ensures DeleteWord("calm Copyright music", "copyright", 0) == "calm  music"
  {
    var s := "calm Copyright music";
    CopyrightFoundAtFive();
    DeleteWordFirstMatch(s, "copyright", 0, 5);
    assert s[0..5] == "calm ";
    assert DeleteWord(s, "copyright", 14) == s[14..] == " music";
  }

  /** None of the other problematic words occurs in what is left. */
  lemma OtherWordsAbsent()
    ensures DeleteWords("calm  music", PROBLEMATIC_WORDS[1..]) == "calm  music"
  {
    var t, rest := "calm  music", PROBLEMATIC_WORDS[1..];
    assert Lower(t[..6]) == "calm  ";
    assert forall j :: 0 <= j < |rest| ==> |rest[j]| > 0 && NeverStarts(t, rest[j]);
    FirstLettersAbsent(t, rest);
  }

  /** The word pass deletes "Copyright" (any case) and nothing else from the example. */
  lemma WordPassDeletesCopyright()
    ensures DeleteWords("calm Copyright music", PROBLEMATIC_WORDS) == "calm  music"
  {
    CopyrightDeleted();
    OtherWordsAbsent();
    assert PROBLEMATIC_WORDS[0] == "copyright";
  }

  /** A character other than white space heads its own collapse. */
  lemma CollapseKeepsHead(c: char, s: string)
    requires !IsSpace(c)
    ensures CollapseSpaces([c] + s) == [c] + CollapseSpaces(s)
  {
    assert ([c] + s)[1..] == s;
  }

  /** A stretch without white space heads its own collapse. */
  lemma {:induction false} CollapseKeepsWord(a: string, t: string)
    requires forall k :: 0 <= k < |a| ==> !IsSpace(a[k])
    ensures CollapseSpaces(a + t) == a + CollapseSpaces(t)
  {
    if a != [] {
      CollapseKeepsWord(a[1..], t);
      CollapseKeepsHead(a[0], a[1..] + t);
      assert a + t == [a[0]] + (a[1..] + t);
      assert [a[0]] + (a[1..] + CollapseSpaces(t)) == a + CollapseSpaces(t);
    } else {
      assert a + t == t;
    }
  }

  /** Two blanks before a stretch without white space collapse to one. */
  lemma CollapseDoubleGap(t: string)
    requires forall k :: 0 <= k < |t| ==> !IsSpace(t[k])
    ensures CollapseSpaces("  " + t) == " " + t
  {
    CollapseNoSpace(t);
    assert ("  " + t)[1..] == " " + t;
    assert (" " + t)[1..] == t;
  }

  lemma CollapseCalmMusic()
    ensures CollapseSpaces("calm  music") == "calm music"
  {
    assert CollapseSpaces("  music") == " music" by {
      CollapseDoubleGap("music");
    }
    assert CollapseSpaces("calm" + "  music") == "calm" + " music" by {
      CollapseKeepsWord("calm", "  music");
    }
    assert "calm" + "  music" == "calm  music";
    assert "calm" + " music" == "calm music";
  }

  lemma CapitalizeCalmMusic()
    ensures CapitalizeFirst("calm music") == "Calm music"
  {
    var spaced := "calm music";
    assert IsLower(spaced[0]) && ToUpper(spaced[0]) == 'C';
    assert spaced[1..] == "alm music";
  }

  lemma CloseCalmMusic()
    ensures CloseSentence("Calm music") == "Calm music."
  {
    var capped := "Calm music";
    assert capped[|capped| - 1] == 'c';
  }

  lemma TidyCalmMusic()
    ensures Tidy("calm  music") == "Calm music."
  {
    CollapseCalmMusic();
    StripUnchanged("calm music");
    CapitalizeCalmMusic();
    CloseCalmMusic();
  }

  /** A problematic word standing as a whole word, in any letter case, is
      deleted, and the white space it leaves is collapsed. */
  lemma SanitizeDeletesWholeWord()
    ensures Sanitize("calm Copyright music") == "Calm music."
  {
    assert MaskChars("calm Copyright music") == "calm Copyright music";
    WordPassDeletesCopyright();
    TidyCalmMusic();
  }

  /** A text made only of white space collapses to one blank, or to nothing. */
  lemma {:induction false} CollapseAllSpace(s: string)
    requires AllSpace(s)
    ensures CollapseSpaces(s) == if s == [] then [] else " "
  {
    if |s| > 1 {
      CollapseAllSpace(s[1..]);
    }
  }

  /** Deleting from a text with no word character finds no match and changes nothing. */
  lemma {:induction false} DeleteWordNoWordChars(s: string, w: string, i: nat)
    requires |w| > 0 && i <= |s| && IsWordChar(w[0])
    requires forall k :: 0 <= k < |s| ==> !IsWordChar(s[k])
    ensures DeleteWord(s, w, i) == s[i..]
    decreases |s| - i
  {
    if i + |w| <= |s| {
      assert Lower(s[i..i + |w|])[0] == ToLower(s[i]);
      DeleteWordNoWordChars(s, w, i + 1);
      assert s[i..] == [s[i]] + s[i + 1..];
    }
  }

  lemma {:induction false} DeleteWordsNoWordChars(s: string, words: seq<string>)
    requires forall k :: 0 <= k < |words| ==> |words[k]| > 0 && IsWordChar(words[k][0])
    requires forall k :: 0 <= k < |s| ==> !IsWordChar(s[k])
    ensures DeleteWords(s, words) == s
  {
    if words != [] {
      DeleteWordNoWordChars(s, words[0], 0);
      DeleteWordsNoWordChars(s, words[1..]);
    }
  }

  /** A non-empty prompt made only of problematic characters and white
      space sanitises to the empty string, not to the fallback. */
  lemma OnlyNoiseSanitizesToEmpty(prompt: string)
    requires prompt != ""
    requires forall i :: 0 <= i < |prompt| ==> prompt[i] in PROBLEMATIC_CHARS || IsSpace(prompt[i])
    ensures Sanitize(prompt) == ""
  {
    var masked := MaskChars(prompt);
    assert AllSpace(masked);
    DeleteWordsNoWordChars(masked, PROBLEMATIC_WORDS);
    CollapseAllSpace(masked);
    assert Strip(CollapseSpaces(masked)) == [];
  }

  /** In a text of word characters only, the sole boundaries are its two
      ends, so a word is deleted only when it is the whole text. */
  lemma {:induction false} DeleteWordFromOneWord(s: string, w: string, i: nat)
    requires |w| > 0 && i <= |s| && Lower(s) != Lower(w)
    requires forall k :: 0 <= k < |s| ==> IsWordChar(s[k])
    ensures DeleteWord(s, w, i) == s[i..]
    decreases |s| - i
  {
    if i + |w| <= |s| {
      if i > 0 {
        assert IsWordChar(s[i - 1]) && IsWordChar(s[i]);
      } else if |w| < |s| {
        assert IsWordChar(s[|w| - 1]) && IsWordChar(s[|w|]);
      } else {
        assert s[0..|w|] == s;
      }
      assert !WholeWordAt(s, i, w);
      DeleteWordFromOneWord(s, w, i + 1);
      assert s[i..] == [s[i]] + s[i + 1..];
    }
  }

  lemma {:induction false} DeleteWordsFromOneWord(s: string, words: seq<string>)
    requires forall k :: 0 <= k < |words| ==> |words[k]| > 0 && Lower(s) != Lower(words[k])
    requires forall k :: 0 <= k < |s| ==> IsWordChar(s[k])
    ensures DeleteWords(s, words) == s
    decreases |words|
  {
    if words != [] {
      DeleteWordFromOneWord(s, words[0], 0);
      DeleteWordsFromOneWord(s, words[1..]);
    }
  }

  /** No problematic word is deleted from "brands". */
  lemma BrandsKeptByWordPass()
    ensures DeleteWords("brands", PROBLEMATIC_WORDS) == "brands"
  {
    var s := "brands";
    assert Lower(s)[0] == 'b';
    assert forall k :: 0 <= k < |PROBLEMATIC_WORDS| ==> Lower(s) != Lower(PROBLEMATIC_WORDS[k]);
    DeleteWordsFromOneWord(s, PROBLEMATIC_WORDS);
  }

  /** Collapsing changes nothing in a text without white space. */
  lemma {:induction false} CollapseNoSpace(s: string)
    requires forall k :: 0 <= k < |s| ==> !IsSpace(s[k])
    ensures CollapseSpaces(s) == s
  {
    if s != [] {
      CollapseNoSpace(s[1..]);
      assert s == [s[0]] + s[1..];
    }
  }

  /** "brand" occurs at the start of the lower-cased `s`. */
  lemma BrandAtStart(s: string)
    requires |s| >= 5 && ToLower(s[0]) == 'b' && s[1] == 'r' && s[2] == 'a' && s[3] == 'n' && s[4] == 'd'
    ensures Contains(Lower(s), "brand")
  {
    var l := Lower(s);
    assert l[0] == 'b' && l[1] == 'r' && l[2] == 'a' && l[3] == 'n' && l[4] == 'd';
    assert l[..5] == "brand";
    assert StartsAt(l, 0, "brand");
  }

  lemma CapitalizeBrands()
    ensures CapitalizeFirst("brands") == "Brands"
  {
    var word := "brands";
    assert IsLower(word[0]) && ToUpper(word[0]) == 'B';
    assert word[1..] == "rands";
  }

  lemma CloseBrands()
    ensures CloseSentence("Brands") == "Brands."
  {
    var capped := "Brands";
    assert capped[|capped| - 1] == 's';
  }

  lemma TidyBrands()
    ensures Tidy("brands") == "Brands."
  {
    CollapseNoSpace("brands");
    StripUnchanged("brands");
    CapitalizeBrands();
    CloseBrands();
  }

  lemma SanitizeBrands()
    ensures Sanitize("brands") == "Brands."
  {
    assert MaskChars("brands") == "brands";
    BrandsKeptByWordPass();
    TidyBrands();
  }

  /** Detection and removal disagree: "brands" is reported as containing
      "brand" (a plain substring test) but survives sanitising, because the
      deletion needs a word boundary after the word. */
  lemma BannedWordSurvivesSanitize()
    ensures Contains(Lower("brands"), "brand")
    ensures Contains(Lower(Sanitize("brands")), "brand")
  {
    var detected, kept := "brands", "Brands.";
    assert detected[0] == 'b' && detected[1] == 'r' && detected[2] == 'a' && detected[3] == 'n' && detected[4] == 'd';
    BrandAtStart(detected);
    assert kept[0] == 'B' && kept[1] == 'r' && kept[2] == 'a' && kept[3] == 'n' && kept[4] == 'd';
    BrandAtStart(kept);
    SanitizeBrands();
  }

  // ---------------------------------------------------------------------
  // Sanitising twice. The source's sanitiser is not idempotent: a prompt
  // that sanitises to "" gets the fallback on a second pass, and because
  // white space is collapsed only after the word pass, the collapse can
  // assemble "ripped off" for the next pass to delete. Where no
  // problematic word stands in the output, a second pass changes nothing.
  // ---------------------------------------------------------------------

  /** With no word of the list standing anywhere, the word pass changes nothing. */
  lemma {:induction false} DeleteWordsUnmatched(s: string, words: seq<string>)
    requires forall j :: 0 <= j < |words| ==> |words[j]| > 0 && Unmatched(s, words[j])
    ensures DeleteWords(s, words) == s
  {
    if words != [] {
      DeleteWordNoMatch(s, words[0], 0);
      DeleteWordsUnmatched(s, words[1..]);
    }
  }

  /** When only the last word of the list can stand, the pass is that word's deletion. */
  lemma {:induction false} DeleteWordsLastOnly(s: string, words: seq<string>)
    requires |words| > 0 && forall j :: 0 <= j < |words| ==> |words[j]| > 0
    requires forall j :: 0 <= j < |words| - 1 ==> Unmatched(s, words[j])
    ensures DeleteWords(s, words) == DeleteWord(s, words[|words| - 1], 0)
  {
    if |words| > 1 {
      DeleteWordNoMatch(s, words[0], 0);
      DeleteWordsLastOnly(s, words[1..]);
    }
  }

  /** Collapsing changes nothing in a single-spaced text. */
  lemma {:induction false} CollapseSingleSpaced(s: string)
    requires SingleSpaced(s)
    ensures CollapseSpaces(s) == s
  {
    if s != [] {
      var t := s[1..];
      forall i | 0 <= i < |t|
        ensures IsSpace(t[i]) ==> t[i] == ' ' && (i + 1 < |t| ==> !IsSpace(t[i + 1]))
      {
        assert t[i] == s[i + 1];
        if i + 1 < |t| {
          assert t[i + 1] == s[i + 2];
        }
      }
      CollapseSingleSpaced(t);
      assert s == [s[0]] + t;
    }
  }

  /** The sanitiser leaves alone every non-empty text of its own output shape
      in which no problematic word stands as a whole word. */
  lemma SanitizeFixesOutput(s: string)
    requires s != "" && WellFormedOutput(s)
    requires forall j :: 0 <= j < |PROBLEMATIC_WORDS| ==> Unmatched(s, PROBLEMATIC_WORDS[j])
    ensures Sanitize(s) == s
  {
    assert MaskChars(s) == s;
    DeleteWordsUnmatched(s, PROBLEMATIC_WORDS);
    CollapseSingleSpaced(s);
    StripUnchanged(s);
  }

  /** Sanitising a second time changes nothing when the first result is not
      empty and no problematic word stands in it as a whole word. */
  lemma SanitizeTwiceWithoutWords(prompt: string)
    requires prompt != "" && Sanitize(prompt) != ""
    requires forall j :: 0 <= j < |PROBLEMATIC_WORDS| ==> Unmatched(Sanitize(prompt), PROBLEMATIC_WORDS[j])
    ensures Sanitize(Sanitize(prompt)) == Sanitize(prompt)
  {
    SanitizeOutputShape(prompt);
    SanitizeFixesOutput(Sanitize(prompt));
  }

  /** The empty-prompt fallback has no closing mark, so it is not of the output shape. */
  lemma FallbackUnclosed()
    ensures !EndsTerminal(SANITIZE_FALLBACK)
  {
    assert SANITIZE_FALLBACK[|SANITIZE_FALLBACK| - 1] == 's';
  }

  /** A prompt of problematic characters sanitises to "", and a second pass
      turns that into the fallback. */
  lemma NoiseThenFallback()
    ensures Sanitize("<") == ""
    ensures Sanitize(Sanitize("<")) == SANITIZE_FALLBACK
  {
    var p := "<";
    assert p[0] in PROBLEMATIC_CHARS;
    OnlyNoiseSanitizesToEmpty(p);
  }

  /** In an eleven-character text that reads "ripped " in its first seven
      places, none of the first ten problematic words can stand. */
  lemma OnlyRippedOffCanStand(s: string)
    requires |s| == 11 && Lower(s[..7]) == "ripped "
    ensures forall j :: 0 <= j < |PROBLEMATIC_WORDS| - 1 ==> Unmatched(s, PROBLEMATIC_WORDS[j])
  {
    var l := Lower(s[..7]);
    assert forall i :: 0 <= i < 7 ==> ToLower(s[i]) == l[i];
    assert Lower(s[..1]) == l[..1] && Lower(s[..3]) == l[..3] && Lower(s[..4]) == l[..4] && Lower(s[..6]) == l[..6];
    NeverStartsUnmatched(s, "copyright");
    NeverStartsUnmatched(s, "trademark");
    NeverStartsUnmatched(s, "brand");
    NeverStartsUnmatched(s, "explicit");
    NeverStartsUnmatched(s, "offensive");
    NeverStartsUnmatched(s, "inappropriate");
    NeverStartsUnmatched(s, "unauthorized");
    NeverStartsUnmatched(s, "stolen");
    NeverStartsUnmatched(s, "plagiarized");
    forall k | 0 <= k
      ensures !WholeWordAt(s, k, "illegal")
    {
      if k + 7 <= |s| {
        assert Lower(s[k..k + 7])[0] == ToLower(s[k]);
        assert Lower("illegal")[0] == 'i';
        if k == 1 {
          assert IsWordChar(s[0]) && IsWordChar(s[1]);
        }
      }
    }
  }

  /** The two blanks keep "ripped off" from standing in "ripped  off". */
  lemma RippedOffSplit()
    ensures Unmatched("ripped  off", "ripped off")
  {
    var s, w := "ripped  off", "ripped off";
    forall k | 0 <= k
      ensures !WholeWordAt(s, k, w)
    {
      if k == 0 {
        assert Lower(s[0..10])[7] == ' ' && Lower(w)[7] == 'o';
      } else if k == 1 {
        assert Lower(s[1..11])[0] == 'i' && Lower(w)[0] == 'r';
      }
    }
  }

  lemma CollapseRippedOff()
    ensures CollapseSpaces("ripped  off") == "ripped off"
  {
    assert CollapseSpaces("  off") == " off" by {
      CollapseDoubleGap("off");
    }
    assert CollapseSpaces("ripped" + "  off") == "ripped" + " off" by {
      CollapseKeepsWord("ripped", "  off");
    }
    assert "ripped" + "  off" == "ripped  off";
    assert "ripped" + " off" == "ripped off";
  }

  lemma CapitalizeRippedOff()
    ensures CapitalizeFirst("ripped off") == "Ripped off"
  {
    var spaced := "ripped off";
    assert IsLower(spaced[0]) && ToUpper(spaced[0]) == 'R';
    assert spaced[1..] == "ipped off";
  }

  lemma CloseRippedOff()
    ensures CloseSentence("Ripped off") == "Ripped off."
  {
    var capped := "Ripped off";
    assert capped[|capped| - 1] == 'f';
  }

  lemma TidyRippedOff()
    ensures Tidy("ripped  off") == "Ripped off."
  {
    CollapseRippedOff();
    StripUnchanged("ripped off");
    CapitalizeRippedOff();
    CloseRippedOff();
  }

  /** "ripped  off" keeps its words through the word pass and is collapsed to "Ripped off.". */
  lemma SanitizeRippedOffOnce()
    ensures Sanitize("ripped  off") == "Ripped off."
  {
    var s := "ripped  off";
    assert MaskChars(s) == s;
    assert s[..7] == "ripped ";
    OnlyRippedOffCanStand(s);
    RippedOffSplit();
    DeleteWordsUnmatched(s, PROBLEMATIC_WORDS);
    TidyRippedOff();
  }

  /** In "Ripped off." the phrase stands as a whole word, and only "." is left of it. */
  lemma RippedOffDeleted()
    ensures DeleteWords("Ripped off.", PROBLEMATIC_WORDS) == "."
  {
    var s, w := "Ripped off.", "ripped off";
    assert Lower(s[..7]) == "ripped ";
    OnlyRippedOffCanStand(s);
    assert Lower(s[0..10]) == w && Lower(w) == w;
    assert IsWordChar(s[0]) && IsWordChar(s[9]) && !IsWordChar(s[10]);
    assert WholeWordAt(s, 0, w);
    DeleteWordsLastOnly(s, PROBLEMATIC_WORDS);
    DeleteWordDrops(s, w, 0);
    assert s[10..] == ".";
  }

  lemma TidyFullStop()
    ensures Tidy(".") == "."
  {
    var stop := ".";
    assert CollapseSpaces(stop) == stop by {
      CollapseNoSpace(stop);
    }
    assert Strip(stop) == stop by {
      StripUnchanged(stop);
    }
    assert !IsLower(stop[0]) && EndsTerminal(stop);
  }

  lemma SanitizeRippedOffClosed()
    ensures Sanitize("Ripped off.") == "."
  {
    var t := "Ripped off.";
    assert MaskChars(t) == t;
    RippedOffDeleted();
    TidyFullStop();
  }

  /** Sanitising "ripped  off" twice does not give what one pass gives: the
      first pass collapses the two blanks, and the second then deletes
      "ripped off" as a whole word. */
  lemma SanitizeTwiceDeletesMore()
    ensures Sanitize("ripped  off") == "Ripped off."
    ensures Sanitize(Sanitize("ripped  off")) == "."
  {
    SanitizeRippedOffOnce();
    SanitizeRippedOffClosed();
  }

  // ---------------------------------------------------------------------
  // The source's loops.
  // ---------------------------------------------------------------------

  /** The character loop: one `replace` per problematic character. */
  method MaskProblematicChars(prompt: string) returns (masked: string)
    ensures masked == MaskChars(prompt)
  {
    masked := prompt;
    for k := 0 to |PROBLEMATIC_CHARS|
      invariant |masked| == |prompt|
      invariant forall i :: 0 <= i < |prompt| ==>
                  masked[i] == if prompt[i] in PROBLEMATIC_CHARS[..k] then ' ' else prompt[i]
    {
      masked := ReplaceChar(masked, PROBLEMATIC_CHARS[k], ' ');
    }
    assert PROBLEMATIC_CHARS[..|PROBLEMATIC_CHARS|] == PROBLEMATIC_CHARS;
  }

  /** The word loop deletes the word at `k` before the ones after it. */
  lemma DeleteWordsFirst(s: string, words: seq<string>, k: nat)
    requires k < |words| && forall j :: 0 <= j < |words| ==> |words[j]| > 0
    ensures DeleteWords(s, words[k..]) == DeleteWords(DeleteWord(s, words[k], 0), words[k + 1..])
  {
    assert words[k..][0] == words[k] && words[k..][1..] == words[k + 1..];
  }

  /** The word loop: one `re.sub` per word of the list, in list order. */
  method DeleteProblematicWords(text: string, words: seq<string>) returns (cleaned: string)
    requires forall j :: 0 <= j < |words| ==> |words[j]| > 0
    ensures cleaned == DeleteWords(text, words)
  {
    cleaned := text;
    for k := 0 to |words|
      invariant DeleteWords(cleaned, words[k..]) == DeleteWords(text, words)
    {
      DeleteWordsFirst(cleaned, words, k);
      cleaned := DeleteWord(cleaned, words[k], 0);
    }
  }

  /** `sanitize_prompt` as the source writes it: the character loop, the
      word loop, then the white-space, capital-letter and full-stop steps. */
  method SanitizePrompt(prompt: string) returns (sanitized: string)
    ensures sanitized == Sanitize(prompt)
  {
    if prompt == "" {
      return SANITIZE_FALLBACK;
    }
    sanitized := MaskProblematicChars(prompt);
    sanitized := DeleteProblematicWords(sanitized, PROBLEMATIC_WORDS);
    sanitized := Strip(CollapseSpaces(sanitized));
    if sanitized != "" && IsLower(sanitized[0]) {
      sanitized := [ToUpper(sanitized[0])] + sanitized[1..];
    }
    if sanitized != "" && !EndsTerminal(sanitized) {
      sanitized := sanitized + ".";
    }
  }
}
