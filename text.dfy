/** ASCII character classes and the handful of Python `str` operations the
    prompt gate and the catalogue search rely on: `lower()`, `upper()` of one
    character, `isspace()`, `strip()`, the `in` substring test and
    `", ".join(...)`, and subsequences (a list with some elements dropped,
    order kept). Only ASCII is modelled: every other character is its own
    lower and upper case and is neither a letter, a digit nor white space. */
module Text {

  predicate IsUpper(c: char) { 'A' <= c <= 'Z' }

  predicate IsLower(c: char) { 'a' <= c <= 'z' }

  predicate IsLetter(c: char) { IsUpper(c) || IsLower(c) }

  predicate IsDigit(c: char) { '0' <= c <= '9' }

  /** The characters a regular-expression `\w` matches, so the ones that decide `\b`. */
  predicate IsWordChar(c: char) { IsLetter(c) || IsDigit(c) || c == '_' }

  /** `c.isspace()`: tab, line feed, vertical tab, form feed, carriage return,
      the four separators 0x1C..0x1F and the space. `\s` matches the same set. */
  predicate IsSpace(c: char) { c == ' ' || '\t' <= c <= '\r' || '\U{1C}' <= c <= '\U{1F}' }

  function ToLower(c: char): (d: char)
    ensures IsUpper(c) ==> IsLower(d) && d as int == c as int + 32
    ensures !IsUpper(c) ==> d == c
  {
    if IsUpper(c) then (c as int + 32) as char else c
  }

  function ToUpper(c: char): (d: char)
    ensures IsLower(c) ==> IsUpper(d) && d as int == c as int - 32
    ensures !IsLower(c) ==> d == c
  {
    if IsLower(c) then (c as int - 32) as char else c
  }

  /** `s.lower()`. */
  function Lower(s: string): (r: string)
    ensures |r| == |s|
    ensures forall i :: 0 <= i < |s| ==> r[i] == ToLower(s[i])
  {
    seq(|s|, i requires 0 <= i < |s| => ToLower(s[i]))
  }

  predicate NoUpper(s: string) { forall i :: 0 <= i < |s| ==> !IsUpper(s[i]) }

  lemma LowerHasNoUpper(s: string)
    ensures NoUpper(Lower(s))
  {
  }

  /** `s.lower().lower() == s.lower()`. */
  lemma LowerIdempotent(s: string)
    ensures Lower(Lower(s)) == Lower(s)
  {
  }

  /** `w` occurs in `s` at index `i`. */
  predicate StartsAt(s: string, i: int, w: string)
  {
    0 <= i && i + |w| <= |s| && s[i..i + |w|] == w
  }

  /** Python's `w in s` on strings. */
  predicate Contains(s: string, w: string)
  {
    exists i | 0 <= i <= |s| - |w| :: StartsAt(s, i, w)
  }

  /** A word holding an upper-case letter never occurs in a lower-cased text. */
  lemma UpperWordNotInLowered(s: string, w: string, k: nat)
    requires k < |w| && IsUpper(w[k])
    ensures !Contains(Lower(s), w)
  {
  }

  predicate AllSpace(s: string) { forall i :: 0 <= i < |s| ==> IsSpace(s[i]) }

  /** `s.lstrip()`. */
  function TrimStart(s: string): (r: string)
    ensures |r| <= |s| && r == s[|s| - |r|..]
    ensures AllSpace(s[..|s| - |r|])
    ensures r == [] || !IsSpace(r[0])
  {
    if s != [] && IsSpace(s[0]) then
      var r := TrimStart(s[1..]);
      assert s[..|s| - |r|] == [s[0]] + s[1..][..|s| - 1 - |r|];
      r
    else s
  }

  /** `s.rstrip()`. */
  function TrimEnd(s: string): (r: string)
    ensures |r| <= |s| && r == s[..|r|]
    ensures AllSpace(s[|r|..])
    ensures r == [] || !IsSpace(r[|r| - 1])
  {
    if s != [] && IsSpace(s[|s| - 1]) then
      var r := TrimEnd(s[..|s| - 1]);
      assert s[|r|..] == s[..|s| - 1][|r|..] + [s[|s| - 1]];
      r
    else s
  }

  /** `s.strip()`: the longest slice of `s` that neither starts nor ends with white space. */
  function Strip(s: string): (r: string)
  {
    TrimEnd(TrimStart(s))
  }

  /** A text that neither starts nor ends with white space is its own strip. */
  lemma StripUnchanged(s: string)
    requires s == [] || (!IsSpace(s[0]) && !IsSpace(s[|s| - 1]))
    ensures Strip(s) == s
  {
    assert TrimStart(s) == s;
  }

  /** Slicing a suffix of `s` again is slicing `s`. */
  lemma SliceOfSuffix(s: string, lo: nat, n: nat)
    requires lo + n <= |s|
    ensures s[lo..][..n] == s[lo..lo + n] && s[lo..][n..] == s[lo + n..]
  {
  }

  /** `Strip` leaves no white space at either end. */
  lemma StripEnds(s: string)
    ensures Strip(s) == [] || (!IsSpace(Strip(s)[0]) && !IsSpace(Strip(s)[|Strip(s)| - 1]))
  {
    var t := TrimStart(s);
    var r := TrimEnd(t);
    if r != [] {
      assert r[0] == t[0];
    }
  }

  /** Trimming the end of a suffix of `s` keeps a slice of `s` and cuts only white space. */
  lemma TrimEndOfSuffix(s: string, lo: nat, t: string)
    requires lo <= |s| && t == s[lo..]
    ensures lo + |TrimEnd(t)| <= |s|
    ensures TrimEnd(t) == s[lo..lo + |TrimEnd(t)|] && AllSpace(s[lo + |TrimEnd(t)|..])
  {
    SliceOfSuffix(s, lo, |TrimEnd(t)|);
  }

  /** `Strip` keeps a slice of its input and cuts only white space. */
  lemma StripIsSlice(s: string) returns (lo: nat, hi: nat)
    ensures lo <= hi <= |s| && Strip(s) == s[lo..hi]
    ensures AllSpace(s[..lo]) && AllSpace(s[hi..])
    ensures Strip(s) == [] || (!IsSpace(Strip(s)[0]) && !IsSpace(Strip(s)[|Strip(s)| - 1]))
  {
    lo := |s| - |TrimStart(s)|;
    hi := lo + |Strip(s)|;
    TrimEndOfSuffix(s, lo, TrimStart(s));
    StripEnds(s);
  }

  // ---------------------------------------------------------------------
  // Subsequences.
  // ---------------------------------------------------------------------

  /** `xs` is `ys` with some elements dropped, order kept. */
  predicate Subsequence<T(==)>(xs: seq<T>, ys: seq<T>)
    decreases |ys|
  {
    xs == [] || (ys != [] && ((xs[0] == ys[0] && Subsequence(xs[1..], ys[1..])) || Subsequence(xs, ys[1..])))
  }

  /** Subsequences can be appended side by side. */
  lemma {:induction false} SubsequenceAppend<T>(xs: seq<T>, ys: seq<T>, xs': seq<T>, ys': seq<T>)
    requires Subsequence(xs, ys) && Subsequence(xs', ys')
    ensures Subsequence(xs + xs', ys + ys')
    decreases |ys|
  {
    if xs == [] {
      SubsequenceOfSuffix(xs', ys', ys);
      assert xs + xs' == xs';
    } else if xs[0] == ys[0] && Subsequence(xs[1..], ys[1..]) {
      SubsequenceAppend(xs[1..], ys[1..], xs', ys');
      assert (xs + xs')[1..] == xs[1..] + xs' && (ys + ys')[1..] == ys[1..] + ys';
    } else {
      SubsequenceAppend(xs, ys[1..], xs', ys');
      assert (ys + ys')[1..] == ys[1..] + ys';
    }
  }

  /** A subsequence of a suffix is a subsequence of the whole. */
  lemma {:induction false} SubsequenceOfSuffix<T>(xs: seq<T>, ys: seq<T>, prefix: seq<T>)
    requires Subsequence(xs, ys)
    ensures Subsequence(xs, prefix + ys)
    decreases |prefix|
  {
    if prefix == [] {
      assert prefix + ys == ys;
    } else {
      SubsequenceOfSuffix(xs, ys, prefix[1..]);
      assert (prefix + ys)[1..] == prefix[1..] + ys;
    }
  }

  /** A prefix is a subsequence. */
  lemma {:induction false} PrefixIsSubsequence<T>(xs: seq<T>, ys: seq<T>)
    requires xs <= ys
    ensures Subsequence(xs, ys)
  {
    if xs != [] {
      PrefixIsSubsequence(xs[1..], ys[1..]);
    }
  }

  /** `sep.join(xs)`. */
  function Join(xs: seq<string>, sep: string): string
  {
    if |xs| == 0 then ""
    else if |xs| == 1 then xs[0]
    else xs[0] + sep + Join(xs[1..], sep)
  }

  /** `sep.join(xs + ys)` splits at the seam. */
  lemma {:induction false} JoinAppend(xs: seq<string>, ys: seq<string>, sep: string)
    requires xs != [] && ys != []
    ensures Join(xs + ys, sep) == Join(xs, sep) + sep + Join(ys, sep)
  {
    if |xs| > 1 {
      JoinAppend(xs[1..], ys, sep);
      assert (xs + ys)[1..] == xs[1..] + ys;
    }
  }

  /** Joining a leading part of a list gives a prefix of joining all of it. */
  lemma JoinPrefix(xs: seq<string>, k: nat, sep: string)
    requires 0 < k <= |xs|
    ensures Join(xs[..k], sep) <= Join(xs, sep)
  {
    if k < |xs| {
      JoinAppend(xs[..k], xs[k..], sep);
      assert xs[..k] + xs[k..] == xs;
    } else {
      assert xs[..k] == xs;
    }
  }

  /** `s.title()`: a letter after a letter becomes lower case, any other letter upper case. */
  function Title(s: string): (r: string)
    ensures |r| == |s|
  {
    seq(|s|, i requires 0 <= i < |s| =>
      if !IsLetter(s[i]) then s[i] else if i > 0 && IsLetter(s[i - 1]) then ToLower(s[i]) else ToUpper(s[i]))
  }

  /** A word of lower-case letters. */
  predicate LowerWord(w: string)
  {
    forall k :: 0 <= k < |w| ==> IsLower(w[k])
  }

  /** The title case of a lower-case word capitalises just its first letter. */
  lemma TitleOfLowerWord(w: string)
    requires w != [] && LowerWord(w)
    ensures IsUpper(Title(w)[0]) && Title(w)[1..] == w[1..]
  {
  }

  /** `s.endswith(t)`. */
  predicate EndsWith(s: string, t: string)
  {
    |t| <= |s| && s[|s| - |t|..] == t
  }

  /** The first `n` elements, as Python's `xs[:n]`. */
  function Take<T>(xs: seq<T>, n: nat): (r: seq<T>)
    ensures |r| <= n && |r| <= |xs| && r == xs[..|r|]
    ensures |xs| <= n ==> r == xs
    ensures |xs| > n ==> r == xs[..n]
  {
    if |xs| <= n then xs else xs[..n]
  }
}
