/** The character prefilter at the start of `clean_text`: three rewrites applied
    in order to the whole document,
      1. `re.sub(r'\d+', '', doc)`     deletes every maximal run of digits,
      2. `re.sub(r'[^\s\w]', '', doc)` deletes every character that is neither
                                       whitespace nor a word character,
      3. `doc.replace('\n', '')`       deletes every newline character.
    The third rewrite removes the real newline character (one code point), not a
    two-character backslash-n sequence. */
module CharacterPrefilter {
  import opened CharClasses

  /** The characters of `s` that satisfy `keep`, in their original order. */
  function Filter(s: string, keep: char -> bool): (r: string)
    ensures |r| <= |s|
    ensures forall i :: 0 <= i < |r| ==> keep(r[i]) && r[i] in s
    ensures forall i :: 0 <= i < |s| && keep(s[i]) ==> s[i] in r
  {
    if s == [] then ""
    else if keep(s[0]) then [s[0]] + Filter(s[1..], keep)
    else Filter(s[1..], keep)
  }

  /** `sub` is obtained from `s` by deleting characters, keeping the order of the rest. */
  ghost predicate IsSubsequence(sub: string, s: string)
    decreases |s|
  {
    || sub == []
    || (s != [] && ((sub[0] == s[0] && IsSubsequence(sub[1..], s[1..])) || IsSubsequence(sub, s[1..])))
  }

  predicate NotDigit(c: char) { !IsDigit(c) }
  predicate SpaceOrWord(c: char) { IsSpace(c) || IsWord(c) }
  predicate NotNewline(c: char) { c != '\n' }

  /** A character that none of the three rewrites deletes. */
  predicate Survives(c: char) { NotDigit(c) && SpaceOrWord(c) && NotNewline(c) }

  /** `s` without its leading run of digits: what one greedy match of `\d+`
      consumes when it starts at the front of `s`. */
  function SkipDigits(s: string): (r: string)
    ensures |r| <= |s| && r == s[|s| - |r|..]
    ensures r == [] || !IsDigit(r[0])
    ensures forall i :: 0 <= i < |s| - |r| ==> IsDigit(s[i])
    ensures s != [] && IsDigit(s[0]) ==> |r| < |s|
  {
    if s != [] && IsDigit(s[0]) then SkipDigits(s[1..]) else s
  }

  /** Rewrite 1: the regular-expression engine scans left to right; at a digit the
      greedy `\d+` consumes the whole run and it is replaced by nothing, any
      other character is copied. */
  function DeleteDigitRuns(s: string): (r: string)
    ensures |r| <= |s|
    ensures forall i :: 0 <= i < |r| ==> !IsDigit(r[i]) && r[i] in s
    ensures forall i :: 0 <= i < |s| && !IsDigit(s[i]) ==> s[i] in r
    decreases |s|
  {
    if s == [] then ""
    else if IsDigit(s[0]) then
      var rest := SkipDigits(s);
      assert forall i :: 0 <= i < |s| && !IsDigit(s[i]) ==> s[i] == rest[i - (|s| - |rest|)];
      DeleteDigitRuns(rest)
    else [s[0]] + DeleteDigitRuns(s[1..])
  }

  /** Rewrite 2: `[^\s\w]` matches one character at a time, and each match is deleted. */
  function DeletePunctuation(s: string): (r: string)
    ensures forall i :: 0 <= i < |r| ==> SpaceOrWord(r[i]) && r[i] in s
    ensures forall i :: 0 <= i < |s| && SpaceOrWord(s[i]) ==> s[i] in r
    ensures |r| <= |s| && IsSubsequence(r, s)
  {
    FilterIsSubsequence(s, SpaceOrWord);
    Filter(s, SpaceOrWord)
  }

  /** Rewrite 3: every occurrence of the one-character string "\n" is deleted. */
  function DeleteNewlines(s: string): (r: string)
    ensures '\n' !in r
    ensures forall i :: 0 <= i < |s| && s[i] != '\n' ==> s[i] in r
    ensures forall i :: 0 <= i < |r| ==> r[i] in s
    ensures |r| <= |s| && IsSubsequence(r, s)
  {
    FilterIsSubsequence(s, NotNewline);
    Filter(s, NotNewline)
  }

  /** The three rewrites of `clean_text`, in the order the source applies them.
      Its result is free of digits and newlines and holds only whitespace and
      word characters, and it is never longer than its input. */
  function Prefilter(s: string): (r: string)
    ensures |r| <= |s|
    ensures forall i :: 0 <= i < |r| ==> Survives(r[i])
  {
    var noDigits := DeleteDigitRuns(s);
    var noPunctuation := DeletePunctuation(noDigits);
    DeleteNewlines(noPunctuation)
  }

  /** Filtering twice is filtering once by the conjunction of the two tests. */
  lemma {:induction false} FilterTwice(s: string, p: char -> bool, q: char -> bool, both: char -> bool)
    requires forall c :: both(c) == (p(c) && q(c))
    ensures Filter(Filter(s, p), q) == Filter(s, both)
    decreases |s|
  {
    if s != [] {
      FilterTwice(s[1..], p, q, both);
    }
  }

  /** A filter deletes nothing exactly when every character passes it. */
  lemma {:induction false} FilterKeepsAll(s: string, keep: char -> bool)
    ensures Filter(s, keep) == s <==> forall i :: 0 <= i < |s| ==> keep(s[i])
    decreases |s|
  {
    if s != [] {
      FilterKeepsAll(s[1..], keep);
      if keep(s[0]) {
        assert s == [s[0]] + s[1..];
        if Filter(s, keep) == s {
          assert Filter(s[1..], keep) == Filter(s, keep)[1..];
        }
      } else {
        assert Filter(s, keep) != s;
      }
    }
  }

  /** A filter keeps every occurrence of a character that passes it and none of
      one that fails it. */
  lemma {:induction false} FilterCounts(s: string, keep: char -> bool)
    ensures forall c :: multiset(Filter(s, keep))[c] == if keep(c) then multiset(s)[c] else 0
    decreases |s|
  {
    if s != [] {
      FilterCounts(s[1..], keep);
      assert s == [s[0]] + s[1..];
      assert multiset(s) == multiset{s[0]} + multiset(s[1..]);
    }
  }

  /** A filter only deletes characters: what is left is a subsequence of the input. */
  lemma {:induction false} FilterIsSubsequence(s: string, keep: char -> bool)
    ensures IsSubsequence(Filter(s, keep), s)
    decreases |s|
  {
    if s != [] {
      FilterIsSubsequence(s[1..], keep);
    }
  }

  /** Deleting the leading digit run does not change which non-digits remain. */
  lemma {:induction false} FilterSkipDigits(s: string)
    ensures Filter(SkipDigits(s), NotDigit) == Filter(s, NotDigit)
    decreases |s|
  {
    if s != [] && IsDigit(s[0]) {
      FilterSkipDigits(s[1..]);
    }
  }

  /** Deleting maximal digit runs is the same as deleting every digit. */
  lemma {:induction false} DeleteDigitRunsDeletesDigits(s: string)
    ensures DeleteDigitRuns(s) == Filter(s, NotDigit)
    decreases |s|
  {
    if s != [] {
      if IsDigit(s[0]) {
        DeleteDigitRunsDeletesDigits(SkipDigits(s));
        FilterSkipDigits(s);
      } else {
        DeleteDigitRunsDeletesDigits(s[1..]);
      }
    }
  }

  /** Rewrites 2 and 3 keep every occurrence of a character they do not target and
      no occurrence of one they do; with the subsequence property of each, this
      fixes their results. */
  lemma RewriteCounts(s: string)
    ensures forall c :: multiset(DeletePunctuation(s))[c] == if SpaceOrWord(c) then multiset(s)[c] else 0
    ensures forall c :: multiset(DeleteNewlines(s))[c] == if c == '\n' then 0 else multiset(s)[c]
  {
    FilterCounts(s, SpaceOrWord);
    FilterCounts(s, NotNewline);
  }

  /** The prefilter keeps exactly the characters that survive all three rewrites,
      in their original order. */
  lemma PrefilterKeepsSurvivors(s: string)
    ensures Prefilter(s) == Filter(s, Survives)
  {
    DeleteDigitRunsDeletesDigits(s);
    var firstTwo := (c: char) => NotDigit(c) && SpaceOrWord(c);
    FilterTwice(s, NotDigit, SpaceOrWord, firstTwo);
    FilterTwice(s, firstTwo, NotNewline, Survives);
  }

  /** The prefilter only deletes: its output is a subsequence of its input. */
  lemma PrefilterIsSubsequence(s: string)
    ensures IsSubsequence(Prefilter(s), s)
    ensures |Prefilter(s)| <= |s|
  {
    PrefilterKeepsSurvivors(s);
    FilterIsSubsequence(s, Survives);
  }

  /** The prefilter leaves a string unchanged exactly when every character of it
      survives all three rewrites. */
  lemma PrefilterFixedPoints(s: string)
    ensures Prefilter(s) == s <==> forall i :: 0 <= i < |s| ==> Survives(s[i])
  {
    PrefilterKeepsSurvivors(s);
    FilterKeepsAll(s, Survives);
  }

  /** Applying the prefilter to its own output changes nothing. */
  lemma PrefilterIdempotent(s: string)
    ensures Prefilter(Prefilter(s)) == Prefilter(s)
  {
    PrefilterKeepsSurvivors(s);
    PrefilterFixedPoints(Prefilter(s));
  }
}
