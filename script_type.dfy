/** `detectStringType`: whether an answer is mostly Latin letters
    ("romaji") or mostly CJK ideographs and kana. The closest-answer hint
    compares only answers of the user's script type. */
module ScriptType {
  import opened Seqs
  import opened Text

  datatype StringType = Romaji | Cjk

  /** `A`-`Z` and `a`-`z`. */
  predicate IsRomajiChar(c: char) {
    var n := c as int;
    (0x41 <= n <= 0x5A) || (0x61 <= n <= 0x7A)
  }

  /** CJK Unified Ideographs, Hiragana and Katakana. */
  predicate IsCjkChar(c: char) {
    var n := c as int;
    (0x4E00 <= n <= 0x9FFF) || (0x3040 <= n <= 0x309F) || (0x30A0 <= n <= 0x30FF)
  }

  function RomajiCount(s: string): nat {
    |Filter(StripPunctuation(s), IsRomajiChar)|
  }

  function CjkCount(s: string): nat {
    |Filter(StripPunctuation(s), IsCjkChar)|
  }

  /** The classification: a string with nothing left after removing white
      space, punctuation and symbols is romaji; otherwise it is romaji
      exactly when it has strictly more Latin letters than CJK characters. */
  function TypeOf(s: string): StringType {
    if |StripPunctuation(s)| == 0 then Romaji
    else if RomajiCount(s) > CjkCount(s) then Romaji
    else Cjk
  }

  /** The counting loop of `detectStringType`. */
  method DetectStringType(str: string) returns (t: StringType)
    ensures t == TypeOf(str)
  {
    var normalized := StripPunctuation(str);
    if |normalized| == 0 {
      return Romaji;
    }
    var romajiCount, cjkCount := 0, 0;
    var i := 0;
    while i < |normalized|
      invariant 0 <= i <= |normalized|
      invariant romajiCount == |Filter(normalized[..i], IsRomajiChar)|
      invariant cjkCount == |Filter(normalized[..i], IsCjkChar)|
    {
      var c := normalized[i];
      FilterStep(normalized, i, IsRomajiChar);
      FilterStep(normalized, i, IsCjkChar);
      if IsRomajiChar(c) {
        romajiCount := romajiCount + 1;
      } else if IsCjkChar(c) {
        cjkCount := cjkCount + 1;
      }
      i := i + 1;
    }
    assert normalized[..i] == normalized;
    t := if romajiCount > cjkCount then Romaji else Cjk;
  }

  /** White space, punctuation and symbols do not change the type:
      classifying the stripped string gives the same answer. */
  lemma TypeOfStripped(s: string)
    ensures TypeOf(StripPunctuation(s)) == TypeOf(s)
  {
    var t := StripPunctuation(s);
    FilterAll(t, Kept);
    assert StripPunctuation(t) == t;
    assert RomajiCount(t) == RomajiCount(s) && CjkCount(t) == CjkCount(s);
  }

  /** The counts add up over a concatenation. */
  lemma CountsAppend(a: string, b: string)
    ensures |StripPunctuation(a + b)| == |StripPunctuation(a)| + |StripPunctuation(b)|
    ensures RomajiCount(a + b) == RomajiCount(a) + RomajiCount(b)
    ensures CjkCount(a + b) == CjkCount(a) + CjkCount(b)
  {
    FilterAppend(a, b, Kept);
    FilterAppend(StripPunctuation(a), StripPunctuation(b), IsRomajiChar);
    FilterAppend(StripPunctuation(a), StripPunctuation(b), IsCjkChar);
  }

  /** Both classes are closed under concatenation: joining two romaji
      strings gives a romaji string, and two CJK strings a CJK string. */
  lemma TypeOfAppend(a: string, b: string)
    requires TypeOf(a) == TypeOf(b)
    ensures TypeOf(a + b) == TypeOf(a)
  {
    CountsAppend(a, b);
    if TypeOf(a) == Romaji {
      if |StripPunctuation(a)| == 0 {
        assert RomajiCount(a) == 0 && CjkCount(a) == 0;
      }
      if |StripPunctuation(b)| == 0 {
        assert RomajiCount(b) == 0 && CjkCount(b) == 0;
      }
    }
  }

  /** A tie between Latin letters and CJK characters counts as CJK. */
  lemma TieIsCjk(s: string)
    requires |StripPunctuation(s)| > 0 && RomajiCount(s) == CjkCount(s)
    ensures TypeOf(s) == Cjk
  {
  }

  /** A string whose letters, after normalisation, are all Latin is
      romaji. */
  lemma AllRomaji(s: string)
    requires var t := StripPunctuation(s); forall k :: 0 <= k < |t| ==> IsRomajiChar(t[k])
    ensures TypeOf(s) == Romaji
  {
    var t := StripPunctuation(s);
    FilterAll(t, IsRomajiChar);
    NoneMatch(t, IsCjkChar);
  }

  /** A non-empty string whose letters, after normalisation, are all
      ideographs or kana is CJK. */
  lemma AllCjk(s: string)
    requires var t := StripPunctuation(s); |t| > 0 && forall k :: 0 <= k < |t| ==> IsCjkChar(t[k])
    ensures TypeOf(s) == Cjk
  {
    var t := StripPunctuation(s);
    FilterAll(t, IsCjkChar);
    forall k | 0 <= k < |t|
      ensures !IsRomajiChar(t[k])
    {
      CjkIsNotRomaji(t[k]);
    }
    NoneMatch(t, IsRomajiChar);
  }

  lemma CjkIsNotRomaji(c: char)
    requires IsCjkChar(c)
    ensures !IsRomajiChar(c)
  {
  }

  lemma {:induction false} NoneMatch(s: string, p: char -> bool)
    requires forall k :: 0 <= k < |s| ==> !p(s[k])
    ensures Filter(s, p) == []
    decreases |s|
  {
    if |s| > 0 {
      NoneMatch(s[..|s| - 1], p);
    }
  }
}
