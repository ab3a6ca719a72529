/** The string primitives the source relies on: `trim`, `split`, `join`,
    `startsWith`, and the answer normalisation
    `s.replace(/[\s\p{P}\p{S}]/gu, '').toLowerCase()`.

    Strings are sequences of characters, one character per UTF-16 code unit
    (text outside the Basic Multilingual Plane is not modelled). */
module Text {
  import opened Seqs

  /** The characters `String.prototype.trim` and the regex class `\s` treat
      as white space. */
  predicate IsWhitespace(c: char) {
    var n := c as int;
    (9 <= n <= 13) || n == 32 || n == 0xA0 || n == 0x1680 || (0x2000 <= n <= 0x200A)
    || n == 0x2028 || n == 0x2029 || n == 0x202F || n == 0x205F || n == 0x3000 || n == 0xFEFF
  }

  /** The punctuation and symbol characters (Unicode general categories P
      and S) of the ASCII, Latin-1 Supplement, General Punctuation, CJK
      Symbols and Punctuation, and Halfwidth and Fullwidth Forms blocks,
      together with the two in the Katakana block (U+30A0 and U+30FB). */
  predicate IsPunctuationOrSymbol(c: char) {
    var n := c as int;
    (33 <= n <= 47) || (58 <= n <= 64) || (91 <= n <= 96) || (123 <= n <= 126)
    || (0xA1 <= n <= 0xA9) || n == 0xAB || n == 0xAC || (0xAE <= n <= 0xB1) || n == 0xB4
    || (0xB6 <= n <= 0xB8) || n == 0xBB || n == 0xBF || n == 0xD7 || n == 0xF7
    || (0x2010 <= n <= 0x2027) || (0x2030 <= n <= 0x205E)
    || (0x3001 <= n <= 0x3004) || (0x3008 <= n <= 0x3020) || n == 0x3030 || n == 0x303D
    || n == 0x3036 || n == 0x3037 || n == 0x303E || n == 0x303F
    || n == 0x30A0 || n == 0x30FB
    || (0xFF01 <= n <= 0xFF0F) || (0xFF1A <= n <= 0xFF20) || (0xFF3B <= n <= 0xFF40) || (0xFF5B <= n <= 0xFF65)
    || (0xFFE0 <= n <= 0xFFE6) || (0xFFE8 <= n <= 0xFFEE)
  }

  /** A character that the normalising regex `[\s\p{P}\p{S}]` keeps. */
  predicate Kept(c: char) {
    !IsWhitespace(c) && !IsPunctuationOrSymbol(c)
  }

  /** `toLowerCase` on one character: ASCII, Latin-1 and fullwidth Latin
      capitals; every other character is its own lower case. */
  function Lower(c: char): char {
    var n := c as int;
    if 0x41 <= n <= 0x5A || (0xC0 <= n <= 0xDE && n != 0xD7) || 0xFF21 <= n <= 0xFF3A then
      (n + 32) as char
    else c
  }

  /** `s.replace(/[\s\p{P}\p{S}]/gu, '')`. */
  function StripPunctuation(s: string): string {
    Filter(s, Kept)
  }

  /** `s.replace(/[\s\p{P}\p{S}]/gu, '').toLowerCase()`. */
  function Normalize(s: string): string {
    var t := StripPunctuation(s);
    seq(|t|, i requires 0 <= i < |t| => Lower(t[i]))
  }

  lemma LowerKeeps(c: char)
    requires Kept(c)
    ensures Kept(Lower(c)) && Lower(Lower(c)) == Lower(c)
  {
  }

  /** One character normalises to the empty string exactly when the regex
      removes it, which is the test the markup loops apply per character. */
  lemma NormalizeChar(c: char)
    ensures Normalize([c]) == if Kept(c) then [Lower(c)] else []
  {
    assert [c][..0] == [];
  }

  lemma NormalizeLength(s: string)
    ensures |Normalize(s)| == |StripPunctuation(s)|
  {
  }

  /** Normalising twice is normalising once: comparing normalised answers
      is insensitive to input that is already normalised. */
  lemma NormalizeIdempotent(s: string)
    ensures Normalize(Normalize(s)) == Normalize(s)
  {
    var t := StripPunctuation(s);
    var n := Normalize(s);
    forall i | 0 <= i < |n| ensures Kept(n[i]) && Lower(n[i]) == n[i] {
      LowerKeeps(t[i]);
    }
    FilterAll(n, Kept);
  }

  // ---------------------------------------------------------------------
  // trim

  /** `trimStart`: drops leading white space and nothing else. */
  function TrimStart(s: string): (r: string)
    ensures |r| <= |s| && r == s[|s| - |r|..]
    ensures |r| == 0 || !IsWhitespace(r[0])
    ensures forall k :: 0 <= k < |s| - |r| ==> IsWhitespace(s[k])
    decreases |s|
  {
    if |s| > 0 && IsWhitespace(s[0]) then TrimStart(s[1..]) else s
  }

  /** `trimEnd`: drops trailing white space and nothing else. */
  function TrimEnd(s: string): (r: string)
    ensures |r| <= |s| && r == s[..|r|]
    ensures |r| == 0 || !IsWhitespace(r[|r| - 1])
    ensures forall k :: |r| <= k < |s| ==> IsWhitespace(s[k])
    decreases |s|
  {
    if |s| > 0 && IsWhitespace(s[|s| - 1]) then TrimEnd(s[..|s| - 1]) else s
  }

  predicate IsTrimmed(s: string) {
    |s| == 0 || (!IsWhitespace(s[0]) && !IsWhitespace(s[|s| - 1]))
  }

  predicate AllWhitespace(s: string) {
    forall k :: 0 <= k < |s| ==> IsWhitespace(s[k])
  }

  /** `String.prototype.trim`. */
  function Trim(s: string): (r: string)
    ensures IsTrimmed(r)
  {
    TrimEnd(TrimStart(s))
  }

  lemma TrimOfTrimmed(s: string)
    requires IsTrimmed(s)
    ensures Trim(s) == s
  {
  }

  /** A trimmed string is empty exactly when the input is all white space. */
  lemma TrimEmpty(s: string)
    ensures Trim(s) == [] <==> AllWhitespace(s)
  {
    var t := TrimStart(s);
    assert |t| > 0 ==> t[0] == s[|s| - |t|];
    assert Trim(s) == [] ==> |t| == 0;
  }

  lemma {:induction false} TrimStartLeadingWhitespace(w: string, f: string)
    requires AllWhitespace(w)
    ensures TrimStart(w + f) == TrimStart(f)
    decreases |w|
  {
    if |w| > 0 {
      assert (w + f)[1..] == w[1..] + f;
      TrimStartLeadingWhitespace(w[1..], f);
    } else {
      assert w + f == f;
    }
  }

  lemma {:induction false} TrimEndTrailingWhitespace(f: string, w: string)
    requires AllWhitespace(w)
    ensures TrimEnd(f + w) == TrimEnd(f)
    decreases |w|
  {
    if |w| > 0 {
      assert (f + w)[..|f + w| - 1] == f + w[..|w| - 1];
      TrimEndTrailingWhitespace(f, w[..|w| - 1]);
    } else {
      assert f + w == f;
    }
  }

  lemma {:induction false} TrimStartAppend(f: string, w: string)
    ensures TrimStart(f + w) == if TrimStart(f) == [] then TrimStart(w) else TrimStart(f) + w
    decreases |f|
  {
    if |f| == 0 {
      assert f + w == w;
    } else if IsWhitespace(f[0]) {
      assert (f + w)[1..] == f[1..] + w;
      TrimStartAppend(f[1..], w);
    }
  }

  /** Leading white space before a trimmed string is what `trim` removes. */
  lemma TrimLeading(w: string, x: string)
    requires AllWhitespace(w) && IsTrimmed(x)
    ensures Trim(w + x) == x
  {
    TrimStartLeadingWhitespace(w, x);
    TrimOfTrimmed(x);
  }

  /** White space around a field is what `trim` removes. */
  lemma TrimPadded(w1: string, f: string, w2: string)
    requires AllWhitespace(w1) && AllWhitespace(w2)
    ensures Trim(w1 + f + w2) == Trim(f)
  {
    assert w1 + f + w2 == w1 + (f + w2);
    TrimStartLeadingWhitespace(w1, f + w2);
    TrimStartAppend(f, w2);
    if TrimStart(f) == [] {
      TrimStartLeadingWhitespace(w2, []);
      assert w2 + [] == w2;
    } else {
      TrimEndTrailingWhitespace(TrimStart(f), w2);
    }
  }

  function StartsWith(s: string, prefix: string): bool {
    |prefix| <= |s| && s[..|prefix|] == prefix
  }

  // ---------------------------------------------------------------------
  // split and join

  /** `s.split(sep)` for a one-character separator: always at least one
      field, and no field contains the separator. */
  function Split(s: string, sep: char): (r: seq<string>)
    ensures |r| >= 1
    ensures forall k :: 0 <= k < |r| ==> sep !in r[k]
    decreases |s|
  {
    if |s| == 0 then [""]
    else
      var rest := Split(s[1..], sep);
      if s[0] == sep then [""] + rest
      else [[s[0]] + rest[0]] + rest[1..]
  }

  /** `xs.join(sep)`. */
  function Join(xs: seq<string>, sep: string): string
    decreases |xs|
  {
    if |xs| == 0 then ""
    else if |xs| == 1 then xs[0]
    else xs[0] + sep + Join(xs[1..], sep)
  }

  lemma {:induction false} SplitWithoutSeparator(a: string, b: string, sep: char)
    requires sep !in a
    ensures Split(a + b, sep) == [a + Split(b, sep)[0]] + Split(b, sep)[1..]
    decreases |a|
  {
    if |a| == 0 {
      assert a + b == b;
      assert a + Split(b, sep)[0] == Split(b, sep)[0];
      assert Split(b, sep) == [Split(b, sep)[0]] + Split(b, sep)[1..];
    } else {
      assert (a + b)[1..] == a[1..] + b;
      SplitWithoutSeparator(a[1..], b, sep);
      assert [a[0]] + (a[1..] + Split(b, sep)[0]) == a + Split(b, sep)[0];
    }
  }

  /** A string without the separator splits into itself. */
  lemma SplitWhole(s: string, sep: char)
    requires sep !in s
    ensures Split(s, sep) == [s]
  {
    SplitWithoutSeparator(s, "", sep);
    assert s + "" == s;
  }

  lemma SplitAtSeparator(a: string, b: string, sep: char)
    requires sep !in a
    ensures Split(a + [sep] + b, sep) == [a] + Split(b, sep)
  {
    assert a + [sep] + b == a + ([sep] + b);
    SplitWithoutSeparator(a, [sep] + b, sep);
    assert ([sep] + b)[1..] == b;
    assert Split([sep] + b, sep) == [""] + Split(b, sep);
    assert a + "" == a;
  }

  /** Splitting what was joined gives back the parts, provided no part
      contains the separator. */
  lemma {:induction false} SplitJoin(xs: seq<string>, sep: char)
    requires |xs| >= 1
    requires forall k :: 0 <= k < |xs| ==> sep !in xs[k]
    ensures Split(Join(xs, [sep]), sep) == xs
    decreases |xs|
  {
    if |xs| == 1 {
      SplitWithoutSeparator(xs[0], "", sep);
      assert xs[0] + "" == xs[0];
    } else {
      SplitJoin(xs[1..], sep);
      SplitAtSeparator(xs[0], Join(xs[1..], [sep]), sep);
      assert xs == [xs[0]] + xs[1..];
    }
  }

  /** Joining what was split gives back the string. */
  lemma {:induction false} JoinSplit(s: string, sep: char)
    ensures Join(Split(s, sep), [sep]) == s
    decreases |s|
  {
    if |s| > 0 {
      var rest := Split(s[1..], sep);
      JoinSplit(s[1..], sep);
      if s[0] == sep {
        assert ([""] + rest)[1..] == rest;
      } else {
        var r := [[s[0]] + rest[0]] + rest[1..];
        assert r[1..] == rest[1..];
        if |rest| > 1 {
          assert Join(rest, [sep]) == rest[0] + [sep] + Join(rest[1..], [sep]);
        }
        assert s == [s[0]] + s[1..];
      }
    }
  }
}
