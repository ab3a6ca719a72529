/** `highlightAnswerDifferences`: aligns the normalised user answer with
    the normalised correct answer by backtracking through the edit-distance
    table, then marks up the original characters of both answers. */
module Highlight {
  import opened Seqs
  import opened Text
  import opened EditDistance

  datatype Kind = Match | Wrong | Extra | Missing

  /** One alignment position: the character (empty on the side that has
      none), its kind, and its index in the normalised string (-1 where the
      side has no character). */
  datatype Entry = Entry(ch: string, kind: Kind, idx: int)

  /** The characters of an alignment, in order. */
  function Spell(es: seq<Entry>): string {
    if |es| == 0 then "" else Spell(es[..|es| - 1]) + es[|es| - 1].ch
  }

  /** The kinds of the entries whose kind is not `k`. */
  function KindsWithout(es: seq<Entry>, k: Kind): (r: seq<Kind>)
    ensures forall i :: 0 <= i < |r| ==> r[i] != k
  {
    if |es| == 0 then []
    else (if es[0].kind == k then [] else [es[0].kind]) + KindsWithout(es[1..], k)
  }

  function CountKind(es: seq<Entry>, k: Kind): nat {
    if |es| == 0 then 0
    else (if es[0].kind == k then 1 else 0) + CountKind(es[1..], k)
  }

  /** The positions that are not a match: the edit operations. */
  function Mismatches(es: seq<Entry>): int {
    |es| - CountKind(es, Match)
  }

  lemma {:induction false} KindsWithoutAppend(a: seq<Entry>, b: seq<Entry>, k: Kind)
    ensures KindsWithout(a + b, k) == KindsWithout(a, k) + KindsWithout(b, k)
    decreases |a|
  {
    if |a| == 0 {
      assert a + b == b;
    } else {
      assert (a + b)[1..] == a[1..] + b;
      KindsWithoutAppend(a[1..], b, k);
    }
  }

  lemma {:induction false} CountKindAppend(a: seq<Entry>, b: seq<Entry>, k: Kind)
    ensures CountKind(a + b, k) == CountKind(a, k) + CountKind(b, k)
    decreases |a|
  {
    if |a| == 0 {
      assert a + b == b;
    } else {
      assert (a + b)[1..] == a[1..] + b;
      CountKindAppend(a[1..], b, k);
    }
  }

  lemma SpellAppend(es: seq<Entry>, e: Entry)
    ensures Spell(es + [e]) == Spell(es) + e.ch
  {
    assert (es + [e])[..|es|] == es;
  }

  /** The move the backtrack makes from cell `(i, j)`: a match, else a
      substitution, else an extra user character, else a missing one. */
  function Step(u: string, c: string, i: nat, j: nat): (k: Kind)
    requires i <= |u| && j <= |c| && i + j > 0
    ensures k != Missing ==> i > 0
    ensures k != Extra ==> j > 0
    ensures k == Match <==> i > 0 && j > 0 && u[i - 1] == c[j - 1]
  {
    if i > 0 && j > 0 && u[i - 1] == c[j - 1] then Match
    else if i > 0 && j > 0 && DistAt(u, c, i, j) == DistAt(u, c, i - 1, j - 1) + 1 then Wrong
    else if i > 0 && (j == 0 || DistAt(u, c, i, j) == DistAt(u, c, i - 1, j) + 1) then Extra
    else Missing
  }

  /** The user-side entry of a move. */
  function UserEntry(u: string, i: nat, k: Kind): Entry
    requires k != Missing ==> 0 < i <= |u|
  {
    if k == Missing then Entry("", Missing, -1) else Entry([u[i - 1]], k, i - 1)
  }

  /** The correct-side entry of a move. */
  function CorrectEntry(c: string, j: nat, k: Kind): Entry
    requires k != Extra ==> 0 < j <= |c|
  {
    if k == Extra then Entry("", Extra, -1) else Entry([c[j - 1]], k, j - 1)
  }

  /** The alignment the backtrack builds from cell `(i, j)` of the table. */
  function Align(u: string, c: string, i: nat, j: nat): (r: (seq<Entry>, seq<Entry>))
    requires i <= |u| && j <= |c|
    ensures |r.0| == |r.1|
    decreases i + j
  {
    if i == 0 && j == 0 then ([], [])
    else
      var k := Step(u, c, i, j);
      var p := Align(u, c, Prev(u, c, i, j).0, Prev(u, c, i, j).1);
      (p.0 + [UserEntry(u, i, k)], p.1 + [CorrectEntry(c, j, k)])
  }

  /** The cell the backtrack moves to from `(i, j)`. */
  function Prev(u: string, c: string, i: nat, j: nat): (r: (nat, nat))
    requires i <= |u| && j <= |c| && i + j > 0
    ensures r.0 <= i && r.1 <= j && r.0 + r.1 < i + j
  {
    var k := Step(u, c, i, j);
    (if k == Missing then i else i - 1, if k == Extra then j else j - 1)
  }

  /** One step of `Align`, as the backtrack takes it. */
  lemma AlignUnfold(u: string, c: string, i: nat, j: nat)
    requires i <= |u| && j <= |c| && i + j > 0
    ensures var k := Step(u, c, i, j);
      var p := Align(u, c, Prev(u, c, i, j).0, Prev(u, c, i, j).1);
      Align(u, c, i, j) == (p.0 + [UserEntry(u, i, k)], p.1 + [CorrectEntry(c, j, k)])
  {
  }

  /** Both sides have the same kind at every position. */
  lemma {:induction false} AlignKinds(u: string, c: string, i: nat, j: nat)
    requires i <= |u| && j <= |c|
    ensures var r := Align(u, c, i, j);
      forall n :: 0 <= n < |r.0| ==> r.0[n].kind == r.1[n].kind
    decreases i + j
  {
    if i > 0 || j > 0 {
      var k := Step(u, c, i, j);
      var (pi, pj) := Prev(u, c, i, j);
      var p := Align(u, c, pi, pj);
      AlignKinds(u, c, pi, pj);
      AlignUnfold(u, c, i, j);
      var r := Align(u, c, i, j);
      forall n | 0 <= n < |r.0| ensures r.0[n].kind == r.1[n].kind {
        if n < |p.0| {
          assert r.0[n] == p.0[n] && r.1[n] == p.1[n];
        }
      }
    }
  }

  /** The user side spells `u[..i]`. */
  lemma {:induction false} AlignSpellUser(u: string, c: string, i: nat, j: nat)
    requires i <= |u| && j <= |c|
    ensures Spell(Align(u, c, i, j).0) == u[..i]
    decreases i + j
  {
    if i > 0 || j > 0 {
      var k := Step(u, c, i, j);
      var (pi, pj) := Prev(u, c, i, j);
      var p := Align(u, c, pi, pj);
      var e := UserEntry(u, i, k);
      AlignSpellUser(u, c, pi, pj);
      AlignUnfold(u, c, i, j);
      SpellAppend(p.0, e);
      UserPrefixStep(u, i, pi, k);
    }
  }

  lemma UserPrefixStep(u: string, i: nat, pi: nat, k: Kind)
    requires i <= |u|
    requires k != Missing ==> 0 < i && pi == i - 1
    requires k == Missing ==> pi == i
    ensures u[..pi] + UserEntry(u, i, k).ch == u[..i]
  {
    if k != Missing {
      assert u[..i] == u[..i - 1] + [u[i - 1]];
    } else {
      assert u[..i] + "" == u[..i];
    }
  }

  lemma CorrectPrefixStep(c: string, j: nat, pj: nat, k: Kind)
    requires j <= |c|
    requires k != Extra ==> 0 < j && pj == j - 1
    requires k == Extra ==> pj == j
    ensures c[..pj] + CorrectEntry(c, j, k).ch == c[..j]
  {
    if k != Extra {
      assert c[..j] == c[..j - 1] + [c[j - 1]];
    } else {
      assert c[..j] + "" == c[..j];
    }
  }

  /** The correct side spells `c[..j]`. */
  lemma {:induction false} AlignSpellCorrect(u: string, c: string, i: nat, j: nat)
    requires i <= |u| && j <= |c|
    ensures Spell(Align(u, c, i, j).1) == c[..j]
    decreases i + j
  {
    if i > 0 || j > 0 {
      var k := Step(u, c, i, j);
      var (pi, pj) := Prev(u, c, i, j);
      var p := Align(u, c, pi, pj);
      var e := CorrectEntry(c, j, k);
      AlignSpellCorrect(u, c, pi, pj);
      AlignUnfold(u, c, i, j);
      SpellAppend(p.1, e);
      CorrectPrefixStep(c, j, pj, k);
    }
  }

  /** The user side holds `i` positions that are not `missing`, and the
      correct side `j` that are not `extra`. */
  lemma {:induction false} AlignCounts(u: string, c: string, i: nat, j: nat)
    requires i <= |u| && j <= |c|
    ensures |KindsWithout(Align(u, c, i, j).0, Missing)| == i
    ensures |KindsWithout(Align(u, c, i, j).1, Extra)| == j
    decreases i + j
  {
    if i > 0 || j > 0 {
      var k := Step(u, c, i, j);
      var (pi, pj) := Prev(u, c, i, j);
      var p := Align(u, c, pi, pj);
      AlignCounts(u, c, pi, pj);
      KindsWithoutAppend(p.0, [UserEntry(u, i, k)], Missing);
      KindsWithoutAppend(p.1, [CorrectEntry(c, j, k)], Extra);
    }
  }

  /** The positions that are not a match number exactly the edit
      distance: the alignment is a cheapest one. */
  lemma {:induction false} AlignCost(u: string, c: string, i: nat, j: nat)
    requires i <= |u| && j <= |c|
    ensures Mismatches(Align(u, c, i, j).0) == DistAt(u, c, i, j)
    decreases i + j
  {
    if i > 0 || j > 0 {
      var k := Step(u, c, i, j);
      var (pi, pj) := Prev(u, c, i, j);
      var p := Align(u, c, pi, pj);
      AlignCost(u, c, pi, pj);
      CountKindAppend(p.0, [UserEntry(u, i, k)], Match);
      if k == Missing && i > 0 {
        var x, y, z := DistAt(u, c, i - 1, j), DistAt(u, c, i, j - 1), DistAt(u, c, i - 1, j - 1);
        assert DistAt(u, c, i, j) == 1 + Min3(x, y, z);
      }
    }
  }

  /** The move from cell `(i, j)`, read off the filled table. */
  method TableStep(u: string, c: string, dp: array2<int>, i: nat, j: nat) returns (k: Kind)
    requires i <= |u| && j <= |c| && i + j > 0
    requires dp.Length0 == |u| + 1 && dp.Length1 == |c| + 1
    requires forall p, q :: 0 <= p <= |u| && 0 <= q <= |c| ==> dp[p, q] == DistAt(u, c, p, q)
    ensures k == Step(u, c, i, j)
  {
    if i > 0 && j > 0 && u[i - 1] == c[j - 1] {
      k := Match;
    } else if i > 0 && j > 0 && dp[i, j] == dp[i - 1, j - 1] + 1 {
      k := Wrong;
    } else if i > 0 && (j == 0 || dp[i, j] == dp[i - 1, j] + 1) {
      k := Extra;
    } else {
      k := Missing;
    }
  }

  /** Prepending the entries of one move keeps the backtrack's invariant. */
  lemma BacktrackStep(u: string, c: string, i: nat, j: nat, ua: seq<Entry>, ca: seq<Entry>, total: (seq<Entry>, seq<Entry>))
    requires i <= |u| && j <= |c| && i + j > 0
    requires total == (Align(u, c, i, j).0 + ua, Align(u, c, i, j).1 + ca)
    ensures var k := Step(u, c, i, j);
      var p := Align(u, c, Prev(u, c, i, j).0, Prev(u, c, i, j).1);
      total == (p.0 + ([UserEntry(u, i, k)] + ua), p.1 + ([CorrectEntry(c, j, k)] + ca))
  {
    var k := Step(u, c, i, j);
    var p := Align(u, c, Prev(u, c, i, j).0, Prev(u, c, i, j).1);
    AlignUnfold(u, c, i, j);
    assert p.0 + [UserEntry(u, i, k)] + ua == p.0 + ([UserEntry(u, i, k)] + ua);
    assert p.1 + [CorrectEntry(c, j, k)] + ca == p.1 + ([CorrectEntry(c, j, k)] + ca);
  }

  /** The backtrack loop over a filled table. */
  method Backtrack(u: string, c: string, dp: array2<int>) returns (ua: seq<Entry>, ca: seq<Entry>)
    requires dp.Length0 == |u| + 1 && dp.Length1 == |c| + 1
    requires forall p, q :: 0 <= p <= |u| && 0 <= q <= |c| ==> dp[p, q] == DistAt(u, c, p, q)
    ensures (ua, ca) == Align(u, c, |u|, |c|)
  {
    var i, j := |u|, |c|;
    ua, ca := [], [];
    ghost var total := Align(u, c, i, j);
    assert total.0 + ua == total.0 && total.1 + ca == total.1;
    while i > 0 || j > 0
      invariant 0 <= i <= |u| && 0 <= j <= |c|
      invariant total == (Align(u, c, i, j).0 + ua, Align(u, c, i, j).1 + ca)
      decreases i + j
    {
      var k := TableStep(u, c, dp, i, j);
      BacktrackStep(u, c, i, j, ua, ca, total);
      ua, ca := [UserEntry(u, i, k)] + ua, [CorrectEntry(c, j, k)] + ca;
      i, j := Prev(u, c, i, j).0, Prev(u, c, i, j).1;
    }
    assert Align(u, c, i, j) == ([], []);
    assert [] + ua == ua && [] + ca == ca;
  }

  // ---------------------------------------------------------------------
  // markup

  /** The CSS classes `answer-char-correct`, `answer-char-incorrect` and
      `answer-char-extra`. */
  datatype Style = Correct | Incorrect | ExtraChar

  /** One piece of markup: a character copied as is, a character wrapped in
      a styled span, or an `*` standing for an extra user character. */
  datatype Piece = Plain(ch: char) | Marked(ch: char, style: Style) | Asterisk

  function UserStyle(k: Kind): Style {
    match k
    case Match => Correct
    case Extra => ExtraChar
    case _ => Incorrect
  }

  function CorrectStyle(k: Kind): Style {
    if k == Match then Correct else Incorrect
  }

  function UserStyles(ks: seq<Kind>): seq<Style> {
    if |ks| == 0 then [] else [UserStyle(ks[0])] + UserStyles(ks[1..])
  }

  function CorrectStyles(ks: seq<Kind>): seq<Style> {
    if |ks| == 0 then [] else [CorrectStyle(ks[0])] + CorrectStyles(ks[1..])
  }

  /** The answer characters a markup shows, in order. */
  function Chars(ps: seq<Piece>): string {
    if |ps| == 0 then ""
    else (if ps[0].Asterisk? then "" else [ps[0].ch]) + Chars(ps[1..])
  }

  lemma CharsCons(p: Piece, ps: seq<Piece>, s: string)
    requires |s| > 0 && !p.Asterisk? && p.ch == s[0] && Chars(ps) == s[1..]
    ensures Chars([p] + ps) == s
  {
    assert ([p] + ps)[1..] == ps;
    assert s == [s[0]] + s[1..];
  }

  /** The styles of the marked characters, in order. */
  function Styles(ps: seq<Piece>): seq<Style> {
    if |ps| == 0 then []
    else (if ps[0].Marked? then [ps[0].style] else []) + Styles(ps[1..])
  }

  function Asterisks(ps: seq<Piece>): nat {
    if |ps| == 0 then 0
    else (if ps[0].Asterisk? then 1 else 0) + Asterisks(ps[1..])
  }

  /** The number of characters the normalisation keeps. */
  function KeptCount(s: string): nat {
    |StripPunctuation(s)|
  }

  lemma KeptCountFront(s: string)
    requires |s| > 0
    ensures KeptCount(s) == (if Kept(s[0]) then 1 else 0) + KeptCount(s[1..])
  {
    FilterFront(s, Kept);
  }

  /** The user-side markup of `s` against the remaining user alignment
      `es`, one step of the loop at a time: a removed character is copied;
      before a kept character `missing` positions are skipped; a kept
      character takes the style of the next position; with no position
      left it is dropped. */
  function UserMarks(s: string, es: seq<Entry>): seq<Piece>
    decreases |s| + |es|
  {
    if |s| == 0 then []
    else if !Kept(s[0]) then [Plain(s[0])] + UserMarks(s[1..], es)
    else if |es| > 0 && es[0].kind == Missing then UserMarks(s, es[1..])
    else if |es| > 0 then [Marked(s[0], UserStyle(es[0].kind))] + UserMarks(s[1..], es[1..])
    else UserMarks(s[1..], es)
  }

  /** The correct-side markup of `s` against the remaining correct
      alignment `es`: a removed character is copied; before a kept
      character, and at the end, every `extra` position becomes `*`; a kept
      character takes the style of the next position. */
  function CorrectMarks(s: string, es: seq<Entry>): seq<Piece>
    decreases |s| + |es|
  {
    if |s| > 0 && !Kept(s[0]) then [Plain(s[0])] + CorrectMarks(s[1..], es)
    else if |es| > 0 && es[0].kind == Extra then [Asterisk] + CorrectMarks(s, es[1..])
    else if |s| == 0 then []
    else if |es| > 0 then [Marked(s[0], CorrectStyle(es[0].kind))] + CorrectMarks(s[1..], es[1..])
    else CorrectMarks(s[1..], es)
  }

  /** When the answer keeps as many characters as the alignment has user
      characters, its markup shows every character once, in order. */
  lemma {:induction false} UserMarksChars(s: string, es: seq<Entry>)
    requires KeptCount(s) == |KindsWithout(es, Missing)|
    ensures Chars(UserMarks(s, es)) == s
    decreases |s| + |es|
  {
    if |s| > 0 {
      var r := UserMarks(s, es);
      KeptCountFront(s);
      if !Kept(s[0]) {
        UserMarksChars(s[1..], es);
        CharsCons(Plain(s[0]), UserMarks(s[1..], es), s);
      } else if |es| > 0 && es[0].kind == Missing {
        assert KindsWithout(es, Missing) == KindsWithout(es[1..], Missing);
        UserMarksChars(s, es[1..]);
        assert r == UserMarks(s, es[1..]);
      } else if |es| > 0 {
        assert KindsWithout(es, Missing) == [es[0].kind] + KindsWithout(es[1..], Missing);
        UserMarksChars(s[1..], es[1..]);
        CharsCons(Marked(s[0], UserStyle(es[0].kind)), UserMarks(s[1..], es[1..]), s);
      }
    }
  }

  /** ... and styles the kept characters by the kinds of the user
      positions that are not `missing`. */
  lemma {:induction false} UserMarksStyles(s: string, es: seq<Entry>)
    requires KeptCount(s) == |KindsWithout(es, Missing)|
    ensures Styles(UserMarks(s, es)) == UserStyles(KindsWithout(es, Missing))
    decreases |s| + |es|
  {
    var ks := KindsWithout(es, Missing);
    if |s| > 0 {
      var r := UserMarks(s, es);
      KeptCountFront(s);
      if !Kept(s[0]) {
        UserMarksStyles(s[1..], es);
        assert r == [Plain(s[0])] + UserMarks(s[1..], es);
      } else if |es| > 0 && es[0].kind == Missing {
        assert ks == KindsWithout(es[1..], Missing);
        UserMarksStyles(s, es[1..]);
        assert r == UserMarks(s, es[1..]);
      } else if |es| > 0 {
        assert ks == [es[0].kind] + KindsWithout(es[1..], Missing);
        UserMarksStyles(s[1..], es[1..]);
        assert r == [Marked(s[0], UserStyle(es[0].kind))] + UserMarks(s[1..], es[1..]);
      }
    } else if |es| > 0 {
      assert ks == [];
    }
  }

  /** When the answer keeps as many characters as the alignment has correct
      characters, its markup shows every character once, in order. */
  lemma {:induction false} CorrectMarksChars(s: string, es: seq<Entry>)
    requires KeptCount(s) == |KindsWithout(es, Extra)|
    ensures Chars(CorrectMarks(s, es)) == s
    decreases |s| + |es|
  {
    var r := CorrectMarks(s, es);
    var ks := KindsWithout(es, Extra);
    if |s| > 0 {
      KeptCountFront(s);
    }
    if |s| > 0 && !Kept(s[0]) {
      CorrectMarksChars(s[1..], es);
      CharsCons(Plain(s[0]), CorrectMarks(s[1..], es), s);
    } else if |es| > 0 && es[0].kind == Extra {
      assert ks == KindsWithout(es[1..], Extra);
      CorrectMarksChars(s, es[1..]);
      assert r == [Asterisk] + CorrectMarks(s, es[1..]);
    } else if |s| > 0 && |es| > 0 {
      assert ks == [es[0].kind] + KindsWithout(es[1..], Extra);
      CorrectMarksChars(s[1..], es[1..]);
      CharsCons(Marked(s[0], CorrectStyle(es[0].kind)), CorrectMarks(s[1..], es[1..]), s);
    }
  }

  /** ... holds one `*` per extra user character ... */
  lemma {:induction false} CorrectMarksAsterisks(s: string, es: seq<Entry>)
    requires KeptCount(s) == |KindsWithout(es, Extra)|
    ensures Asterisks(CorrectMarks(s, es)) == CountKind(es, Extra)
    decreases |s| + |es|
  {
    var r := CorrectMarks(s, es);
    var ks := KindsWithout(es, Extra);
    if |s| > 0 {
      KeptCountFront(s);
    }
    if |s| > 0 && !Kept(s[0]) {
      CorrectMarksAsterisks(s[1..], es);
      assert r == [Plain(s[0])] + CorrectMarks(s[1..], es);
    } else if |es| > 0 && es[0].kind == Extra {
      assert ks == KindsWithout(es[1..], Extra);
      CorrectMarksAsterisks(s, es[1..]);
      assert r == [Asterisk] + CorrectMarks(s, es[1..]);
    } else if |es| > 0 {
      assert ks == [es[0].kind] + KindsWithout(es[1..], Extra);
      if |s| > 0 {
        CorrectMarksAsterisks(s[1..], es[1..]);
        assert r == [Marked(s[0], CorrectStyle(es[0].kind))] + CorrectMarks(s[1..], es[1..]);
      }
    }
  }

  /** ... and styles the kept characters by the kinds of the correct
      positions that are not `extra`. */
  lemma {:induction false} CorrectMarksStyles(s: string, es: seq<Entry>)
    requires KeptCount(s) == |KindsWithout(es, Extra)|
    ensures Styles(CorrectMarks(s, es)) == CorrectStyles(KindsWithout(es, Extra))
    decreases |s| + |es|
  {
    var r := CorrectMarks(s, es);
    var ks := KindsWithout(es, Extra);
    if |s| > 0 {
      KeptCountFront(s);
    }
    if |s| > 0 && !Kept(s[0]) {
      CorrectMarksStyles(s[1..], es);
      assert r == [Plain(s[0])] + CorrectMarks(s[1..], es);
    } else if |es| > 0 && es[0].kind == Extra {
      assert ks == KindsWithout(es[1..], Extra);
      CorrectMarksStyles(s, es[1..]);
      assert r == [Asterisk] + CorrectMarks(s, es[1..]);
    } else if |es| > 0 {
      assert ks == [es[0].kind] + KindsWithout(es[1..], Extra);
      if |s| > 0 {
        CorrectMarksStyles(s[1..], es[1..]);
        assert r == [Marked(s[0], CorrectStyle(es[0].kind))] + CorrectMarks(s[1..], es[1..]);
      }
    }
  }

  lemma UserMarksSkip(s: string, es: seq<Entry>)
    requires |s| > 0 && Kept(s[0]) && |es| > 0 && es[0].kind == Missing
    ensures UserMarks(s, es) == UserMarks(s, es[1..])
  {
  }

  lemma UserMarksNext(s: string, es: seq<Entry>)
    requires |s| > 0 && Kept(s[0]) && (|es| == 0 || es[0].kind != Missing)
    ensures UserMarks(s, es) == (if |es| > 0 then [Marked(s[0], UserStyle(es[0].kind))] else []) + UserMarks(s[1..], if |es| > 0 then es[1..] else es)
  {
  }

  lemma UserStepRemoved(marks: seq<Piece>, s: string, i: nat, ua: seq<Entry>, j: nat)
    requires i < |s| && j <= |ua| && !Kept(s[i])
    ensures marks + UserMarks(s[i..], ua[j..]) == (marks + [Plain(s[i])]) + UserMarks(s[i + 1..], ua[j..])
  {
    assert s[i..][1..] == s[i + 1..];
  }

  lemma UserStepKept(marks: seq<Piece>, s: string, i: nat, ua: seq<Entry>, j: nat)
    requires i < |s| && j <= |ua| && Kept(s[i]) && (j == |ua| || ua[j].kind != Missing)
    ensures j < |ua| ==>
      marks + UserMarks(s[i..], ua[j..]) == (marks + [Marked(s[i], UserStyle(ua[j].kind))]) + UserMarks(s[i + 1..], ua[j + 1..])
    ensures j == |ua| ==> marks + UserMarks(s[i..], ua[j..]) == marks + UserMarks(s[i + 1..], ua[j..])
  {
    assert s[i..][1..] == s[i + 1..];
    UserMarksNext(s[i..], ua[j..]);
    if j < |ua| {
      assert ua[j..][1..] == ua[j + 1..];
    }
  }

  /** Skips the `missing` positions from `alignIdx` on, before the kept
      character that starts `rest`; they produce no markup. */
  method SkipMissing(rest: string, ua: seq<Entry>, alignIdx: nat) returns (alignIdx': nat)
    requires alignIdx <= |ua| && (|rest| == 0 || Kept(rest[0]))
    ensures alignIdx <= alignIdx' <= |ua| && (alignIdx' == |ua| || ua[alignIdx'].kind != Missing)
    ensures UserMarks(rest, ua[alignIdx'..]) == UserMarks(rest, ua[alignIdx..])
  {
    alignIdx' := alignIdx;
    while alignIdx' < |ua| && ua[alignIdx'].kind == Missing
      invariant alignIdx <= alignIdx' <= |ua|
      invariant UserMarks(rest, ua[alignIdx'..]) == UserMarks(rest, ua[alignIdx..])
    {
      assert ua[alignIdx'..][1..] == ua[alignIdx' + 1..];
      if |rest| > 0 {
        UserMarksSkip(rest, ua[alignIdx'..]);
      }
      alignIdx' := alignIdx' + 1;
    }
  }

  /** The user-answer loop: copies removed characters, skips `missing`
      positions, and styles each kept character by the next position. */
  method BuildUserMarks(userAnswer: string, ua: seq<Entry>) returns (marks: seq<Piece>)
    ensures marks == UserMarks(userAnswer, ua)
    ensures KeptCount(userAnswer) == |KindsWithout(ua, Missing)| ==>
      Chars(marks) == userAnswer && Styles(marks) == UserStyles(KindsWithout(ua, Missing))
  {
    marks := [];
    var alignIdx := 0;
    var idx := 0;
    while idx < |userAnswer|
      invariant 0 <= idx <= |userAnswer| && 0 <= alignIdx <= |ua|
      invariant marks + UserMarks(userAnswer[idx..], ua[alignIdx..]) == UserMarks(userAnswer, ua)
    {
      var ch := userAnswer[idx];
      NormalizeChar(ch);
      if Normalize([ch]) == "" {
        UserStepRemoved(marks, userAnswer, idx, ua, alignIdx);
        marks := marks + [Plain(ch)];
        idx := idx + 1;
        continue;
      }
      alignIdx := SkipMissing(userAnswer[idx..], ua, alignIdx);
      UserStepKept(marks, userAnswer, idx, ua, alignIdx);
      if alignIdx < |ua| {
        marks := marks + [Marked(ch, UserStyle(ua[alignIdx].kind))];
        alignIdx := alignIdx + 1;
      }
      idx := idx + 1;
    }
    assert marks + [] == marks;
    // the trailing skip of `missing` positions produces no markup
    alignIdx := SkipMissing("", ua, alignIdx);
    if KeptCount(userAnswer) == |KindsWithout(ua, Missing)| {
      UserMarksChars(userAnswer, ua);
      UserMarksStyles(userAnswer, ua);
    }
  }

  lemma CorrectMarksExtra(s: string, es: seq<Entry>)
    requires (|s| == 0 || Kept(s[0])) && |es| > 0 && es[0].kind == Extra
    ensures CorrectMarks(s, es) == [Asterisk] + CorrectMarks(s, es[1..])
  {
  }

  lemma CorrectMarksNext(s: string, es: seq<Entry>)
    requires |s| > 0 && Kept(s[0]) && (|es| == 0 || es[0].kind != Extra)
    ensures CorrectMarks(s, es) == (if |es| > 0 then [Marked(s[0], CorrectStyle(es[0].kind))] else []) + CorrectMarks(s[1..], if |es| > 0 then es[1..] else es)
  {
  }

  lemma CorrectMarksEnd(es: seq<Entry>)
    requires |es| == 0 || es[0].kind != Extra
    ensures CorrectMarks("", es) == []
  {
  }

  lemma EmitOneExtra(marks: seq<Piece>, rest: string, ca: seq<Entry>, j: nat)
    requires j < |ca| && ca[j].kind == Extra && (|rest| == 0 || Kept(rest[0]))
    ensures marks + CorrectMarks(rest, ca[j..]) == (marks + [Asterisk]) + CorrectMarks(rest, ca[j + 1..])
  {
    assert ca[j..][1..] == ca[j + 1..];
    CorrectMarksExtra(rest, ca[j..]);
  }

  lemma CorrectStepRemoved(marks: seq<Piece>, s: string, i: nat, ca: seq<Entry>, j: nat)
    requires i < |s| && j <= |ca| && !Kept(s[i])
    ensures marks + CorrectMarks(s[i..], ca[j..]) == (marks + [Plain(s[i])]) + CorrectMarks(s[i + 1..], ca[j..])
  {
    assert s[i..][1..] == s[i + 1..];
  }

  lemma CorrectStepKept(marks: seq<Piece>, s: string, i: nat, ca: seq<Entry>, j: nat)
    requires i < |s| && j <= |ca| && Kept(s[i]) && (j == |ca| || ca[j].kind != Extra)
    ensures j < |ca| ==>
      marks + CorrectMarks(s[i..], ca[j..]) == (marks + [Marked(s[i], CorrectStyle(ca[j].kind))]) + CorrectMarks(s[i + 1..], ca[j + 1..])
    ensures j == |ca| ==> marks + CorrectMarks(s[i..], ca[j..]) == marks + CorrectMarks(s[i + 1..], ca[j..])
  {
    assert s[i..][1..] == s[i + 1..];
    CorrectMarksNext(s[i..], ca[j..]);
    if j < |ca| {
      assert ca[j..][1..] == ca[j + 1..];
    }
  }

  /** Writes one `*` for each `extra` position from `alignIdx` on, before
      the kept character that starts `rest` or at the end. */
  method EmitExtras(rest: string, ca: seq<Entry>, marks: seq<Piece>, alignIdx: nat) returns (marks': seq<Piece>, alignIdx': nat)
    requires alignIdx <= |ca| && (|rest| == 0 || Kept(rest[0]))
    ensures alignIdx <= alignIdx' <= |ca| && (alignIdx' == |ca| || ca[alignIdx'].kind != Extra)
    ensures marks' + CorrectMarks(rest, ca[alignIdx'..]) == marks + CorrectMarks(rest, ca[alignIdx..])
  {
    marks', alignIdx' := marks, alignIdx;
    while alignIdx' < |ca| && ca[alignIdx'].kind == Extra
      invariant alignIdx <= alignIdx' <= |ca|
      invariant marks' + CorrectMarks(rest, ca[alignIdx'..]) == marks + CorrectMarks(rest, ca[alignIdx..])
    {
      EmitOneExtra(marks', rest, ca, alignIdx');
      marks' := marks' + [Asterisk];
      alignIdx' := alignIdx' + 1;
    }
  }

  /** The correct-answer loop: copies removed characters, writes `*` for
      each `extra` position met before a kept character or at the end, and
      styles each kept character by the next position. */
  method BuildCorrectMarks(correctAnswer: string, ca: seq<Entry>) returns (marks: seq<Piece>)
    ensures marks == CorrectMarks(correctAnswer, ca)
  {
    marks := [];
    var alignIdx := 0;
    var idx := 0;
    while idx < |correctAnswer|
      invariant 0 <= idx <= |correctAnswer| && 0 <= alignIdx <= |ca|
      invariant marks + CorrectMarks(correctAnswer[idx..], ca[alignIdx..]) == CorrectMarks(correctAnswer, ca)
    {
      var ch := correctAnswer[idx];
      NormalizeChar(ch);
      if Normalize([ch]) == "" {
        CorrectStepRemoved(marks, correctAnswer, idx, ca, alignIdx);
        marks := marks + [Plain(ch)];
        idx := idx + 1;
        continue;
      }
      marks, alignIdx := EmitExtras(correctAnswer[idx..], ca, marks, alignIdx);
      CorrectStepKept(marks, correctAnswer, idx, ca, alignIdx);
      if alignIdx < |ca| {
        marks := marks + [Marked(ch, CorrectStyle(ca[alignIdx].kind))];
        alignIdx := alignIdx + 1;
      }
      idx := idx + 1;
    }
    marks, alignIdx := EmitExtras(correctAnswer[idx..], ca, marks, alignIdx);
    CorrectMarksEnd(ca[alignIdx..]);
    assert marks + [] == marks;
  }

  /** The correct-answer markup shows every character once, in order, one
      `*` per `extra` position, and the styles of the other positions. */
  lemma CorrectMarksShape(s: string, ca: seq<Entry>)
    ensures KeptCount(s) == |KindsWithout(ca, Extra)| ==>
      var marks := CorrectMarks(s, ca);
      Chars(marks) == s && Asterisks(marks) == CountKind(ca, Extra)
      && Styles(marks) == CorrectStyles(KindsWithout(ca, Extra))
  {
    if KeptCount(s) == |KindsWithout(ca, Extra)| {
      CorrectMarksChars(s, ca);
      CorrectMarksAsterisks(s, ca);
      CorrectMarksStyles(s, ca);
    }
  }

  /** `highlightAnswerDifferences`: both answers are shown in full, in
      order; the alignment is a cheapest one between the normalised
      answers; the user's kept characters are styled by the user side of
      the alignment; and the correct answer carries one `*` per character
      the user typed in excess. */
  method HighlightAnswerDifferences(userAnswer: string, correctAnswer: string)
    returns (userMarks: seq<Piece>, correctMarks: seq<Piece>)
    ensures Chars(userMarks) == userAnswer && Chars(correctMarks) == correctAnswer
    ensures var a := Align(Normalize(userAnswer), Normalize(correctAnswer), |Normalize(userAnswer)|, |Normalize(correctAnswer)|);
      Mismatches(a.0) == Dist(Normalize(userAnswer), Normalize(correctAnswer))
      && Styles(userMarks) == UserStyles(KindsWithout(a.0, Missing))
      && Styles(correctMarks) == CorrectStyles(KindsWithout(a.1, Extra))
      && Asterisks(correctMarks) == CountKind(a.1, Extra)
  {
    var normalizedUser := Normalize(userAnswer);
    var normalizedCorrect := Normalize(correctAnswer);
    var dp := EditDistanceTable(normalizedUser, normalizedCorrect);
    var ua, ca := Backtrack(normalizedUser, normalizedCorrect, dp);
    AlignCounts(normalizedUser, normalizedCorrect, |normalizedUser|, |normalizedCorrect|);
    AlignCost(normalizedUser, normalizedCorrect, |normalizedUser|, |normalizedCorrect|);
    NormalizeLength(userAnswer);
    NormalizeLength(correctAnswer);
    userMarks := BuildUserMarks(userAnswer, ua);
    correctMarks := BuildCorrectMarks(correctAnswer, ca);
    CorrectMarksShape(correctAnswer, ca);
  }

  // ---------------------------------------------------------------------
  // an answer that normalises to the correct one

  predicate AllCorrect(ss: seq<Style>) {
    forall n :: 0 <= n < |ss| ==> ss[n] == Correct
  }

  predicate AllMatch(es: seq<Entry>) {
    forall n :: 0 <= n < |es| ==> es[n].kind == Match
  }

  /** A string aligned with itself matches at every position. */
  lemma {:induction false} AlignSame(u: string, i: nat)
    requires i <= |u|
    ensures AllMatch(Align(u, u, i, i).0) && AllMatch(Align(u, u, i, i).1)
  {
    if i > 0 {
      AlignSame(u, i - 1);
      AlignUnfold(u, u, i, i);
      assert Step(u, u, i, i) == Match;
    }
  }

  lemma {:induction false} MatchesCountNoExtra(es: seq<Entry>)
    requires AllMatch(es)
    ensures CountKind(es, Extra) == 0
    ensures AllCorrect(UserStyles(KindsWithout(es, Missing)))
    ensures AllCorrect(CorrectStyles(KindsWithout(es, Extra)))
  {
    if |es| > 0 {
      assert AllMatch(es[1..]);
      MatchesCountNoExtra(es[1..]);
    }
  }

  /** An answer equal to the correct one after normalisation is marked
      entirely correct: every styled character is `Correct` on both sides
      and no `*` appears. */
  lemma HighlightEqual(userAnswer: string, correctAnswer: string)
    requires Normalize(userAnswer) == Normalize(correctAnswer)
    ensures var nu := Normalize(userAnswer);
      var a := Align(nu, nu, |nu|, |nu|);
      AllCorrect(Styles(UserMarks(userAnswer, a.0)))
      && AllCorrect(Styles(CorrectMarks(correctAnswer, a.1)))
      && Asterisks(CorrectMarks(correctAnswer, a.1)) == 0
  {
    var nu := Normalize(userAnswer);
    var a := Align(nu, nu, |nu|, |nu|);
    AlignSame(nu, |nu|);
    AlignCounts(nu, nu, |nu|, |nu|);
    MatchesCountNoExtra(a.0);
    MatchesCountNoExtra(a.1);
    NormalizeLength(userAnswer);
    NormalizeLength(correctAnswer);
    UserMarksStyles(userAnswer, a.0);
    CorrectMarksAsterisks(correctAnswer, a.1);
    CorrectMarksStyles(correctAnswer, a.1);
  }
}
