/** The word-list text format: one card per line, `question | answer | …`,
    with `#` comment lines and blank lines ignored. These are the line
    rules shared by the textarea sync, the text import, the statistics,
    the review scope, card deletion and card editing. */
module WordList {
  import opened Seqs
  import opened Wrappers
  import opened Text

  function Lines(text: string): (r: seq<string>)
    ensures |r| >= 1
  {
    Split(text, '\n')
  }

  function TrimAll(xs: seq<string>): (r: seq<string>)
    ensures |r| == |xs|
    ensures forall k :: 0 <= k < |r| ==> r[k] == Trim(xs[k])
  {
    seq(|xs|, k requires 0 <= k < |xs| => Trim(xs[k]))
  }

  lemma TrimAllCons(h: string, t: seq<string>)
    ensures TrimAll([h] + t) == [Trim(h)] + TrimAll(t)
  {
    var l, r := TrimAll([h] + t), [Trim(h)] + TrimAll(t);
    forall k | 0 <= k < |l| ensures l[k] == r[k] {
      if k > 0 {
        assert ([h] + t)[k] == t[k - 1];
      }
    }
  }

  function NonEmpty(s: string): bool {
    |s| > 0
  }

  /** A line the parsers skip outright: blank after trimming, or a comment. */
  predicate IsSkipped(line: string) {
    var t := Trim(line);
    StartsWith(t, "#") || t == ""
  }

  /** `line.split('|').map(part => part.trim()).filter(part => part)`. */
  function Fields(line: string): (r: seq<string>)
    ensures forall k :: 0 <= k < |r| ==> r[k] != "" && IsTrimmed(r[k]) && '|' !in r[k]
  {
    var parts := TrimAll(Split(line, '|'));
    forall k | 0 <= k < |parts| ensures '|' !in parts[k] {
      assert parts[k] == Trim(Split(line, '|')[k]);
    }
    Filter(parts, NonEmpty)
  }

  /** The card a line defines, as its answer list (the question first), or
      `None` for a line the sync and the import skip. */
  function ParseLine(line: string): (r: Option<seq<string>>)
    ensures r.Some? <==> !IsSkipped(line) && |Fields(line)| >= 2
    ensures r.Some? ==> r.value == Fields(line)
  {
    if IsSkipped(line) then None
    else
      var parts := Fields(line);
      if |parts| < 2 then None else Some(parts)
  }

  /** `line.split('|')[0].trim()`: the question as the statistics, the
      review scope, deletion and editing see it. */
  function FirstField(line: string): string {
    Trim(Split(line, '|')[0])
  }

  /** The first fields of the non-blank, non-comment lines of the trimmed
      text, in order: the textarea review scope. */
  function ListedQuestions(text: string): (r: seq<string>)
    ensures |r| <= |Lines(Trim(text))|
  {
    var kept := Filter(Lines(Trim(text)), (line: string) => !IsSkipped(line));
    seq(|kept|, k requires 0 <= k < |kept| => FirstField(kept[k]))
  }

  // ---------------------------------------------------------------------
  // deleting and rewriting lines

  function KeptOnDelete(q: string): string -> bool {
    line => IsSkipped(line) || FirstField(line) != q
  }

  /** The text after deleting question `q`: comment and blank lines stay,
      and so does every line whose first field is not `q`. */
  function DeleteLines(text: string, q: string): string {
    Join(Filter(Lines(text), KeptOnDelete(q)), "\n")
  }

  /** One line after renaming `oldQuestion`: comment lines are kept, and a
      line whose first field is `oldQuestion` becomes the new answer list. */
  function RewriteLine(line: string, oldQuestion: string, newAnswers: seq<string>): string {
    if StartsWith(Trim(line), "#") then line
    else if FirstField(line) == oldQuestion then Join(newAnswers, " | ")
    else line
  }

  function RewriteLines(text: string, oldQuestion: string, newAnswers: seq<string>): string {
    var lines := Lines(text);
    Join(seq(|lines|, k requires 0 <= k < |lines| => RewriteLine(lines[k], oldQuestion, newAnswers)), "\n")
  }

  // ---------------------------------------------------------------------
  // properties

  lemma {:induction false} JoinFirst(xs: seq<string>, sep: string)
    requires |xs| >= 1
    ensures Join(xs, sep) == xs[0] + (if |xs| == 1 then "" else sep + Join(xs[1..], sep))
  {
    if |xs| == 1 {
      assert xs[0] + "" == xs[0];
    }
  }

  lemma {:induction false} JoinLast(xs: seq<string>, sep: string)
    requires |xs| >= 1
    ensures Join(xs, sep) == (if |xs| == 1 then "" else Join(xs[..|xs| - 1], sep) + sep) + xs[|xs| - 1]
    decreases |xs|
  {
    if |xs| > 2 {
      JoinLast(xs[1..], sep);
      assert xs[1..][..|xs| - 2] == xs[..|xs| - 1][1..];
    } else if |xs| == 2 {
      assert xs[..1] == [xs[0]];
    }
  }

  /** A list of non-empty, trimmed fields joined with any separator
      starting and ending with them is a trimmed line that starts with the
      first field. */
  lemma JoinTrimmed(xs: seq<string>, sep: string)
    requires |xs| >= 1
    requires forall k :: 0 <= k < |xs| ==> xs[k] != "" && IsTrimmed(xs[k])
    ensures IsTrimmed(Join(xs, sep))
    ensures StartsWith(Join(xs, sep), "#") <==> StartsWith(xs[0], "#")
  {
    JoinFirst(xs, sep);
    JoinLast(xs, sep);
    var j := Join(xs, sep);
    assert j[0] == xs[0][0];
    assert j[|j| - 1] == xs[|xs| - 1][|xs[|xs| - 1]| - 1];
  }

  lemma NoBarInWhitespace(w: string)
    requires AllWhitespace(w)
    ensures '|' !in w
  {
  }

  /** Splitting a padded join at `|` and trimming the parts gives the
      fields back. */
  lemma {:induction false} SplitPaddedJoin(w: string, xs: seq<string>, l: string, r: string)
    requires AllWhitespace(w) && AllWhitespace(l) && AllWhitespace(r)
    requires |xs| >= 1
    requires forall k :: 0 <= k < |xs| ==> IsTrimmed(xs[k]) && '|' !in xs[k]
    ensures TrimAll(Split(w + Join(xs, l + "|" + r), '|')) == xs
    decreases |xs|
  {
    var sep := l + "|" + r;
    JoinFirst(xs, sep);
    if |xs| == 1 {
      assert w + Join(xs, sep) == w + xs[0];
      SplitPaddedLast(w, xs[0]);
    } else {
      var rest := Join(xs[1..], sep);
      assert w + Join(xs, sep) == (w + xs[0] + l) + ['|'] + (r + rest);
      SplitPaddedHead(w, xs[0], l, r + rest);
      SplitPaddedJoin(r, xs[1..], l, r);
      assert xs == [xs[0]] + xs[1..];
    }
  }

  /** The last part of a padded join. */
  lemma SplitPaddedLast(w: string, x: string)
    requires AllWhitespace(w) && IsTrimmed(x) && '|' !in x
    ensures TrimAll(Split(w + x, '|')) == [x]
  {
    NoBarInWhitespace(w);
    assert '|' !in w + x;
    SplitWhole(w + x, '|');
    TrimLeading(w, x);
  }

  /** The first part of a padded join, up to the first `|`. */
  lemma SplitPaddedHead(w: string, x: string, l: string, tail: string)
    requires AllWhitespace(w) && AllWhitespace(l) && IsTrimmed(x) && '|' !in x
    ensures TrimAll(Split((w + x + l) + ['|'] + tail, '|')) == [x] + TrimAll(Split(tail, '|'))
  {
    NoBarInWhitespace(w);
    NoBarInWhitespace(l);
    var head := w + x + l;
    assert Split(head + ['|'] + tail, '|') == [head] + Split(tail, '|') by {
      assert '|' !in head;
      SplitAtSeparator(head, tail, '|');
    }
    assert Trim(head) == x by {
      TrimPadded(w, x, l);
      TrimOfTrimmed(x);
    }
    TrimAllCons(head, Split(tail, '|'));
  }

  /** Fields that are non-empty, trimmed and free of `|` and that do not
      start a comment survive a round trip through a line joined with
      `l + "|" + r`, for white-space padding `l` and `r` (`"|"` in the export
      format, `" | "` in the edit rewrite). */
  lemma ParseJoinedLine(xs: seq<string>, l: string, r: string)
    requires AllWhitespace(l) && AllWhitespace(r)
    requires |xs| >= 2
    requires forall k :: 0 <= k < |xs| ==> xs[k] != "" && IsTrimmed(xs[k]) && '|' !in xs[k]
    requires !StartsWith(xs[0], "#")
    ensures ParseLine(Join(xs, l + "|" + r)) == Some(xs)
    ensures FirstField(Join(xs, l + "|" + r)) == xs[0]
  {
    var line := Join(xs, l + "|" + r);
    assert TrimAll(Split(line, '|')) == xs by {
      SplitPaddedJoin("", xs, l, r);
      assert "" + line == line;
    }
    assert Fields(line) == xs by {
      FilterAll(xs, NonEmpty);
    }
    assert Trim(line) == line && line != [] && !StartsWith(line, "#") by {
      JoinTrimmed(xs, l + "|" + r);
      TrimOfTrimmed(line);
      JoinFirst(xs, l + "|" + r);
    }
  }

  /** Deleting a question removes exactly the lines that define it under
      their first field and leaves every other line, in order. */
  lemma DeleteLinesSpec(text: string, q: string)
    ensures var kept := Filter(Lines(text), KeptOnDelete(q));
      Lines(DeleteLines(text, q)) == if kept == [] then [""] else kept
  {
    var kept := Filter(Lines(text), KeptOnDelete(q));
    if kept != [] {
      forall k | 0 <= k < |kept| ensures '\n' !in kept[k] {
        assert kept[k] in Lines(text);
      }
      SplitJoin(kept, '\n');
    }
  }

  /** The rewrite keeps the line count and rewrites line by line, provided
      the new answers hold no line break. */
  lemma RewriteLinesSpec(text: string, oldQuestion: string, newAnswers: seq<string>)
    requires forall k :: 0 <= k < |newAnswers| ==> '\n' !in newAnswers[k]
    ensures var lines := Lines(text);
      var out := Lines(RewriteLines(text, oldQuestion, newAnswers));
      |out| == |lines|
      && forall k :: 0 <= k < |lines| ==> out[k] == RewriteLine(lines[k], oldQuestion, newAnswers)
  {
    var lines := Lines(text);
    var mapped := seq(|lines|, k requires 0 <= k < |lines| => RewriteLine(lines[k], oldQuestion, newAnswers));
    forall k | 0 <= k < |mapped| ensures '\n' !in mapped[k] {
      if mapped[k] != lines[k] {
        JoinNoBreak(newAnswers);
      }
    }
    SplitJoin(mapped, '\n');
  }

  lemma {:induction false} JoinNoBreak(xs: seq<string>)
    requires forall k :: 0 <= k < |xs| ==> '\n' !in xs[k]
    ensures '\n' !in Join(xs, " | ")
    decreases |xs|
  {
    if |xs| > 1 {
      JoinNoBreak(xs[1..]);
    }
  }

  /** The separator of the edit form and of rewritten lines is a bar
      padded with one space on each side. */
  lemma SpacedBar()
    ensures " | " == " " + "|" + " " && AllWhitespace(" ")
  {
  }

  /** Fields joined with a padded bar form a trimmed, non-empty string
      that splits back into the same fields. */
  lemma JoinedFieldsReadBack(xs: seq<string>, l: string, r: string)
    requires AllWhitespace(l) && AllWhitespace(r)
    requires |xs| >= 1
    requires forall k :: 0 <= k < |xs| ==> xs[k] != "" && IsTrimmed(xs[k]) && '|' !in xs[k]
    ensures var joined := Join(xs, l + "|" + r);
      joined != "" && Trim(joined) == joined && Fields(joined) == xs
  {
    JoinedTrimmed(xs, l + "|" + r);
    JoinedSplitsBack(xs, l, r);
    FieldsOfClean(Join(xs, l + "|" + r), xs);
  }

  lemma JoinedTrimmed(xs: seq<string>, sep: string)
    requires |xs| >= 1
    requires forall k :: 0 <= k < |xs| ==> xs[k] != "" && IsTrimmed(xs[k])
    ensures Join(xs, sep) != "" && Trim(Join(xs, sep)) == Join(xs, sep)
  {
    JoinTrimmed(xs, sep);
    TrimOfTrimmed(Join(xs, sep));
    JoinFirst(xs, sep);
  }

  lemma JoinedSplitsBack(xs: seq<string>, l: string, r: string)
    requires AllWhitespace(l) && AllWhitespace(r)
    requires |xs| >= 1
    requires forall k :: 0 <= k < |xs| ==> IsTrimmed(xs[k]) && '|' !in xs[k]
    ensures TrimAll(Split(Join(xs, l + "|" + r), '|')) == xs
  {
    SplitPaddedJoin("", xs, l, r);
    assert "" + Join(xs, l + "|" + r) == Join(xs, l + "|" + r);
  }

  /** A line whose trimmed parts are all non-empty has them as its fields. */
  lemma FieldsOfClean(line: string, xs: seq<string>)
    requires TrimAll(Split(line, '|')) == xs
    requires forall k :: 0 <= k < |xs| ==> xs[k] != ""
    ensures Fields(line) == xs
  {
    FilterAll(xs, NonEmpty);
  }

  /** The rewrite of an edit: every line that defined the old question
      becomes the new answer list and reads back as exactly those answers,
      provided the answers are fields as the parser makes them, the first
      does not start a comment, and none holds a line break. */
  lemma RewrittenLinesParse(wordList: string, oldQuestion: string, newAnswers: seq<string>)
    requires |newAnswers| >= 2 && !StartsWith(newAnswers[0], "#")
    requires forall k :: 0 <= k < |newAnswers| ==>
      newAnswers[k] != "" && IsTrimmed(newAnswers[k]) && '|' !in newAnswers[k] && '\n' !in newAnswers[k]
    ensures var lines := Lines(wordList);
      var out := Lines(RewriteLines(wordList, oldQuestion, newAnswers));
      && |out| == |lines|
      && forall k :: 0 <= k < |lines| ==>
           if !StartsWith(Trim(lines[k]), "#") && FirstField(lines[k]) == oldQuestion
           then ParseLine(out[k]) == Some(newAnswers) && FirstField(out[k]) == newAnswers[0]
           else out[k] == lines[k]
  {
    RewriteLinesSpec(wordList, oldQuestion, newAnswers);
    SpacedBar();
    ParseJoinedLine(newAnswers, " ", " ");
  }
}
