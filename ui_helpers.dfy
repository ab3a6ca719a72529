/** The counting and ordering behind the page's displays: the statistics
    under the word list, the status order of a card, the sorting, tabs and
    counts of the card list, the unit an interval is shown in, and the
    state of the sortable column headers. */
module UiHelpers {
  import opened Wrappers
  import opened Seqs
  import opened Text
  import opened Sorting
  import opened OrderedMap
  import opened WordList
  import opened Scheduler
  import opened CardManager
  import opened ReviewSession
  import opened FileOperations

  // ---------------------------------------------------------------------
  // statistics of the word list

  /** A line the statistics count: not blank, not a comment, and with at
      least two non-empty fields. */
  predicate Counted(line: string) {
    !IsSkipped(line) && |Fields(line)| >= 2
  }

  function IsCounted(): string -> bool {
    line => Counted(line)
  }

  /** The counted lines are exactly those a sync or an import reads as a
      card. */
  lemma CountedParses(line: string)
    ensures Counted(line) <==> ParseLine(line).Some?
  {
  }

  datatype Stats = Stats(total: nat, newCount: nat, learned: nat, suspended: nat, starred: nat)

  /** The counters after one more counted line, whose first field is
      `question`: a card of the store is counted as suspended, else new when
      it was never repeated, else learned, and separately as starred; an
      unknown question is new. */
  function Counting(s: Stats, m: OMap<Card>, question: string): Stats {
    var s1 := s.(total := s.total + 1);
    match Get(m, question)
    case None => s1.(newCount := s1.newCount + 1)
    case Some(card) =>
      var s2 := if card.isStarred then s1.(starred := s1.starred + 1) else s1;
      if card.isSuspended then s2.(suspended := s2.suspended + 1)
      else if card.repetitions == 0 then s2.(newCount := s2.newCount + 1)
      else s2.(learned := s2.learned + 1)
  }

  /** The counters over a list of counted lines. Every line falls in
      exactly one of new, learned and suspended, so those three add up to
      the total; starred is counted on the side. */
  function Tally(m: OMap<Card>, lines: seq<string>): (s: Stats)
    ensures s.total == |lines|
    ensures s.newCount + s.learned + s.suspended == s.total
    ensures s.starred <= s.total
    decreases |lines|
  {
    if |lines| == 0 then Stats(0, 0, 0, 0, 0)
    else
      var s := Tally(m, lines[..|lines| - 1]);
      var question := FirstField(lines[|lines| - 1]);
      CountingStep(s, m, question);
      Counting(s, m, question)
  }

  /** One more line adds one to the total and to exactly one of new,
      learned and suspended, and at most one to starred. */
  lemma CountingStep(s: Stats, m: OMap<Card>, question: string)
    ensures var r := Counting(s, m, question);
      && r.total == s.total + 1
      && r.newCount + r.learned + r.suspended == s.newCount + s.learned + s.suspended + 1
      && s.starred <= r.starred <= s.starred + 1
  {
  }

  /** What `updateTextareaStats` shows, or `None` when the trimmed word
      list is empty and the statistics are hidden. */
  function TextStats(m: OMap<Card>, wordList: string): Option<Stats> {
    var text := Trim(wordList);
    if text == "" then None else Some(Tally(m, Filter(Lines(text), IsCounted())))
  }

  /** With no stored card for any counted line, every line is new. */
  lemma {:induction false} TallyAllNew(m: OMap<Card>, lines: seq<string>)
    requires forall k :: 0 <= k < |lines| ==> FirstField(lines[k]) !in m.entries
    ensures Tally(m, lines).newCount == |lines| && Tally(m, lines).starred == 0
    decreases |lines|
  {
    if |lines| > 0 {
      TallyAllNew(m, lines[..|lines| - 1]);
    }
  }

  /** The lines whose question is a suspended card of the store. */
  function OfSuspended(m: OMap<Card>): string -> bool {
    line => FirstField(line) in m.entries && m.entries[FirstField(line)].isSuspended
  }

  /** Every counted line defining a suspended stored card counts as
      suspended, and nothing else does. */
  lemma {:induction false} TallySuspended(m: OMap<Card>, lines: seq<string>)
    ensures Tally(m, lines).suspended == |Filter(lines, OfSuspended(m))|
    decreases |lines|
  {
    if |lines| > 0 {
      var last := lines[|lines| - 1];
      TallySuspended(m, lines[..|lines| - 1]);
      CountingSuspended(Tally(m, lines[..|lines| - 1]), m, FirstField(last));
      assert OfSuspended(m)(last) <==> FirstField(last) in m.entries && m.entries[FirstField(last)].isSuspended;
    }
  }

  lemma CountingSuspended(s: Stats, m: OMap<Card>, question: string)
    ensures Counting(s, m, question).suspended ==
      s.suspended + if question in m.entries && m.entries[question].isSuspended then 1 else 0
  {
  }

  /** `updateTextareaStats`: the lines are filtered first and then counted
      one by one. */
  method UpdateTextareaStats(m: OMap<Card>, wordList: string) returns (stats: Option<Stats>)
    ensures stats == TextStats(m, wordList)
  {
    var text := Trim(wordList);
    if text == "" {
      return None;
    }
    var lines := Filter(Lines(text), IsCounted());
    var counts := CountLines(m, lines);
    return Some(counts);
  }

  /** The `forEach` of `updateTextareaStats` over the counted lines. */
  method CountLines(m: OMap<Card>, lines: seq<string>) returns (stats: Stats)
    ensures stats == Tally(m, lines)
  {
    var totalCount := |lines|;
    var newCount, learnedCount, suspendedCount, starredCount := 0, 0, 0, 0;
    var i := 0;
    while i < |lines|
      invariant 0 <= i <= |lines|
      invariant Stats(i, newCount, learnedCount, suspendedCount, starredCount) == Tally(m, lines[..i])
    {
      var line := lines[i];
      var question := FirstField(line);
      ghost var before := Stats(i, newCount, learnedCount, suspendedCount, starredCount);
      assert lines[..i + 1][..i] == lines[..i];
      assert Tally(m, lines[..i + 1]) == Counting(before, m, question);
      if question in m.entries {
        var card := m.entries[question];
        if card.isStarred {
          starredCount := starredCount + 1;
        }
        if card.isSuspended {
          suspendedCount := suspendedCount + 1;
        } else if card.repetitions == 0 {
          newCount := newCount + 1;
        } else {
          learnedCount := learnedCount + 1;
        }
      } else {
        newCount := newCount + 1;
      }
      assert Stats(i + 1, newCount, learnedCount, suspendedCount, starredCount) == Counting(before, m, question);
      i := i + 1;
    }
    assert lines[..i] == lines;
    return Stats(totalCount, newCount, learnedCount, suspendedCount, starredCount);
  }

  // ---------------------------------------------------------------------
  // status of a card

  /** `getStatusOrder`: suspended 3; otherwise never repeated 0; otherwise
      due 1; otherwise 2. */
  function StatusOrder(c: Card, now: int): (o: int)
    ensures 0 <= o <= 3
  {
    if c.isSuspended then 3
    else if c.repetitions == 0 then 0
    else if c.nextReviewDate <= now then 1
    else 2
  }

  /** The status order agrees with the selection of due cards: the orders
      0 and 1 are exactly the cards `getDueCards` picks, 3 exactly the
      suspended ones, and 0 exactly the active cards never repeated. */
  lemma StatusOrderMeaning(c: Card, now: int)
    ensures StatusOrder(c, now) <= 1 <==> IsDue(c, now)
    ensures StatusOrder(c, now) == 3 <==> !IsActive(c)
    ensures StatusOrder(c, now) == 0 <==> IsActive(c) && c.repetitions == 0
    ensures StatusOrder(c, now) == 2 <==> IsActive(c) && c.repetitions != 0 && now < c.nextReviewDate
  {
  }

  // ---------------------------------------------------------------------
  // sorting the card list

  datatype Direction = Asc | Desc

  /** The columns compared as numbers. */
  predicate IsNumericColumn(column: string) {
    column == "nextReview" || column == "interval" || column == "efactor" || column == "mistakes"
    || column == "status"
  }

  /** The number a numeric column compares: `efactor || 2.5` turns an ease
      of 0 into 2.5; the interval and the mistakes fall back to 0, which
      changes nothing for integers. */
  function NumericKey(c: Card, column: string, now: int): real {
    if column == "nextReview" then c.nextReviewDate as real
    else if column == "interval" then c.interval as real
    else if column == "efactor" then (if c.efactor == 0.0 then 2.5 else c.efactor)
    else if column == "mistakes" then c.totalMistakes as real
    else if column == "status" then StatusOrder(c, now) as real
    else 0.0
  }

  /** The answers column shows and compares the alternates joined by a
      padded bar. */
  function AnswersText(c: Card): string {
    Join(Alternates(c.answers), " | ")
  }

  /** The comparator `sortCards` hands to `Array.prototype.sort`. The
      text columns use `localeCompare`, a parameter here. */
  function CardComparator(column: string, direction: Direction, now: int, localeCompare: (string, string) -> real)
    : (Card, Card) -> real
  {
    (a: Card, b: Card) =>
      if IsNumericColumn(column) then
        (if direction == Asc then NumericKey(a, column, now) - NumericKey(b, column, now)
         else NumericKey(b, column, now) - NumericKey(a, column, now))
      else if column == "question" then
        (if direction == Asc then localeCompare(a.question, b.question) else localeCompare(b.question, a.question))
      else if column == "answers" then
        (if direction == Asc then localeCompare(AnswersText(a), AnswersText(b))
         else localeCompare(AnswersText(b), AnswersText(a)))
      else 0.0
  }

  /** `sortCards`: a sorted copy. `Array.prototype.sort` is stable, as the
      insertion sort standing for it here. */
  function SortCards(cards: seq<Card>, column: string, direction: Direction, now: int,
                     localeCompare: (string, string) -> real): (r: seq<Card>)
    ensures multiset(r) == multiset(cards) && |r| == |cards|
  {
    SortBy(cards, CardComparator(column, direction, now, localeCompare))
  }

  /** A numeric column compares as a comparator in both directions. */
  lemma NumericComparator(column: string, direction: Direction, now: int, localeCompare: (string, string) -> real)
    requires IsNumericColumn(column)
    ensures IsComparator(CardComparator(column, direction, now, localeCompare))
  {
    var cmp := CardComparator(column, direction, now, localeCompare);
    forall a: Card, b: Card ensures cmp(b, a) == -cmp(a, b) {
    }
    forall a: Card, b: Card, c: Card | cmp(a, b) <= 0.0 && cmp(b, c) <= 0.0
      ensures cmp(a, c) <= 0.0
    {
    }
  }

  /** Sorting by a numeric column orders the cards by that column's number,
      rising for `asc` and falling for `desc`. */
  lemma SortCardsByNumber(cards: seq<Card>, column: string, direction: Direction, now: int,
                          localeCompare: (string, string) -> real)
    requires IsNumericColumn(column)
    ensures var r := SortCards(cards, column, direction, now, localeCompare);
      forall i, j :: 0 <= i < j < |r| ==>
        if direction == Asc then NumericKey(r[i], column, now) <= NumericKey(r[j], column, now)
        else NumericKey(r[i], column, now) >= NumericKey(r[j], column, now)
  {
    var cmp := CardComparator(column, direction, now, localeCompare);
    NumericComparator(column, direction, now, localeCompare);
    SortBySorted(cards, cmp);
  }

  /** A text column sorts by `localeCompare`, provided that is a
      comparator itself. */
  lemma SortCardsByText(cards: seq<Card>, direction: Direction, now: int, localeCompare: (string, string) -> real)
    requires IsComparator(localeCompare)
    ensures var r := SortCards(cards, "question", direction, now, localeCompare);
      forall i, j :: 0 <= i < j < |r| ==>
        if direction == Asc then localeCompare(r[i].question, r[j].question) <= 0.0
        else localeCompare(r[j].question, r[i].question) <= 0.0
  {
    var cmp := CardComparator("question", direction, now, localeCompare);
    assert !IsNumericColumn("question");
    assert forall a: Card, b: Card ::
      cmp(a, b) == if direction == Asc then localeCompare(a.question, b.question) else localeCompare(b.question, a.question);
    forall a: Card, b: Card ensures cmp(b, a) == -cmp(a, b) {
      assert localeCompare(b.question, a.question) == -localeCompare(a.question, b.question);
    }
    forall a: Card, b: Card, c: Card | cmp(a, b) <= 0.0 && cmp(b, c) <= 0.0
      ensures cmp(a, c) <= 0.0
    {
      if direction == Asc {
        assert localeCompare(a.question, b.question) <= 0.0 && localeCompare(b.question, c.question) <= 0.0;
      } else {
        assert localeCompare(c.question, b.question) <= 0.0 && localeCompare(b.question, a.question) <= 0.0;
      }
    }
    SortBySorted(cards, cmp);
  }

  /** An unknown column compares every pair as equal and keeps the order. */
  lemma SortCardsUnknownColumn(cards: seq<Card>, column: string, direction: Direction, now: int,
                               localeCompare: (string, string) -> real)
    requires column != "question" && column != "answers" && !IsNumericColumn(column)
    ensures SortCards(cards, column, direction, now, localeCompare) == cards
  {
    SortByNeutral(cards, CardComparator(column, direction, now, localeCompare));
  }

  // ---------------------------------------------------------------------
  // tabs and counts of the card list

  /** The cards the list starts from: for the `current` view the stored
      cards whose question is the first field of a non-blank, non-comment
      line of the word list; for any other view every stored card. */
  function SourceCards(m: OMap<Card>, viewType: string, wordList: string): seq<Card>
    requires OrderedMap.Valid(m)
  {
    if viewType == "current" then Filter(Values(m), Listed(ListedQuestions(wordList)))
    else Values(m)
  }

  datatype TabCounts = TabCounts(active: nat, suspended: nat, starred: nat)

  /** The three numbers on the filter tabs. */
  function TabCountsOf(source: seq<Card>): TabCounts {
    TabCounts(|Filter(source, TabSelects("active"))|, |Filter(source, TabSelects("suspended"))|,
              |Filter(source, TabSelects("starred"))|)
  }

  /** The cards of the chosen tab. */
  function FilteredCards(source: seq<Card>, filterType: string): seq<Card> {
    Filter(source, TabSelects(filterType))
  }

  lemma {:induction false} FilterSame<T>(s: seq<T>, p: T -> bool, q: T -> bool)
    requires forall x :: p(x) == q(x)
    ensures Filter(s, p) == Filter(s, q)
    decreases |s|
  {
    if |s| > 0 {
      FilterSame(s[..|s| - 1], p, q);
    }
  }

  /** The active and suspended tabs split the source, and the list shows
      as many cards as the number on the chosen tab: `suspended` and
      `starred` their own, every other tab the active one's. */
  lemma TabCountsAgree(source: seq<Card>, filterType: string)
    ensures var n := TabCountsOf(source);
      && n.active + n.suspended == |source|
      && n.starred <= |source|
      && |FilteredCards(source, filterType)|
         == if filterType == "suspended" then n.suspended
            else if filterType == "starred" then n.starred
            else n.active
  {
    FilterComplement(source, TabSelects("suspended"), TabSelects("active"));
    if filterType != "suspended" && filterType != "starred" {
      FilterSame(source, TabSelects(filterType), TabSelects("active"));
    }
  }

  /** The `current` view holds exactly the stored cards listed in the word
      list. */
  lemma SourceCardsCurrent(m: OMap<Card>, wordList: string)
    requires OrderedMap.Valid(m)
    ensures forall c :: c in SourceCards(m, "current", wordList) <==>
      c in Values(m) && c.question in ListedQuestions(wordList)
  {
  }

  // ---------------------------------------------------------------------
  // interval display

  datatype IntervalUnit = Minutes | Hours | Days

  function UnitMinutes(u: IntervalUnit): real {
    match u
    case Minutes => 1.0
    case Hours => 60.0
    case Days => 1440.0
  }

  /** The unit and amount an interval in minutes is shown with: minutes
      below an hour, hours below a day, days from then on. The rounding to
      one decimal is display only. */
  function IntervalDisplay(interval: int): (d: (IntervalUnit, real))
    ensures d.1 * UnitMinutes(d.0) == interval as real
    ensures d.0 == Minutes <==> interval < 60
    ensures d.0 == Hours <==> 60 <= interval < 1440
    ensures d.0 == Days <==> 1440 <= interval
    ensures d.0 == Hours ==> 1.0 <= d.1 < 24.0
    ensures d.0 == Days ==> 1.0 <= d.1
  {
    if interval < 60 then (Minutes, interval as real)
    else if interval < 1440 then (Hours, interval as real / 60.0)
    else (Days, interval as real / 1440.0)
  }

  // ---------------------------------------------------------------------
  // sortable headers

  /** The column the list is sorted by, if any, and the direction. */
  datatype SortView = SortView(column: Option<string>, direction: Direction)

  function Flipped(d: Direction): Direction {
    if d == Asc then Desc else Asc
  }

  /** A click on a header: the same column flips the direction, another
      column becomes the sort column, ascending. */
  function HeaderClicked(v: SortView, column: string): (r: SortView)
    ensures r.column == Some(column)
  {
    if v.column == Some(column) then v.(direction := Flipped(v.direction))
    else SortView(Some(column), Asc)
  }

  /** Two clicks on the sort column restore the view; a click on a new
      column sorts ascending, and a second click descending. */
  lemma HeaderClickedTwice(v: SortView, column: string)
    ensures v.column == Some(column) ==> HeaderClicked(HeaderClicked(v, column), column) == v
    ensures v.column != Some(column) ==>
      HeaderClicked(v, column).direction == Asc && HeaderClicked(HeaderClicked(v, column), column).direction == Desc
    ensures v.column == Some(column) ==> HeaderClicked(v, column).direction != v.direction
  {
  }

  /** The list's order: by the sort column when there is one, otherwise by
      review date. */
  function ModalOrder(v: SortView, cards: seq<Card>, now: int, localeCompare: (string, string) -> real): (r: seq<Card>)
    ensures multiset(r) == multiset(cards)
  {
    match v.column
    case Some(column) => SortCards(cards, column, v.direction, now, localeCompare)
    case None => SortCards(cards, "nextReview", Asc, now, localeCompare)
  }

  /** `currentSortColumn` and `currentSortDirection`, the closure state
      of the card list. */
  class SortHeaders {
    var column: Option<string>
    var direction: Direction

    function View(): SortView
      reads this
    {
      SortView(column, direction)
    }

    constructor ()
      ensures View() == SortView(None, Asc)
    {
      column := None;
      direction := Asc;
    }

    /** The click handler of a sortable header. */
    method Click(header: string)
      modifies this
      ensures View() == HeaderClicked(old(View()), header)
    {
      if column == Some(header) {
        direction := if direction == Asc then Desc else Asc;
      } else {
        column := Some(header);
        direction := Asc;
      }
    }

    /** `showAllCardsModal`: the list opens unsorted, ascending. */
    method Open()
      modifies this
      ensures View() == SortView(None, Asc)
    {
      column := None;
      direction := Asc;
    }
  }
}
