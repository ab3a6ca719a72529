/** The long-term schedule of a card: the SM-2 ease factor with the
    trainer's interval rules and lapse penalty, and the selection and
    ordering of the cards due for review. Time is a whole number of
    minutes. */
module Scheduler {
  import opened Seqs
  import opened Sorting
  import opened OrderedMap
  import opened Settings

  /** A card of the store. `answers[0]` is the question itself. */
  datatype Card = Card(
    question: string,
    answers: seq<string>,
    repetitions: int,
    efactor: real,
    interval: int,
    nextReviewDate: int,
    isSuspended: bool,
    isStarred: bool,
    totalMistakes: int)

  /** A card as a sync or an import creates it. */
  function NewCard(answers: seq<string>, now: int, isSuspended: bool, isStarred: bool): (c: Card)
    requires |answers| >= 1
    ensures c.question == answers[0] && c.answers == answers
    ensures c.repetitions == 0 && c.efactor == 2.5 && c.interval == 0 && c.nextReviewDate == now
    ensures c.isSuspended == isSuspended && c.isStarred == isStarred && c.totalMistakes == 0
  {
    Card(answers[0], answers, 0, 2.5, 0, now, isSuspended, isStarred, 0)
  }

  // ---------------------------------------------------------------------
  // ease factor

  /** The SM-2 ease change for a response of quality `q` (0 to 5). */
  function Sm2Delta(q: int): real {
    0.1 - (5 - q) as real * (0.08 + (5 - q) as real * 0.02)
  }

  function AtLeastMinimum(e: real): (r: real)
    ensures r >= 1.3 && (r == e || r == 1.3)
    ensures e >= 1.3 ==> r == e
  {
    if e < 1.3 then 1.3 else e
  }

  function Min(a: real, b: real): real {
    if a <= b then a else b
  }

  /** The ease after a review: quality 5 for a correct answer and 1 for a
      wrong one, floored at 1.3; a wrong answer on a card with more than
      five mistakes loses up to 0.3 more, floored again. `mistakes` is the
      count after this review. */
  function NewEase(efactor: real, isCorrect: bool, mistakes: int): real {
    var e := AtLeastMinimum(efactor + Sm2Delta(if isCorrect then 5 else 1));
    if !isCorrect && mistakes > 5 then AtLeastMinimum(e - Min((mistakes - 5) as real * 0.02, 0.3))
    else e
  }

  /** The two qualities the trainer uses move the ease by +0.1 and -0.54. */
  lemma Sm2Qualities()
    ensures Sm2Delta(5) == 0.1 && Sm2Delta(1) == -0.54
  {
  }

  /** The ease never drops below 1.3. */
  lemma EaseFloor(efactor: real, isCorrect: bool, mistakes: int)
    ensures NewEase(efactor, isCorrect, mistakes) >= 1.3
  {
  }

  /** A correct answer adds 0.1; a wrong answer with at most five mistakes
      takes 0.54; either is floored at 1.3. */
  lemma EaseWithoutPenalty(efactor: real, isCorrect: bool, mistakes: int)
    requires isCorrect || mistakes <= 5
    ensures NewEase(efactor, isCorrect, mistakes)
      == AtLeastMinimum(if isCorrect then efactor + 0.1 else efactor - 0.54)
  {
  }

  /** The extra lapse penalty takes at most 0.3 and never adds. */
  lemma EasePenaltyBounded(efactor: real, mistakes: int)
    ensures var base := AtLeastMinimum(efactor - 0.54);
      base - 0.3 <= NewEase(efactor, false, mistakes) <= base
  {
  }

  /** From a valid ease, a correct answer raises it and a wrong answer
      never does. */
  lemma EaseDirection(efactor: real, isCorrect: bool, mistakes: int)
    requires efactor >= 1.3
    ensures isCorrect ==> NewEase(efactor, isCorrect, mistakes) > efactor
    ensures !isCorrect ==> NewEase(efactor, isCorrect, mistakes) <= efactor
  {
  }

  // ---------------------------------------------------------------------
  // intervals

  /** `Math.ceil` on a real. */
  function Ceil(x: real): (r: int)
    ensures x <= r as real < x + 1.0
  {
    -((-x).Floor)
  }

  /** The interval after a review, in minutes. */
  function NextInterval(c: Card, isCorrect: bool, s: SrsSettings): int {
    if !isCorrect then IntervalMinutes(s.lapseInterval)
    else if c.repetitions + 1 == 1 then IntervalMinutes(s.initialInterval)
    else if c.repetitions + 1 == 2 then IntervalMinutes(s.secondInterval)
    else Ceil(c.interval as real * c.efactor)
  }

  /** Past the second repetition the interval grows by at least the ease
      factor, so by at least 30%. */
  lemma IntervalGrows(c: Card, s: SrsSettings)
    requires c.repetitions + 1 > 2 && c.efactor >= 1.3 && c.interval >= 0
    ensures NextInterval(c, true, s) as real >= c.interval as real * c.efactor
    ensures NextInterval(c, true, s) as real >= c.interval as real * 1.3
  {
  }

  /** `update` applied to one card: the long-term record after a review
      at time `now`. */
  function Reviewed(c: Card, isCorrect: bool, s: SrsSettings, now: int): Card {
    var mistakes := if isCorrect then c.totalMistakes else c.totalMistakes + 1;
    var interval := NextInterval(c, isCorrect, s);
    c.(repetitions := if isCorrect then c.repetitions + 1 else 0,
       interval := interval,
       efactor := NewEase(c.efactor, isCorrect, mistakes),
       nextReviewDate := now + interval,
       totalMistakes := mistakes)
  }

  /** What a review changes: the counters and the schedule; the question,
      the answers and the flags stay. A correct answer counts one more
      repetition; a wrong one restarts the repetitions, schedules the lapse
      interval and counts a mistake. */
  lemma ReviewedFields(c: Card, isCorrect: bool, s: SrsSettings, now: int)
    ensures var r := Reviewed(c, isCorrect, s, now);
      r.question == c.question && r.answers == c.answers
      && r.isSuspended == c.isSuspended && r.isStarred == c.isStarred
      && r.nextReviewDate == now + r.interval && r.efactor >= 1.3
      && (isCorrect ==> r.repetitions == c.repetitions + 1 && r.totalMistakes == c.totalMistakes)
      && (isCorrect && c.repetitions == 0 ==> r.interval == IntervalMinutes(s.initialInterval))
      && (isCorrect && c.repetitions == 1 ==> r.interval == IntervalMinutes(s.secondInterval))
      && (!isCorrect ==> r.repetitions == 0 && r.totalMistakes == c.totalMistakes + 1
                          && r.interval == IntervalMinutes(s.lapseInterval))
  {
  }

  // ---------------------------------------------------------------------
  // due cards

  /** The filter of `getDueCards`: not suspended, and either scheduled at
      or before `now` or never successfully repeated. */
  predicate IsDue(c: Card, now: int) {
    !c.isSuspended && (c.nextReviewDate <= now || c.repetitions == 0)
  }

  function DueAt(now: int): Card -> bool {
    c => IsDue(c, now)
  }

  predicate IsActive(c: Card) {
    !c.isSuspended
  }

  /** After a wrong answer a card is due again at once; after a correct one
      it is due exactly from its new review date on (unless suspended). */
  lemma ReviewedDue(c: Card, isCorrect: bool, s: SrsSettings, now: int, t: int)
    requires !c.isSuspended && c.repetitions >= 0
    ensures var r := Reviewed(c, isCorrect, s, now);
      (!isCorrect ==> IsDue(r, t))
      && (isCorrect ==> (IsDue(r, t) <==> now + r.interval <= t))
  {
  }

  /** The comparator of `getDueCards`: more mistakes first, then the lower
      ease first. */
  function DueOrder(a: Card, b: Card): real {
    var diff := b.totalMistakes - a.totalMistakes;
    if diff != 0 then diff as real else a.efactor - b.efactor
  }

  lemma DueOrderIsComparator()
    ensures IsComparator(DueOrder)
  {
    forall a: Card, b: Card, c: Card | DueOrder(a, b) <= 0.0 && DueOrder(b, c) <= 0.0
      ensures DueOrder(a, c) <= 0.0
    {
    }
  }

  /** `getDueCards`. */
  function DueCards(m: OMap<Card>, now: int): seq<Card>
    requires OrderedMap.Valid(m)
  {
    SortBy(Filter(Values(m), DueAt(now)), DueOrder)
  }

  /** `getAllActiveCards`. */
  function ActiveCards(m: OMap<Card>): seq<Card>
    requires OrderedMap.Valid(m)
  {
    Filter(Values(m), IsActive)
  }

  /** The due cards are exactly the stored cards that are due. */
  lemma DueCardsSelect(m: OMap<Card>, now: int)
    requires OrderedMap.Valid(m)
    ensures forall c :: c in DueCards(m, now) <==> c in m.entries.Values && IsDue(c, now)
    ensures |DueCards(m, now)| == |Filter(Values(m), DueAt(now))|
  {
    var vs := Values(m);
    var due := Filter(vs, DueAt(now));
    assert multiset(DueCards(m, now)) == multiset(due);
    forall c ensures c in DueCards(m, now) <==> c in m.entries.Values && IsDue(c, now) {
      assert c in DueCards(m, now) <==> c in multiset(due);
      if c in m.entries.Values {
        var k :| k in m.entries && m.entries[k] == c;
        var i := IndexOfKey(m, k);
        assert vs[i] == c;
      }
      if c in due {
        var i :| 0 <= i < |vs| && vs[i] == c;
        assert m.keys[i] in m.entries;
      }
    }
  }

  /** The due cards come most mistakes first, and among equal mistakes
      lowest ease first. */
  lemma DueCardsOrder(m: OMap<Card>, now: int)
    requires OrderedMap.Valid(m)
    ensures var r := DueCards(m, now);
      forall i, j :: 0 <= i < j < |r| ==>
        r[i].totalMistakes > r[j].totalMistakes
        || (r[i].totalMistakes == r[j].totalMistakes && r[i].efactor <= r[j].efactor)
  {
    DueOrderIsComparator();
    SortBySorted(Filter(Values(m), DueAt(now)), DueOrder);
    var r := DueCards(m, now);
    forall i, j | 0 <= i < j < |r|
      ensures r[i].totalMistakes > r[j].totalMistakes
        || (r[i].totalMistakes == r[j].totalMistakes && r[i].efactor <= r[j].efactor)
    {
      assert DueOrder(r[i], r[j]) <= 0.0;
    }
  }

  /** The active cards are exactly the stored cards that are not suspended,
      in insertion order. */
  lemma ActiveCardsSelect(m: OMap<Card>)
    requires OrderedMap.Valid(m)
    ensures forall c :: c in ActiveCards(m) <==> c in m.entries.Values && !c.isSuspended
  {
    var vs := Values(m);
    forall c ensures c in ActiveCards(m) <==> c in m.entries.Values && !c.isSuspended {
      if c in m.entries.Values {
        var k :| k in m.entries && m.entries[k] == c;
        var i := IndexOfKey(m, k);
        assert vs[i] == c;
      }
      if c in vs {
        var i :| 0 <= i < |vs| && vs[i] == c;
        assert m.keys[i] in m.entries;
      }
    }
  }

  /** Every due card is active. */
  lemma DueCardsActive(m: OMap<Card>, now: int)
    requires OrderedMap.Valid(m)
    ensures forall c :: c in DueCards(m, now) ==> c in ActiveCards(m)
  {
    DueCardsSelect(m, now);
    ActiveCardsSelect(m);
  }

  /** A fresh card answered correctly with the default settings waits one
      day and gains 0.1 ease; answered wrongly it waits ten minutes and
      drops to 1.96. */
  lemma FirstReview(answers: seq<string>, now: int, s: SrsSettings)
    requires |answers| >= 1
    requires s.initialInterval == IntervalSetting(1, "days")
    requires s.lapseInterval == IntervalSetting(10, "minutes")
    ensures var c := NewCard(answers, now, false, false);
      var ok := Reviewed(c, true, s, now);
      var bad := Reviewed(c, false, s, now);
      ok.interval == 1440 && ok.efactor == 2.6 && ok.nextReviewDate == now + 1440 && ok.repetitions == 1
      && bad.interval == 10 && bad.efactor == 1.96 && bad.totalMistakes == 1 && bad.repetitions == 0
  {
  }
}
