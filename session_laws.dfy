/** What the steps of a review session guarantee: which cards a session
    takes, that its queue starts with one card per question, how an answer
    is graded and what it changes, and what the summary writes back to the
    store. */
module SessionLaws {
  import opened Wrappers
  import opened Seqs
  import opened Text
  import opened Sorting
  import opened OrderedMap
  import opened WordList
  import opened Settings
  import opened Scheduler
  import opened Shuffle
  import opened CardManager
  import opened ReviewSession

  // ---------------------------------------------------------------------
  // choosing the cards

  /** A smart review takes the stored cards that are due and in scope:
      listed in the word list, or starred. */
  lemma SmartReviewCardsSelect(m: OMap<Card>, wordList: string, scope: Scope, now: int)
    requires StoreValid(m)
    ensures forall c :: c in SmartReviewCards(m, wordList, scope, now) <==>
      (c in m.entries.Values && IsDue(c, now)
       && (scope == TextareaScope ==> c.question in ListedQuestions(wordList))
       && (scope == StarredScope ==> c.isStarred))
  {
    DueCardsSelect(m, now);
    match scope
    case TextareaScope => FilterMembers(DueCards(m, now), Listed(ListedQuestions(wordList)));
    case StarredScope => FilterMembers(DueCards(m, now), Starred());
    case AllScope =>
  }

  /** The values of a store, in insertion order, are its cards. */
  lemma ValuesAreCards(m: OMap<Card>)
    requires OrderedMap.Valid(m)
    ensures forall c :: c in Values(m) <==> c in m.entries.Values
  {
    var vs := Values(m);
    forall c | c in m.entries.Values ensures c in vs {
      var k :| k in m.entries && m.entries[k] == c;
      var i := IndexOfKey(m, k);
      assert vs[i] == c;
    }
    forall c | c in vs ensures c in m.entries.Values {
      var i :| 0 <= i < |vs| && vs[i] == c;
      assert m.keys[i] in m.entries;
    }
  }

  /** A cram session takes the stored cards that are not suspended and in
      scope. */
  lemma CramCardsSelect(m: OMap<Card>, wordList: string, scope: Scope, randomOrder: bool)
    requires StoreValid(m)
    ensures forall c :: c in CramCards(m, wordList, scope, randomOrder) <==>
      (c in m.entries.Values && !c.isSuspended
       && (scope == TextareaScope ==> c.question in ListedQuestions(wordList))
       && (scope == StarredScope ==> c.isStarred))
  {
    match scope
    case TextareaScope => CramListedSelect(m, wordList, randomOrder);
    case StarredScope =>
      ValuesAreCards(m);
      FilterMembers(Values(m), ActiveStarred());
    case AllScope =>
      ActiveCardsSelect(m);
  }

  lemma CramListedSelect(m: OMap<Card>, wordList: string, randomOrder: bool)
    requires StoreValid(m)
    ensures forall c :: c in CramCards(m, wordList, TextareaScope, randomOrder) <==>
      (c in m.entries.Values && !c.isSuspended && c.question in ListedQuestions(wordList))
  {
    ValuesAreCards(m);
    var order := ListedQuestions(wordList);
    var chosen := Filter(Values(m), ActiveListed(order));
    FilterMembers(Values(m), ActiveListed(order));
    SortedMembers(chosen, ListingOrder(order));
  }

  /** Sorting keeps the elements. */
  lemma SortedMembers<T>(s: seq<T>, cmp: (T, T) -> real)
    ensures forall x :: x in SortBy(s, cmp) <==> x in s
  {
    var r := SortBy(s, cmp);
    forall x ensures x in r <==> x in s {
      assert x in r <==> x in multiset(r);
      assert x in s <==> x in multiset(s);
    }
  }

  /** The listing comparator orders cards by their first listing. */
  lemma ListingOrderIsComparator(order: seq<string>)
    ensures IsComparator(ListingOrder(order))
  {
    var cmp := ListingOrder(order);
    forall a: Card, b: Card, c: Card | cmp(a, b) <= 0.0 && cmp(b, c) <= 0.0
      ensures cmp(a, c) <= 0.0
    {
      assert IndexIn(order, a.question) <= IndexIn(order, b.question) <= IndexIn(order, c.question);
    }
  }

  /** Crammed in word-list order, the cards come in the order their
      questions are first listed. */
  lemma CramCardsListed(m: OMap<Card>, wordList: string)
    requires StoreValid(m)
    ensures var r := CramCards(m, wordList, TextareaScope, false);
      var order := ListedQuestions(wordList);
      forall i, j :: 0 <= i < j < |r| ==> IndexIn(order, r[i].question) <= IndexIn(order, r[j].question)
  {
    var order := ListedQuestions(wordList);
    var chosen := Filter(Values(m), ActiveListed(order));
    ListingOrderIsComparator(order);
    SortBySorted(chosen, ListingOrder(order));
    var r := CramCards(m, wordList, TextareaScope, false);
    forall i, j | 0 <= i < j < |r|
      ensures IndexIn(order, r[i].question) <= IndexIn(order, r[j].question)
    {
      assert ListingOrder(order)(r[i], r[j]) <= 0.0;
    }
  }

  /** The session order holds the chosen cards, each as often, whether or
      not it is shuffled. */
  lemma OrderedPermutes(cards: seq<Card>, randomOrder: bool, random: nat -> real)
    requires forall k :: 0.0 <= random(k) < 1.0
    ensures |Ordered(cards, randomOrder, random)| == |cards|
    ensures multiset(Ordered(cards, randomOrder, random)) == multiset(cards)
  {
    if randomOrder {
      FisherYatesPermutes(cards, if |cards| == 0 then 0 else |cards| - 1, 0, random);
    }
  }

  // ---------------------------------------------------------------------
  // one card per question

  ghost predicate DistinctQuestions(cs: seq<Card>) {
    forall i, j :: 0 <= i < j < |cs| ==> cs[i].question != cs[j].question
  }

  /** A card that occurs twice in a sequence occurs at two positions. */
  lemma {:induction false} TwiceAtTwo(s: seq<Card>, x: Card)
    requires multiset(s)[x] >= 2
    ensures exists i, j :: 0 <= i < j < |s| && s[i] == x && s[j] == x
  {
    var n := |s|;
    assert s == s[..n - 1] + [s[n - 1]];
    if s[n - 1] == x {
      assert multiset(s[..n - 1])[x] >= 1;
      assert x in s[..n - 1];
      var i :| 0 <= i < n - 1 && s[..n - 1][i] == x;
      assert s[i] == x && s[n - 1] == x;
    } else {
      assert multiset(s[..n - 1])[x] >= 2;
      TwiceAtTwo(s[..n - 1], x);
      var i, j :| 0 <= i < j < n - 1 && s[..n - 1][i] == x && s[..n - 1][j] == x;
      assert s[i] == x && s[j] == x;
    }
  }

  /** Taking some of the cards, in any order, keeps one card per question. */
  lemma SubDistinctQuestions(a: seq<Card>, b: seq<Card>)
    requires DistinctQuestions(a) && multiset(b) <= multiset(a)
    ensures DistinctQuestions(b)
  {
    forall i, j | 0 <= i < j < |b| ensures b[i].question != b[j].question {
      assert b[i] in multiset(a) && b[j] in multiset(a);
      if b[i] == b[j] {
        assert b == b[..j] + [b[j]] + b[j + 1..];
        assert b[..j] == b[..i] + [b[i]] + b[i + 1..j];
        assert multiset(b)[b[i]] >= 2;
        TwiceAtTwo(a, b[i]);
      } else {
        var p :| 0 <= p < |a| && a[p] == b[i];
        var q :| 0 <= q < |a| && a[q] == b[j];
        assert p != q;
        assert a[p].question != a[q].question;
      }
    }
  }

  /** The stored cards have one card per question, since the store is keyed
      by question. */
  lemma StoredDistinctQuestions(m: OMap<Card>)
    requires StoreValid(m)
    ensures DistinctQuestions(Values(m))
  {
    var vs := Values(m);
    forall i, j | 0 <= i < j < |vs| ensures vs[i].question != vs[j].question {
      assert m.keys[i] in m.entries && m.keys[j] in m.entries;
    }
  }

  /** A filter keeps one card per question. */
  lemma FilterDistinctQuestions(s: seq<Card>, p: Card -> bool)
    requires DistinctQuestions(s)
    ensures DistinctQuestions(Filter(s, p))
  {
    FilterSubMultiset(s, p);
    SubDistinctQuestions(s, Filter(s, p));
  }

  /** Every way of choosing the cards of a session gives one card per
      question. */
  lemma ChosenDistinctQuestions(m: OMap<Card>, wordList: string, scope: Scope, randomOrder: bool,
                                random: nat -> real, now: int)
    requires StoreValid(m) && forall k :: 0.0 <= random(k) < 1.0
    ensures DistinctQuestions(Ordered(SmartReviewCards(m, wordList, scope, now), randomOrder, random))
    ensures DistinctQuestions(Ordered(CramCards(m, wordList, scope, randomOrder), randomOrder, random))
  {
    SmartChosenDistinct(m, wordList, scope, now);
    var smart := SmartReviewCards(m, wordList, scope, now);
    OrderedPermutes(smart, randomOrder, random);
    SubDistinctQuestions(smart, Ordered(smart, randomOrder, random));
    CramChosenDistinct(m, wordList, scope, randomOrder);
    var cram := CramCards(m, wordList, scope, randomOrder);
    OrderedPermutes(cram, randomOrder, random);
    SubDistinctQuestions(cram, Ordered(cram, randomOrder, random));
  }

  lemma SmartChosenDistinct(m: OMap<Card>, wordList: string, scope: Scope, now: int)
    requires StoreValid(m)
    ensures DistinctQuestions(SmartReviewCards(m, wordList, scope, now))
  {
    var vs := Values(m);
    StoredDistinctQuestions(m);
    var due := Filter(vs, DueAt(now));
    FilterDistinctQuestions(vs, DueAt(now));
    SubDistinctQuestions(due, DueCards(m, now));
    match scope
    case TextareaScope => FilterDistinctQuestions(DueCards(m, now), Listed(ListedQuestions(wordList)));
    case StarredScope => FilterDistinctQuestions(DueCards(m, now), Starred());
    case AllScope =>
  }

  lemma CramChosenDistinct(m: OMap<Card>, wordList: string, scope: Scope, randomOrder: bool)
    requires StoreValid(m)
    ensures DistinctQuestions(CramCards(m, wordList, scope, randomOrder))
  {
    var vs := Values(m);
    StoredDistinctQuestions(m);
    match scope
    case TextareaScope =>
      var order := ListedQuestions(wordList);
      FilterDistinctQuestions(vs, ActiveListed(order));
      var chosen := Filter(vs, ActiveListed(order));
      SubDistinctQuestions(chosen, SortBy(chosen, ListingOrder(order)));
    case StarredScope => FilterDistinctQuestions(vs, ActiveStarred());
    case AllScope => FilterDistinctQuestions(vs, IsActive);
  }

  // ---------------------------------------------------------------------
  // starting a session

  /** A session started on some cards queues a fresh session card for each
      of them, in order, with streak 0, the required streak of the settings
      and no attempt yet; the first of them is shown, the round's counters
      and the incorrect list start empty, and the store, the history, the
      review-again pile and the cards of earlier sessions stay as they
      were. */
  lemma StartedQueue(w: Session, cards: seq<Card>, s: SrsSettings, now: int)
    requires Wf(w) && |cards| > 0
    ensures var r := Started(w, cards, s, now);
      && Wf(r)
      && |r.objs| == |w.objs| + |cards| && r.objs[..|w.objs|] == w.objs
      && |r.sessionCards| == |cards|
      && (forall k :: 0 <= k < |cards| ==>
            r.sessionCards[k] >= |w.objs|
            && r.objs[r.sessionCards[k]] == SessionCard(cards[k], 0, s.requiredStreak, false))
      && r.cardOnDisplay == Some(r.sessionCards[0])
      && r.sessionCorrectCount == 0 && r.sessionIncorrectCount == 0 && r.sessionIncorrectCards == []
      && !r.isChecking && !r.isAnswerCorrect && !r.pendingGracefulExit
      && r.cards == w.cards && r.history == w.history && r.reviewAgainPile == w.reviewAgainPile
  {
    var q := Queued(w, cards, s.requiredStreak);
    assert IdsIn(q.sessionCards, |q.objs|);
    assert Wf(q);
    var r := Started(w, cards, s, now);
    assert r == q.(cardOnDisplay := Some(q.sessionCards[0]));
    forall k | 0 <= k < |cards|
      ensures r.objs[r.sessionCards[k]] == SessionCard(cards[k], 0, s.requiredStreak, false)
    {
      assert r.sessionCards[k] == |w.objs| + k;
      assert r.objs[|w.objs| + k] == Entered(cards, s.requiredStreak)[k];
    }
  }

  /** A session started on cards with distinct questions, after a state
      whose lists hold each question once, queues each question once. */
  lemma StartedCoherent(w: Session, cards: seq<Card>, s: SrsSettings, now: int)
    requires Wf(w) && Coherent(w) && DistinctQuestions(cards)
    ensures Coherent(Started(w, cards, s, now))
  {
    if |cards| > 0 {
      StartedQueue(w, cards, s, now);
      var r := Started(w, cards, s, now);
      forall i, j | 0 <= i < j < |r.sessionCards|
        ensures QuestionOf(r.objs, r.sessionCards[i]) != QuestionOf(r.objs, r.sessionCards[j])
      {
        assert r.objs[r.sessionCards[i]].card == cards[i];
        assert r.objs[r.sessionCards[j]].card == cards[j];
      }
      ExtendedNoRepeat(w.objs, r.objs, w.reviewAgainPile);
    }
  }

  /** Appending session cards keeps a list of old ids free of repeats. */
  lemma ExtendedNoRepeat(objs: seq<SessionCard>, objs': seq<SessionCard>, ids: seq<nat>)
    requires IdsIn(ids, |objs|) && |objs| <= |objs'| && objs'[..|objs|] == objs && NoRepeat(objs, ids)
    ensures NoRepeat(objs', ids)
  {
    forall k | 0 <= k < |ids| ensures QuestionOf(objs', ids[k]) == QuestionOf(objs, ids[k]) {
      assert objs'[..|objs|][ids[k]] == objs[ids[k]];
    }
  }

  /** Both ways of starting a session keep every list free of repeated
      questions. */
  lemma SessionStartsCoherent(w: Session, wordList: string, scope: Scope, randomOrder: bool,
                              random: nat -> real, s: SrsSettings, now: int)
    requires Wf(w) && Coherent(w) && forall k :: 0.0 <= random(k) < 1.0
    ensures Coherent(SmartReviewStarted(w, wordList, scope, randomOrder, random, s, now))
    ensures Coherent(CramStarted(w, wordList, scope, randomOrder, random, s, now))
  {
    var smart := Synced(w, false, wordList, now);
    var cram := Synced(w, true, wordList, now);
    ChosenDistinctQuestions(smart.cards, wordList, scope, randomOrder, random, now);
    StartedCoherent(smart, Ordered(SmartReviewCards(smart.cards, wordList, scope, now), randomOrder, random), s, now);
    StartedCoherent(cram, Ordered(CramCards(cram.cards, wordList, scope, randomOrder), randomOrder, random), s, now);
  }

  // ---------------------------------------------------------------------
  // grading an answer

  /** `checkAnswer` ignores a second check while one is under way and a
      blank answer; with no card on display it stops after marking the
      check as under way. */
  lemma CheckedIgnored(w: Session, input: string, penaltyInput: Option<int>, s: SrsSettings, now: int)
    requires Wf(w)
    ensures w.isChecking || Trim(input) == "" ==> Checked(w, input, penaltyInput, s, now) == w
    ensures !w.isChecking && Trim(input) != "" && w.cardOnDisplay.None? ==>
      Checked(w, input, penaltyInput, s, now) == w.(isChecking := true)
  {
  }

  /** A correct answer: the card is attempted and its streak grows; the
      answer counts unless it is a replay; in a review that is not a replay
      it is logged and, once the streak reaches the required streak of the
      settings, the stored card is reviewed as correct. Cramming and
      replays leave the store and the history alone. */
  lemma CheckedCorrect(w: Session, input: string, penaltyInput: Option<int>, s: SrsSettings, now: int)
    requires Wf(w) && !w.isChecking && Trim(input) != "" && w.cardOnDisplay.Some?
    requires Accepts(w.objs[w.cardOnDisplay.value].card.answers, Trim(input))
    ensures var id := w.cardOnDisplay.value;
      var c := w.objs[id];
      var q := c.card.question;
      var streak := NewStreak(c, w.isPracticingAgain);
      var r := Checked(w, input, penaltyInput, s, now);
      && r.objs == w.objs[id := Credited(c, streak)]
      && r.isAnswerCorrect && r.isChecking && !r.isPracticingAgain
      && r.lastCorrectlyAnsweredCard == Some(id) && r.lastIncorrectAnswer == None
      && r.cardOnDisplay == w.cardOnDisplay
      && r.sessionCorrectCount == w.sessionCorrectCount + (if w.isPracticingAgain then 0 else 1)
      && r.sessionIncorrectCount == w.sessionIncorrectCount
      && r.sessionIncorrectCards == w.sessionIncorrectCards && r.reviewAgainPile == w.reviewAgainPile
      && (w.isCramming || w.isPracticingAgain ==> r.cards == w.cards && r.history == w.history)
      && (!w.isCramming && !w.isPracticingAgain ==>
            && r.history == w.history + (if q in w.cards.entries then [Recorded(q, true, w.cards.entries[q], now)] else [])
            && (streak >= s.requiredStreak && q in w.cards.entries ==>
                  r.cards.entries == w.cards.entries[q := Reviewed(w.cards.entries[q], true, s, now)])
            && (streak < s.requiredStreak || q !in w.cards.entries ==> r.cards == w.cards))
  {
    CheckedCorrectBranch(w, input, penaltyInput, s, now);
    CorrectEffect(w, w.cardOnDisplay.value, s, now);
  }

  lemma CheckedCorrectBranch(w: Session, input: string, penaltyInput: Option<int>, s: SrsSettings, now: int)
    requires Wf(w) && !w.isChecking && Trim(input) != "" && w.cardOnDisplay.Some?
    requires Accepts(w.objs[w.cardOnDisplay.value].card.answers, Trim(input))
    ensures var id := w.cardOnDisplay.value;
      Checked(w, input, penaltyInput, s, now) == AnsweredCorrectly(AttemptMarked(w, id), id, s, now)
  {
  }

  /** A session card after a correct answer: attempted, with its new
      streak. */
  function Credited(c: SessionCard, streak: int): SessionCard {
    c.(correctStreak := streak, hasBeenAttempted := true)
  }

  /** The correct branch on its own, for any card in range. */
  lemma CorrectEffect(w: Session, id: nat, s: SrsSettings, now: int)
    requires Wf(w) && id < |w.objs|
    ensures var c := w.objs[id];
      var q := c.card.question;
      var streak := NewStreak(c, w.isPracticingAgain);
      var r := AnsweredCorrectly(AttemptMarked(w, id), id, s, now);
      && r.objs == w.objs[id := Credited(c, streak)]
      && r.sessionCards == Requeue(r.objs, w.sessionCards, id, streak < c.sessionRequiredStreak)
      && r.isAnswerCorrect && r.isChecking && !r.isPracticingAgain
      && r.lastCorrectlyAnsweredCard == Some(id) && r.lastIncorrectAnswer == None
      && r.cardOnDisplay == w.cardOnDisplay
      && r.sessionCorrectCount == w.sessionCorrectCount + (if w.isPracticingAgain then 0 else 1)
      && r.sessionIncorrectCount == w.sessionIncorrectCount
      && r.sessionIncorrectCards == w.sessionIncorrectCards && r.reviewAgainPile == w.reviewAgainPile
      && (w.isCramming || w.isPracticingAgain ==> r.cards == w.cards && r.history == w.history)
      && (!w.isCramming && !w.isPracticingAgain ==>
            && r.history == w.history + (if q in w.cards.entries then [Recorded(q, true, w.cards.entries[q], now)] else [])
            && (streak >= s.requiredStreak && q in w.cards.entries ==>
                  r.cards.entries == w.cards.entries[q := Reviewed(w.cards.entries[q], true, s, now)])
            && (streak < s.requiredStreak || q !in w.cards.entries ==> r.cards == w.cards))
  {
    var w1 := AttemptMarked(w, id);
    var w2 := CorrectMarked(w1, id);
    assert w2.objs[id].correctStreak == NewStreak(w.objs[id], w.isPracticingAgain);
    UpdateTwice(w.objs, id, w1.objs[id], w2.objs[id]);
  }

  /** A wrong answer: the card is attempted and, unless the answer is a
      replay or repeats the last wrong answer to this question, its required
      streak grows by the penalty (2 when the box does not parse); the check
      ends and the queue stays. Unless a replay, the answer counts and the
      card's question is on the incorrect list and, in a review, on the
      review-again pile; in a review that is not a replay the answer is
      logged and the stored card is reviewed as wrong. */
  lemma CheckedWrong(w: Session, input: string, penaltyInput: Option<int>, s: SrsSettings, now: int)
    requires Wf(w) && !w.isChecking && Trim(input) != "" && w.cardOnDisplay.Some?
    requires !Accepts(w.objs[w.cardOnDisplay.value].card.answers, Trim(input))
    ensures var id := w.cardOnDisplay.value;
      var c := w.objs[id];
      var q := c.card.question;
      var processed := Normalize(Trim(input));
      var same := w.lastIncorrectAnswer == Some(IncorrectAnswer(q, processed));
      var raise := if w.isPracticingAgain || same then 0 else OrDefault(penaltyInput, 2);
      var r := Checked(w, input, penaltyInput, s, now);
      && r.objs == w.objs[id := Penalized(c, raise)]
      && !r.isAnswerCorrect && !r.isChecking && r.isPracticingAgain == w.isPracticingAgain
      && r.lastIncorrectAnswer == Some(IncorrectAnswer(q, processed))
      && r.sessionCards == w.sessionCards && r.cardOnDisplay == w.cardOnDisplay
      && r.sessionCorrectCount == w.sessionCorrectCount
      && r.sessionIncorrectCount == w.sessionIncorrectCount + (if w.isPracticingAgain then 0 else 1)
      && (w.isPracticingAgain ==> r.sessionIncorrectCards == w.sessionIncorrectCards)
      && (!w.isPracticingAgain ==> Mentions(r.objs, r.sessionIncorrectCards, q))
      && (w.isPracticingAgain || w.isCramming ==> r.reviewAgainPile == w.reviewAgainPile)
      && (!w.isPracticingAgain && !w.isCramming ==> Mentions(r.objs, r.reviewAgainPile, q))
  {
    var id := w.cardOnDisplay.value;
    var processed := Normalize(Trim(input));
    var penalty := OrDefault(penaltyInput, 2);
    CheckedWrongBranch(w, input, penaltyInput, s, now);
    WrongEffect(w, id, processed, penalty, s, now);
  }

  lemma CheckedWrongBranch(w: Session, input: string, penaltyInput: Option<int>, s: SrsSettings, now: int)
    requires Wf(w) && !w.isChecking && Trim(input) != "" && w.cardOnDisplay.Some?
    requires !Accepts(w.objs[w.cardOnDisplay.value].card.answers, Trim(input))
    ensures var id := w.cardOnDisplay.value;
      Checked(w, input, penaltyInput, s, now)
        == AnsweredWrongly(AttemptMarked(w, id), id, Normalize(Trim(input)), OrDefault(penaltyInput, 2), s, now)
  {
  }

  /** The wrong branch on its own, for any card in range. */
  lemma WrongEffect(w: Session, id: nat, processed: string, penalty: int, s: SrsSettings, now: int)
    requires Wf(w) && id < |w.objs|
    ensures var c := w.objs[id];
      var q := c.card.question;
      var same := w.lastIncorrectAnswer == Some(IncorrectAnswer(q, processed));
      var raise := if w.isPracticingAgain || same then 0 else penalty;
      var r := AnsweredWrongly(AttemptMarked(w, id), id, processed, penalty, s, now);
      && r.objs == w.objs[id := Penalized(c, raise)]
      && !r.isAnswerCorrect && !r.isChecking && r.isPracticingAgain == w.isPracticingAgain
      && r.lastIncorrectAnswer == Some(IncorrectAnswer(q, processed))
      && r.sessionCards == w.sessionCards && r.cardOnDisplay == w.cardOnDisplay
      && r.sessionCorrectCount == w.sessionCorrectCount
      && r.sessionIncorrectCount == w.sessionIncorrectCount + (if w.isPracticingAgain then 0 else 1)
      && (w.isPracticingAgain ==> r.sessionIncorrectCards == w.sessionIncorrectCards)
      && (!w.isPracticingAgain ==> Mentions(r.objs, r.sessionIncorrectCards, q))
      && (w.isPracticingAgain || w.isCramming ==> r.reviewAgainPile == w.reviewAgainPile)
      && (!w.isPracticingAgain && !w.isCramming ==> Mentions(r.objs, r.reviewAgainPile, q))
  {
    var w1 := AttemptMarked(w, id);
    var w2 := WrongMarked(w1, id, processed, penalty);
    WrongMarkedObjs(w, id, processed, penalty);
    assert w2.objs[id].card.question == w.objs[id].card.question;
    IncorrectHandledEffect(w2, id, w.isPracticingAgain, s, now);
  }

  /** A wrong answer in a review that is not a replay is logged and the
      stored card is reviewed as wrong; otherwise neither the store nor
      the history changes. */
  lemma CheckedWrongRecorded(w: Session, input: string, penaltyInput: Option<int>, s: SrsSettings, now: int)
    requires Wf(w) && !w.isChecking && Trim(input) != "" && w.cardOnDisplay.Some?
    requires !Accepts(w.objs[w.cardOnDisplay.value].card.answers, Trim(input))
    ensures var q := w.objs[w.cardOnDisplay.value].card.question;
      var r := Checked(w, input, penaltyInput, s, now);
      && (w.isCramming || w.isPracticingAgain ==> r.cards == w.cards && r.history == w.history)
      && (!w.isCramming && !w.isPracticingAgain ==>
            && r.history == w.history + (if q in w.cards.entries then [Recorded(q, false, w.cards.entries[q], now)] else [])
            && (q in w.cards.entries ==>
                  r.cards.entries == w.cards.entries[q := Reviewed(w.cards.entries[q], false, s, now)])
            && (q !in w.cards.entries ==> r.cards == w.cards))
  {
    var id := w.cardOnDisplay.value;
    var w1 := AttemptMarked(w, id);
    var w2 := WrongMarked(w1, id, Normalize(Trim(input)), OrDefault(penaltyInput, 2));
    assert Checked(w, input, penaltyInput, s, now) == IncorrectHandled(w2, id, w.isPracticingAgain, s, now);
    IncorrectHandledEffect(w2, id, w.isPracticingAgain, s, now);
  }

  /** A session card after a wrong answer: attempted, its required
      streak raised by `raise`. */
  function Penalized(c: SessionCard, raise: int): SessionCard {
    c.(sessionRequiredStreak := c.sessionRequiredStreak + raise, hasBeenAttempted := true)
  }

  /** The card after the first steps of a wrong answer: attempted, and
      its required streak raised by the penalty unless the answer is a
      replay or repeats the last wrong answer. */
  lemma WrongMarkedObjs(w: Session, id: nat, processed: string, penalty: int)
    requires id < |w.objs|
    ensures var c := w.objs[id];
      var same := w.lastIncorrectAnswer == Some(IncorrectAnswer(c.card.question, processed));
      var raise := if w.isPracticingAgain || same then 0 else penalty;
      WrongMarked(AttemptMarked(w, id), id, processed, penalty).objs
        == w.objs[id := Penalized(c, raise)]
  {
    var c := w.objs[id];
    var w1 := AttemptMarked(w, id);
    var same := w.lastIncorrectAnswer == Some(IncorrectAnswer(c.card.question, processed));
    var raise := if w.isPracticingAgain || same then 0 else penalty;
    var x := Penalized(c, raise);
    if w.isPracticingAgain || same {
      assert x == w1.objs[id];
    } else {
      UpdateTwice(w.objs, id, w1.objs[id], x);
    }
  }

  lemma UpdateTwice<T>(s: seq<T>, i: nat, a: T, b: T)
    requires i < |s|
    ensures s[i := a][i := b] == s[i := b]
  {
  }

  /** `handleIncorrectAnswer` changes the two counters, the two lists, the
      store and the history, and nothing else. */
  lemma IncorrectHandledEffect(w: Session, id: nat, skip: bool, s: SrsSettings, now: int)
    requires Wf(w) && id < |w.objs|
    ensures var q := w.objs[id].card.question;
      var r := IncorrectHandled(w, id, skip, s, now);
      && r.objs == w.objs && r.sessionCards == w.sessionCards && r.cardOnDisplay == w.cardOnDisplay
      && r.isAnswerCorrect == w.isAnswerCorrect && r.isChecking == w.isChecking
      && r.isPracticingAgain == w.isPracticingAgain && r.lastIncorrectAnswer == w.lastIncorrectAnswer
      && r.sessionCorrectCount == w.sessionCorrectCount
      && r.sessionIncorrectCount == w.sessionIncorrectCount + (if skip then 0 else 1)
      && (skip ==> r.sessionIncorrectCards == w.sessionIncorrectCards)
      && (!skip ==> Mentions(w.objs, r.sessionIncorrectCards, q))
      && (skip || w.isCramming ==> r.reviewAgainPile == w.reviewAgainPile)
      && (!skip && !w.isCramming ==> Mentions(w.objs, r.reviewAgainPile, q))
      && (w.isCramming || skip ==> r.cards == w.cards && r.history == w.history)
      && (!w.isCramming && !skip ==>
            r.history == Logged(w.history, w.cards, q, false, now) && r.cards == AfterReview(w.cards, q, false, s, now))
  {
    var q := w.objs[id].card.question;
    assert QuestionOf(w.objs, id) == q;
    IncorrectCountedFrame(w, id, skip);
    if !skip {
      MentionsAppend(w.objs, w.sessionIncorrectCards, id, q);
      MentionsAppend(w.objs, w.reviewAgainPile, id, q);
    }
  }

  /** Counting a wrong answer changes the incorrect count and the two lists
      and nothing else. */
  lemma IncorrectCountedFrame(w: Session, id: nat, skip: bool)
    requires id < |w.objs|
    ensures var c := IncorrectCounted(w, id, skip);
      c == w.(sessionIncorrectCount := c.sessionIncorrectCount,
              sessionIncorrectCards := c.sessionIncorrectCards,
              reviewAgainPile := c.reviewAgainPile)
  {
  }

  /** Replacing a session card by one for the same stored card keeps the
      question of every index. */
  lemma SameQuestions(objs: seq<SessionCard>, id: nat, x: SessionCard)
    requires id < |objs| && x.card == objs[id].card
    ensures forall i :: QuestionOf(objs[id := x], i) == QuestionOf(objs, i)
  {
  }

  /** `findIndex` and `splice` on a queue holding each question once: the
      question is gone, every other question stays, and the queue is one
      shorter when the question was there. */
  lemma {:induction false} RemoveFirstSpec(objs: seq<SessionCard>, ids: seq<nat>, q: string)
    requires NoRepeat(objs, ids)
    ensures var r := RemoveFirst(objs, ids, q);
      && !Mentions(objs, r, q)
      && (forall q' :: q' != q ==> (Mentions(objs, r, q') <==> Mentions(objs, ids, q')))
      && |r| == |ids| - (if Mentions(objs, ids, q) then 1 else 0)
      && NoRepeat(objs, r)
      && (forall n :: IdsIn(ids, n) ==> IdsIn(r, n))
  {
    var k := FindQuestion(objs, ids, q);
    if k >= 0 {
      assert RemoveFirst(objs, ids, q) == ids[..k] + ids[k + 1..];
      DropQuestion(objs, ids, k, q);
    } else {
      assert !Mentions(objs, ids, q);
    }
  }

  /** Dropping the one position holding `q` from a list that holds each
      question once. */
  lemma DropQuestion(objs: seq<SessionCard>, ids: seq<nat>, k: nat, q: string)
    requires NoRepeat(objs, ids) && k < |ids| && QuestionOf(objs, ids[k]) == q
    ensures var r := ids[..k] + ids[k + 1..];
      && !Mentions(objs, r, q)
      && (forall q' :: q' != q ==> (Mentions(objs, r, q') <==> Mentions(objs, ids, q')))
      && |r| == |ids| - 1 && Mentions(objs, ids, q)
      && NoRepeat(objs, r)
      && (forall n :: IdsIn(ids, n) ==> IdsIn(r, n))
  {
    DropAt(ids, k);
    DropMentions(objs, ids, k, q);
  }

  lemma DropMentions(objs: seq<SessionCard>, ids: seq<nat>, k: nat, q: string)
    requires NoRepeat(objs, ids) && k < |ids| && QuestionOf(objs, ids[k]) == q
    ensures var r := ids[..k] + ids[k + 1..];
      forall q' :: q' != q ==> (Mentions(objs, r, q') <==> Mentions(objs, ids, q'))
  {
    var r := ids[..k] + ids[k + 1..];
    DropAt(ids, k);
    forall q' | Mentions(objs, ids, q') && q' != q ensures Mentions(objs, r, q') {
      var i :| 0 <= i < |ids| && QuestionOf(objs, ids[i]) == q';
      if i < k { assert r[i] == ids[i]; } else { assert r[i - 1] == ids[i]; }
    }
  }

  /** `splice(k, 1)`: the elements before `k` stay, the ones after move
      down by one. */
  lemma DropAt<T>(s: seq<T>, k: nat)
    requires k < |s|
    ensures |s[..k] + s[k + 1..]| == |s| - 1
    ensures forall i :: 0 <= i < |s| - 1 ==> (s[..k] + s[k + 1..])[i] == (if i < k then s[i] else s[i + 1])
  {
  }

  /** After a correct answer, on a queue holding each question once, the
      card's question is queued once more, at the end, exactly while its
      streak is short of its required streak; every other question stays
      queued or not as before. */
  lemma CheckedCorrectQueue(w: Session, input: string, penaltyInput: Option<int>, s: SrsSettings, now: int)
    requires Wf(w) && Coherent(w) && !w.isChecking && Trim(input) != "" && w.cardOnDisplay.Some?
    requires Accepts(w.objs[w.cardOnDisplay.value].card.answers, Trim(input))
    ensures var id := w.cardOnDisplay.value;
      var c := w.objs[id];
      var q := c.card.question;
      var again := NewStreak(c, w.isPracticingAgain) < c.sessionRequiredStreak;
      var r := Checked(w, input, penaltyInput, s, now);
      && (Mentions(r.objs, r.sessionCards, q) <==> again)
      && (again ==> r.sessionCards[|r.sessionCards| - 1] == id)
      && (forall q' :: q' != q ==> (Mentions(r.objs, r.sessionCards, q') <==> Mentions(w.objs, w.sessionCards, q')))
      && |r.sessionCards| == |w.sessionCards| - (if Mentions(w.objs, w.sessionCards, q) then 1 else 0)
                                              + (if again then 1 else 0)
  {
    var id := w.cardOnDisplay.value;
    var c := w.objs[id];
    var q := c.card.question;
    CheckedCorrectBranch(w, input, penaltyInput, s, now);
    CorrectEffect(w, id, s, now);
    var r := Checked(w, input, penaltyInput, s, now);
    SameQuestions(w.objs, id, Credited(c, NewStreak(c, w.isPracticingAgain)));
    SameMentions(r.objs, w.objs, w.sessionCards);
    RequeueMentions(r.objs, w.sessionCards, id, NewStreak(c, w.isPracticingAgain) < c.sessionRequiredStreak);
  }

  /** The queue after the correct branch: the card's question taken out,
      and the card appended when `again`. */
  function Requeue(objs: seq<SessionCard>, ids: seq<nat>, id: nat, again: bool): seq<nat> {
    var rest := RemoveFirst(objs, ids, QuestionOf(objs, id));
    if again then rest + [id] else rest
  }

  lemma RequeueMentions(objs: seq<SessionCard>, ids: seq<nat>, id: nat, again: bool)
    requires NoRepeat(objs, ids)
    ensures var q := QuestionOf(objs, id);
      var r := Requeue(objs, ids, id, again);
      && (Mentions(objs, r, q) <==> again)
      && (again ==> r[|r| - 1] == id)
      && (forall q' :: q' != q ==> (Mentions(objs, r, q') <==> Mentions(objs, ids, q')))
      && |r| == |ids| - (if Mentions(objs, ids, q) then 1 else 0) + (if again then 1 else 0)
  {
    var q := QuestionOf(objs, id);
    RemoveFirstSpec(objs, ids, q);
    var rest := RemoveFirst(objs, ids, q);
    if again {
      forall q' ensures Mentions(objs, rest + [id], q') <==> Mentions(objs, rest, q') || q' == q {
        MentionsAppend(objs, rest, id, q');
      }
    }
  }

  /** Two card lists that agree on every question agree on which questions
      a list of ids mentions and on whether it repeats one. */
  lemma SameMentions(objs: seq<SessionCard>, objs': seq<SessionCard>, ids: seq<nat>)
    requires forall i :: QuestionOf(objs, i) == QuestionOf(objs', i)
    ensures forall q :: Mentions(objs, ids, q) <==> Mentions(objs', ids, q)
    ensures NoRepeat(objs, ids) <==> NoRepeat(objs', ids)
  {
    forall q | Mentions(objs, ids, q) ensures Mentions(objs', ids, q) {
      var k :| 0 <= k < |ids| && QuestionOf(objs, ids[k]) == q;
      assert QuestionOf(objs', ids[k]) == q;
    }
  }

  /** A question is mentioned after appending `id` exactly when it was
      before or it is the question of `id`. */
  lemma MentionsAppend(objs: seq<SessionCard>, ids: seq<nat>, id: nat, q: string)
    ensures Mentions(objs, ids + [id], q) <==> Mentions(objs, ids, q) || QuestionOf(objs, id) == q
  {
    var r := ids + [id];
    if Mentions(objs, ids, q) {
      var i :| 0 <= i < |ids| && QuestionOf(objs, ids[i]) == q;
      assert r[i] == ids[i];
    }
    if QuestionOf(objs, id) == q {
      assert r[|ids|] == id;
    }
    if Mentions(objs, r, q) {
      var i :| 0 <= i < |r| && QuestionOf(objs, r[i]) == q;
      if i < |ids| {
        assert r[i] == ids[i];
      }
    }
  }

  /** Appending a card whose question is not there keeps each question
      once. */
  lemma AppendNoRepeat(objs: seq<SessionCard>, ids: seq<nat>, id: nat)
    requires NoRepeat(objs, ids) && !Mentions(objs, ids, QuestionOf(objs, id))
    ensures NoRepeat(objs, ids + [id])
  {
    var r := ids + [id];
    forall i, j | 0 <= i < j < |r| ensures QuestionOf(objs, r[i]) != QuestionOf(objs, r[j]) {
      if j == |ids| {
        assert r[i] == ids[i];
      }
    }
  }

  /** Grading keeps every index in range and each list free of repeated
      questions. */
  lemma CheckedCoherent(w: Session, input: string, penaltyInput: Option<int>, s: SrsSettings, now: int)
    requires Wf(w) && Coherent(w)
    ensures Wf(Checked(w, input, penaltyInput, s, now)) && Coherent(Checked(w, input, penaltyInput, s, now))
  {
    if !w.isChecking && Trim(input) != "" && w.cardOnDisplay.Some? {
      if Accepts(w.objs[w.cardOnDisplay.value].card.answers, Trim(input)) {
        CorrectCoherent(w, input, penaltyInput, s, now);
      } else {
        WrongCoherent(w, input, penaltyInput, s, now);
      }
    }
  }

  lemma CorrectCoherent(w: Session, input: string, penaltyInput: Option<int>, s: SrsSettings, now: int)
    requires Wf(w) && Coherent(w) && !w.isChecking && Trim(input) != "" && w.cardOnDisplay.Some?
    requires Accepts(w.objs[w.cardOnDisplay.value].card.answers, Trim(input))
    ensures Wf(Checked(w, input, penaltyInput, s, now)) && Coherent(Checked(w, input, penaltyInput, s, now))
  {
    CheckedCorrectBranch(w, input, penaltyInput, s, now);
    CorrectBranchCoherent(w, w.cardOnDisplay.value, s, now);
  }

  lemma CorrectBranchCoherent(w: Session, id: nat, s: SrsSettings, now: int)
    requires Wf(w) && Coherent(w) && id < |w.objs|
    ensures var r := AnsweredCorrectly(AttemptMarked(w, id), id, s, now);
      Wf(r) && Coherent(r)
  {
    var w1 := AttemptMarked(w, id);
    SameQuestions(w.objs, id, w1.objs[id]);
    SameShapeCoherent(w, w1);
    var w2 := CorrectMarked(w1, id);
    SameQuestions(w1.objs, id, w2.objs[id]);
    assert Wf(w2) && Coherent(w2);
    var w3 := CorrectHandled(w2, id, w.isPracticingAgain, s, now);
    CorrectHandledCoherent(w2, id, w.isPracticingAgain, s, now);
    RequeuedCoherent(w3, id);
  }

  /** Counting and recording a correct answer leaves the lists alone. */
  lemma CorrectHandledCoherent(w: Session, id: nat, skip: bool, s: SrsSettings, now: int)
    requires Wf(w) && Coherent(w) && id < |w.objs|
    ensures var r := CorrectHandled(w, id, skip, s, now);
      Wf(r) && Coherent(r) && r.objs == w.objs
  {
  }

  /** Taking the card out of the queue and, while its streak is short,
      putting it back at the end keeps each question once. */
  lemma RequeuedCoherent(w: Session, id: nat)
    requires Wf(w) && Coherent(w) && id < |w.objs|
    ensures Wf(Requeued(w, id)) && Coherent(Requeued(w, id))
  {
    var c := w.objs[id];
    var q := c.card.question;
    var rest := RemoveFirst(w.objs, w.sessionCards, q);
    RemoveFirstKeeps(w.objs, w.sessionCards, q, |w.objs|);
    var queue := if c.correctStreak < c.sessionRequiredStreak then rest + [id] else rest;
    if c.correctStreak < c.sessionRequiredStreak {
      assert QuestionOf(w.objs, id) == q;
      AppendNoRepeat(w.objs, rest, id);
    }
    assert Requeued(w, id) == w.(isPracticingAgain := false, sessionCards := queue);
    QueueReplacedCoherent(w, queue);
  }

  /** The part of `RemoveFirstSpec` the queue updates need. */
  lemma RemoveFirstKeeps(objs: seq<SessionCard>, ids: seq<nat>, q: string, n: nat)
    requires NoRepeat(objs, ids) && IdsIn(ids, n)
    ensures var r := RemoveFirst(objs, ids, q);
      NoRepeat(objs, r) && !Mentions(objs, r, q) && IdsIn(r, n)
  {
    RemoveFirstSpec(objs, ids, q);
  }

  /** A new queue of valid ids holding each question once keeps a session
      well formed and coherent. */
  lemma QueueReplacedCoherent(w: Session, queue: seq<nat>)
    requires Wf(w) && Coherent(w) && IdsIn(queue, |w.objs|) && NoRepeat(w.objs, queue)
    ensures Wf(w.(isPracticingAgain := false, sessionCards := queue))
    ensures Coherent(w.(isPracticingAgain := false, sessionCards := queue))
  {
  }

  lemma WrongCoherent(w: Session, input: string, penaltyInput: Option<int>, s: SrsSettings, now: int)
    requires Wf(w) && Coherent(w) && !w.isChecking && Trim(input) != "" && w.cardOnDisplay.Some?
    requires !Accepts(w.objs[w.cardOnDisplay.value].card.answers, Trim(input))
    ensures Wf(Checked(w, input, penaltyInput, s, now)) && Coherent(Checked(w, input, penaltyInput, s, now))
  {
    CheckedWrongBranch(w, input, penaltyInput, s, now);
    WrongBranchCoherent(w, w.cardOnDisplay.value, Normalize(Trim(input)), OrDefault(penaltyInput, 2), s, now);
  }

  lemma WrongBranchCoherent(w: Session, id: nat, processed: string, penalty: int, s: SrsSettings, now: int)
    requires Wf(w) && Coherent(w) && id < |w.objs|
    ensures var r := AnsweredWrongly(AttemptMarked(w, id), id, processed, penalty, s, now);
      Wf(r) && Coherent(r)
  {
    var w1 := AttemptMarked(w, id);
    SameQuestions(w.objs, id, w1.objs[id]);
    SameShapeCoherent(w, w1);
    var w2 := WrongMarked(w1, id, processed, penalty);
    SameQuestions(w1.objs, id, w2.objs[id]);
    SameShapeCoherent(w1, w2);
    IncorrectHandledCoherent(w2, id, w.isPracticingAgain, s, now);
  }

  /** Well-formedness and coherence depend only on the store, the lists,
      the two card pointers and the question of each session card. */
  lemma SameShapeCoherent(w: Session, w': Session)
    requires Wf(w) && Coherent(w)
    requires w'.cards == w.cards && w'.sessionCards == w.sessionCards
    requires w'.sessionIncorrectCards == w.sessionIncorrectCards && w'.reviewAgainPile == w.reviewAgainPile
    requires w'.cardOnDisplay == w.cardOnDisplay && w'.lastCorrectlyAnsweredCard == w.lastCorrectlyAnsweredCard
    requires |w'.objs| == |w.objs| && forall i :: QuestionOf(w'.objs, i) == QuestionOf(w.objs, i)
    ensures Wf(w') && Coherent(w')
  {
  }

  /** The counters and lists of a wrong answer keep each question once. */
  lemma IncorrectHandledCoherent(w: Session, id: nat, skip: bool, s: SrsSettings, now: int)
    requires Wf(w) && Coherent(w) && id < |w.objs|
    ensures Wf(IncorrectHandled(w, id, skip, s, now)) && Coherent(IncorrectHandled(w, id, skip, s, now))
  {
    IncorrectHandledWf(w, id, skip, s, now);
    IncorrectCountedCoherent(w, id, skip);
    var r := IncorrectHandled(w, id, skip, s, now);
    var c := IncorrectCounted(w, id, skip);
    assert r.objs == c.objs && r.sessionCards == c.sessionCards;
    assert r.sessionIncorrectCards == c.sessionIncorrectCards && r.reviewAgainPile == c.reviewAgainPile;
  }

  lemma IncorrectCountedCoherent(w: Session, id: nat, skip: bool)
    requires Coherent(w) && id < |w.objs|
    ensures Coherent(IncorrectCounted(w, id, skip))
  {
    var q := w.objs[id].card.question;
    assert QuestionOf(w.objs, id) == q;
    if !skip {
      if !Mentions(w.objs, w.sessionIncorrectCards, q) {
        AppendNoRepeat(w.objs, w.sessionIncorrectCards, id);
      }
      if !w.isCramming && !Mentions(w.objs, w.reviewAgainPile, q) {
        AppendNoRepeat(w.objs, w.reviewAgainPile, id);
      }
    }
  }

  // ---------------------------------------------------------------------
  // the summary

  /** One more lapse for each of a list of distinct questions: every stored
      card listed is reviewed as wrong once, every other card and the
      order of the store stay. */
  lemma {:induction false} RelapseEffect(m: OMap<Card>, qs: seq<string>, s: SrsSettings, now: int)
    requires StoreValid(m) && Distinct(qs)
    ensures var r := Relapse(m, qs, s, now);
      && r.keys == m.keys && r.entries.Keys == m.entries.Keys
      && (forall k :: k in m.entries ==>
            r.entries[k] == if k in qs then Reviewed(m.entries[k], false, s, now) else m.entries[k])
    decreases |qs|
  {
    if |qs| > 0 {
      var n := |qs| - 1;
      var front := qs[..n];
      assert Distinct(front);
      RelapseEffect(m, front, s, now);
      assert qs == front + [qs[n]];
      assert qs[n] !in front;
      forall k | k in m.entries
        ensures Relapse(m, qs, s, now).entries[k] ==
          if k in qs then Reviewed(m.entries[k], false, s, now) else m.entries[k]
      {
        assert k in qs <==> k in front || k == qs[n];
      }
    }
  }

  /** The summary of a review session reviews each stored card of the
      incorrect list as wrong once more; a cram session's summary, or one
      with no wrong answers, leaves the store alone. The history stays. */
  lemma SummaryRelapses(w: Session, s: SrsSettings, now: int)
    requires Wf(w) && Coherent(w)
    ensures var r := Summarized(w, s, now);
      && r.history == w.history && r.cards.keys == w.cards.keys && r.cards.entries.Keys == w.cards.entries.Keys
      && !r.isChecking && !r.isAnswerCorrect
      && (w.isCramming ==> r.cards == w.cards)
      && (!w.isCramming ==> forall k :: k in w.cards.entries ==>
            r.cards.entries[k] ==
              if Mentions(w.objs, w.sessionIncorrectCards, k) then Reviewed(w.cards.entries[k], false, s, now)
              else w.cards.entries[k])
  {
    var qs := Questions(w.objs, w.sessionIncorrectCards);
    assert Distinct(qs);
    RelapseEffect(w.cards, qs, s, now);
    forall k ensures k in qs <==> Mentions(w.objs, w.sessionIncorrectCards, k) {
      if k in qs {
        var i :| 0 <= i < |qs| && qs[i] == k;
      }
    }
  }

  // ---------------------------------------------------------------------
  // the remaining-cards line

  /** On a queue holding each question once, the remaining-cards line
      counts every queued card. */
  lemma {:induction false} QuestionSetSize(objs: seq<SessionCard>, ids: seq<nat>)
    requires NoRepeat(objs, ids)
    ensures |QuestionSet(objs, ids)| == |ids|
    decreases |ids|
  {
    if |ids| > 0 {
      var front := ids[..|ids| - 1];
      QuestionSetSnoc(objs, ids);
      QuestionSetSize(objs, front);
    }
  }

  /** Without its last entry a queue holding each question once still does,
      its question set loses exactly the last entry's question, and that
      question was not among the others. */
  lemma QuestionSetSnoc(objs: seq<SessionCard>, ids: seq<nat>)
    requires NoRepeat(objs, ids) && |ids| > 0
    ensures var front, q := ids[..|ids| - 1], QuestionOf(objs, ids[|ids| - 1]);
      && NoRepeat(objs, front)
      && QuestionSet(objs, ids) == QuestionSet(objs, front) + {q}
      && q !in QuestionSet(objs, front)
  {
    var n := |ids| - 1;
    var front := ids[..n];
    var q := QuestionOf(objs, ids[n]);
    forall i, j | 0 <= i < j < |front| ensures QuestionOf(objs, front[i]) != QuestionOf(objs, front[j]) {
      assert front[i] == ids[i] && front[j] == ids[j];
    }
    forall x | x in QuestionSet(objs, ids) ensures x in QuestionSet(objs, front) + {q} {
      var k :| 0 <= k < |ids| && x == QuestionOf(objs, ids[k]);
      if k < n { assert front[k] == ids[k]; }
    }
    forall x | x in QuestionSet(objs, front) ensures x in QuestionSet(objs, ids) && x != q {
      var k :| 0 <= k < |front| && x == QuestionOf(objs, front[k]);
      assert front[k] == ids[k];
    }
  }
}
