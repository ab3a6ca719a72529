/** The session engine as the page runs it: the shared `state` object as a
    class, whose methods change its fields and the card store in place.
    Each method is proved to end in the state that the corresponding
    function of module `ReviewSession` computes from the state it started
    in; the properties of a session are proved about those functions. */
module GameFlow {
  import opened Wrappers
  import opened Seqs
  import opened Text
  import opened OrderedMap
  import opened Settings
  import opened Scheduler
  import opened EditDistance
  import opened ScriptType
  import opened Shuffle
  import opened CardManager
  import opened ReviewSession

  /** How `checkAnswer` ended: ignored (already checking, or blank input),
      aborted (no card on display), or graded. A wrong answer carries the
      closest accepted answer the feedback highlights. */
  datatype Verdict = Ignored | Aborted | Correct | Incorrect(closestAnswer: Option<string>)

  /** The search loop over `candidates` of `handleIncorrectAnswer`: the first
      candidate at minimal edit distance from the normalised input. */
  method PickClosest(candidates: seq<string>, userAnswer: string, closestAnswer: Option<string>)
    returns (closest: Option<string>)
    ensures |candidates| == 0 ==> closest == closestAnswer
    ensures |candidates| > 0 ==>
      exists k :: 0 <= k < |candidates| && FirstClosest(candidates, |candidates|, userAnswer, k)
                  && closest == Some(candidates[k])
  {
    closest := closestAnswer;
    var normalizedUser := Normalize(userAnswer);
    var minDistance: Option<int> := None;
    ghost var best: nat := 0;
    var j := 0;
    while j < |candidates|
      invariant 0 <= j <= |candidates|
      invariant j == 0 ==> closest == closestAnswer && minDistance == None
      invariant j > 0 ==> FirstClosest(candidates, j, userAnswer, best)
      invariant j > 0 ==> closest == Some(candidates[best]) && minDistance == Some(Distance(userAnswer, candidates[best]))
    {
      var normalizedAns := Normalize(candidates[j]);
      var distance := CalculateEditDistance(normalizedUser, normalizedAns);
      if j > 0 {
        FirstClosestStep(candidates, j, userAnswer, best);
      }
      if minDistance.None? || distance < minDistance.value {
        minDistance := Some(distance);
        closest := Some(candidates[j]);
        best := j;
      }
      j := j + 1;
    }
  }

  /** The closest-answer choice of `handleIncorrectAnswer`: among the
      alternates `answers[1..]`, those of the input's script type if there
      are any, else all of them; the first at minimal distance wins. */
  method ClosestAnswer(answers: seq<string>, userAnswer: string) returns (closest: Option<string>)
    ensures ClosestOf(answers, userAnswer, closest)
    ensures closest.Some? ==> closest.value in Alternates(answers)
    ensures closest.Some? && (exists a :: a in Alternates(answers) && TypeOf(a) == TypeOf(userAnswer))
      ==> TypeOf(closest.value) == TypeOf(userAnswer)
  {
    var alternates := Alternates(answers);
    closest := if |answers| >= 2 then Some(answers[1]) else None;
    var userType := DetectStringType(userAnswer);
    var sameTypeAnswers := SameTypeAnswers(alternates, userType);
    ghost var cands := Candidates(answers, userAnswer);
    assert cands == if |sameTypeAnswers| > 0 then sameTypeAnswers else alternates;
    if |sameTypeAnswers| > 0 {
      closest := PickClosest(sameTypeAnswers, userAnswer, closest);
    } else {
      closest := PickClosest(alternates, userAnswer, closest);
    }
    CandidatesAre(answers, userAnswer);
  }

  /** The first pass of the search: the alternates of type `userType`. */
  method SameTypeAnswers(alternates: seq<string>, userType: StringType) returns (sameTypeAnswers: seq<string>)
    ensures sameTypeAnswers == Filter(alternates, OfType(userType))
  {
    sameTypeAnswers := [];
    var i := 0;
    while i < |alternates|
      invariant 0 <= i <= |alternates|
      invariant sameTypeAnswers == Filter(alternates[..i], OfType(userType))
    {
      var ansType := DetectStringType(alternates[i]);
      assert OfType(userType)(alternates[i]) <==> ansType == userType;
      FilterStep(alternates, i, OfType(userType));
      if ansType == userType {
        sameTypeAnswers := sameTypeAnswers + [alternates[i]];
      }
      i := i + 1;
    }
    assert alternates[..i] == alternates;
  }

  /** The page's `state` object, with the card store it shares. */
  class State {
    const store: CardStore
    const srsSettings: SettingsRecord
    const defaultSrsSettings: SettingsRecord
    var objs: seq<SessionCard>
    var sessionCards: seq<nat>
    var currentCardIndex: int
    var sessionCorrectCount: int
    var sessionIncorrectCount: int
    var sessionIncorrectCards: seq<nat>
    var reviewAgainPile: seq<nat>
    var isChecking: bool
    var pendingGracefulExit: bool
    var isAnswerCorrect: bool
    var isCramming: bool
    var cardOnDisplay: Option<nat>
    var lastCorrectlyAnsweredCard: Option<nat>
    var isPracticingAgain: bool
    var lastIncorrectAnswer: Option<IncorrectAnswer>
    var currentEditingCard: Option<string>

    /** The state and the store as a value. */
    function Snap(): Session
      reads this, store
    {
      Session(objs, sessionCards, currentCardIndex, sessionCorrectCount, sessionIncorrectCount,
              sessionIncorrectCards, reviewAgainPile, isChecking, pendingGracefulExit, isAnswerCorrect,
              isCramming, cardOnDisplay, lastCorrectlyAnsweredCard, isPracticingAgain,
              lastIncorrectAnswer, currentEditingCard, store.cards, store.history)
    }

    /** The settings the session reads now. */
    function Settings(): SrsSettings
      reads srsSettings, srsSettings.initialInterval, srsSettings.secondInterval, srsSettings.lapseInterval
    {
      srsSettings.Value()
    }

    ghost predicate Valid()
      reads this, store
    {
      Wf(Snap())
    }

    /** The initial `state`: no session, nothing on display. */
    constructor (store: CardStore, srsSettings: SettingsRecord, defaultSrsSettings: SettingsRecord)
      requires store.Valid()
      ensures this.store == store && this.srsSettings == srsSettings && this.defaultSrsSettings == defaultSrsSettings
      ensures objs == [] && sessionCards == [] && currentCardIndex == 0
      ensures sessionCorrectCount == 0 && sessionIncorrectCount == 0
      ensures sessionIncorrectCards == [] && reviewAgainPile == []
      ensures !isChecking && !pendingGracefulExit && !isAnswerCorrect && !isCramming && !isPracticingAgain
      ensures cardOnDisplay == None && lastCorrectlyAnsweredCard == None
      ensures lastIncorrectAnswer == None && currentEditingCard == None
      ensures Valid()
    {
      this.store := store;
      this.srsSettings := srsSettings;
      this.defaultSrsSettings := defaultSrsSettings;
      objs := [];
      sessionCards := [];
      currentCardIndex := 0;
      sessionCorrectCount := 0;
      sessionIncorrectCount := 0;
      sessionIncorrectCards := [];
      reviewAgainPile := [];
      isChecking := false;
      pendingGracefulExit := false;
      isAnswerCorrect := false;
      isCramming := false;
      cardOnDisplay := None;
      lastCorrectlyAnsweredCard := None;
      isPracticingAgain := false;
      lastIncorrectAnswer := None;
      currentEditingCard := None;
    }

    /** `startSession(cards)`. `random` stands for the successive values of
        `Math.random`. */
    method StartSession(cards: seq<Card>, randomOrder: bool, random: nat -> real, now: int)
      requires Valid() && forall k :: 0.0 <= random(k) < 1.0
      modifies this, store
      ensures Snap() == Started(old(Snap()), Ordered(cards, randomOrder, random), Settings(), now)
      ensures Valid()
    {
      if |cards| == 0 {
        return;
      }
      var order := Arrange(cards, randomOrder, random);
      EnterCards(order);
      DisplayNextCard(now);
    }

    /** The session order of `startSession`: the cards as given, or
        shuffled in a fresh array. */
    static method Arrange(cards: seq<Card>, randomOrder: bool, random: nat -> real) returns (order: seq<Card>)
      requires forall k :: 0.0 <= random(k) < 1.0
      ensures order == Ordered(cards, randomOrder, random)
      ensures |order| == |cards|
    {
      order := cards;
      if randomOrder {
        var a := new Card[|cards|](k requires 0 <= k < |cards| => cards[k]);
        assert a[..] == cards;
        Shuffle.Shuffle(a, random);
        order := a[..];
      }
    }

    /** The first half of `startSession`: the cards enter the session and
        the round is reset. */
    method EnterCards(order: seq<Card>)
      requires Valid()
      modifies this
      ensures Snap() == Queued(old(Snap()), order, Settings().requiredStreak)
      ensures Valid()
    {
      var requiredStreakSetting := srsSettings.requiredStreak;
      var first := |objs|;
      objs := objs + Entered(order, requiredStreakSetting);
      sessionCards := Range(first, |order|);
      assert IdsIn(sessionCards, |objs|);
      ResetRound();
    }

    /** The counters, the incorrect list and the flags of a new round. */
    method ResetRound()
      requires Valid()
      modifies this
      ensures Snap() == RoundReset(old(Snap()))
      ensures Valid()
    {
      ResetCounters();
      ResetFlags();
    }

    /** The position, the two counters and the incorrect list of a new round. */
    method ResetCounters()
      requires Valid()
      modifies this
      ensures Snap() == old(Snap()).(currentCardIndex := 0, sessionCorrectCount := 0, sessionIncorrectCount := 0,
                                     sessionIncorrectCards := [])
      ensures Valid()
    {
      currentCardIndex := 0;
      sessionCorrectCount := 0;
      sessionIncorrectCount := 0;
      sessionIncorrectCards := [];
    }

    /** The three flags of a new round. */
    method ResetFlags()
      requires Valid()
      modifies this
      ensures Snap() == old(Snap()).(pendingGracefulExit := false, isChecking := false, isAnswerCorrect := false)
      ensures Valid()
    {
      pendingGracefulExit := false;
      isChecking := false;
      isAnswerCorrect := false;
    }

    method StartSmartReview(wordList: string, scope: Scope, randomOrder: bool, random: nat -> real, now: int)
      requires Valid() && forall k :: 0.0 <= random(k) < 1.0
      modifies this, store
      ensures Snap() == SmartReviewStarted(old(Snap()), wordList, scope, randomOrder, random, Settings(), now)
      ensures Valid()
    {
      Sync(false, wordList, now);
      var dueCards := SmartReviewCards(store.cards, wordList, scope, now);
      StartSession(dueCards, randomOrder, random, now);
    }

    method StartCramSession(wordList: string, scope: Scope, randomOrder: bool, random: nat -> real, now: int)
      requires Valid() && forall k :: 0.0 <= random(k) < 1.0
      modifies this, store
      ensures Snap() == CramStarted(old(Snap()), wordList, scope, randomOrder, random, Settings(), now)
      ensures Valid()
    {
      Sync(true, wordList, now);
      var activeCards := CramCards(store.cards, wordList, scope, randomOrder);
      StartSession(activeCards, randomOrder, random, now);
    }

    /** The mode and `syncFromTextarea` at the start of a session. */
    method Sync(cramming: bool, wordList: string, now: int)
      requires Valid()
      modifies this, store
      ensures Snap() == Synced(old(Snap()), cramming, wordList, now)
      ensures Valid()
    {
      isCramming := cramming;
      store.SyncFromTextarea(wordList, now);
    }

    /** `updateRemainingCards`: the number of distinct questions queued. */
    function RemainingCards(): (n: nat)
      reads this
      ensures n == |QuestionSet(objs, sessionCards)|
    {
      |QuestionSet(objs, sessionCards)|
    }

    /** `displayNextCard`. */
    method DisplayNextCard(now: int)
      requires Valid()
      modifies this, store
      ensures Snap() == Displayed(old(Snap()), Settings(), now)
      ensures Valid()
    {
      ClearChecking();
      if |sessionCards| > 0 {
        cardOnDisplay := Some(sessionCards[0]);
      } else {
        cardOnDisplay := None;
        if pendingGracefulExit {
          pendingGracefulExit := false;
        }
        ShowSummary(now);
      }
    }

    /** `showSummary`. */
    method ShowSummary(now: int)
      requires Valid()
      modifies this, store
      ensures Snap() == Summarized(old(Snap()), Settings(), now)
      ensures Valid()
    {
      ClearChecking();
      if !isCramming && |sessionIncorrectCards| > 0 {
        RelapsePass(now);
      }
    }

    /** The loop of `showSummary` over the incorrect list. */
    method RelapsePass(now: int)
      requires Valid()
      modifies store
      ensures Valid() && store.history == old(store.history)
      ensures store.cards == Relapse(old(store.cards), Questions(objs, sessionIncorrectCards), Settings(), now)
    {
      ghost var qs := Questions(objs, sessionIncorrectCards);
      var i := 0;
      while i < |sessionIncorrectCards|
        invariant 0 <= i <= |sessionIncorrectCards|
        invariant store.Valid() && store.history == old(store.history)
        invariant store.cards == Relapse(old(store.cards), qs[..i], Settings(), now)
      {
        var question := objs[sessionIncorrectCards[i]].card.question;
        assert qs[..i + 1][..i] == qs[..i];
        if question in store.cards.entries {
          store.Update(question, false, srsSettings.Value(), now);
        }
        i := i + 1;
      }
      assert qs[..i] == qs;
    }

    /** `proceedToNextCard`. */
    method ProceedToNextCard(now: int)
      requires Valid()
      modifies this, store
      ensures Snap() == Displayed(old(Snap()), Settings(), now)
      ensures Valid()
    {
      ClearChecking();
      DisplayNextCard(now);
    }

    /** `isChecking = false` and `isAnswerCorrect = false`, as the start of
        `displayNextCard`, `showSummary` and `proceedToNextCard` do. */
    method ClearChecking()
      requires Valid()
      modifies this
      ensures Snap() == old(Snap()).(isChecking := false, isAnswerCorrect := false)
      ensures Valid()
    {
      isChecking := false;
      isAnswerCorrect := false;
    }

    /** `checkAnswer`. `input` is the answer box and `penaltyInput` the
        parsed penalty box (`None` for `NaN`). */
    method CheckAnswer(input: string, penaltyInput: Option<int>, now: int) returns (v: Verdict)
      requires Valid()
      modifies this, store
      ensures Snap() == Checked(old(Snap()), input, penaltyInput, Settings(), now)
      ensures v.Ignored? <==> old(isChecking) || Trim(input) == ""
      ensures v.Aborted? <==> !old(isChecking) && Trim(input) != "" && old(cardOnDisplay).None?
      ensures v.Correct? <==>
        (!old(isChecking) && Trim(input) != "" && old(cardOnDisplay).Some?
         && Accepts(old(objs)[old(cardOnDisplay).value].card.answers, Trim(input)))
      ensures v.Incorrect? ==> ClosestOf(old(objs)[old(cardOnDisplay).value].card.answers, Trim(input), v.closestAnswer)
      ensures Valid()
    {
      if isChecking {
        return Ignored;
      }
      var userAnswer := Trim(input);
      if userAnswer == "" {
        return Ignored;
      }
      if cardOnDisplay.None? {
        isChecking := true;
        return Aborted;
      }
      v := GradeAnswer(cardOnDisplay.value, userAnswer, penaltyInput, now);
    }

    /** The part of `checkAnswer` past its guards, with card `id` on display
        and the trimmed, non-empty `userAnswer`: mark the attempt, then
        grade the answer against the card's alternates. */
    method GradeAnswer(id: nat, userAnswer: string, penaltyInput: Option<int>, now: int) returns (v: Verdict)
      requires Valid() && !isChecking && cardOnDisplay == Some(id)
      modifies this, store
      ensures Snap() == (var w1 := AttemptMarked(old(Snap()), id);
        if Accepts(old(objs)[id].card.answers, userAnswer) then AnsweredCorrectly(w1, id, Settings(), now)
        else AnsweredWrongly(w1, id, Normalize(userAnswer), OrDefault(penaltyInput, 2), Settings(), now))
      ensures v.Correct? <==> Accepts(old(objs)[id].card.answers, userAnswer)
      ensures v.Incorrect? ==> ClosestOf(old(objs)[id].card.answers, userAnswer, v.closestAnswer)
      ensures !v.Ignored? && !v.Aborted?
      ensures Valid()
    {
      var processedUserAnswer := Normalize(userAnswer);
      var processedAnswers := NormalizedAll(objs[id].card.answers);
      var penalty := OrDefault(penaltyInput, 2);
      MarkAttempted(id);
      if processedUserAnswer in processedAnswers {
        AnswerCorrectly(id, now);
        v := Correct;
      } else {
        var closest := AnswerWrongly(id, userAnswer, penalty, now);
        v := Incorrect(closest);
      }
    }

    /** `currentCard.hasBeenAttempted = true` and `isChecking = true`. */
    method MarkAttempted(id: nat)
      requires Valid() && id < |objs|
      modifies this
      ensures Snap() == AttemptMarked(old(Snap()), id)
      ensures Valid()
    {
      isChecking := true;
      objs := objs[id := objs[id].(hasBeenAttempted := true)];
    }

    /** The correct branch of `checkAnswer`. */
    method AnswerCorrectly(id: nat, now: int)
      requires Valid() && id < |objs|
      modifies this, store
      ensures Snap() == AnsweredCorrectly(old(Snap()), id, Settings(), now)
      ensures Valid()
    {
      MarkCorrect(id);
      HandleCorrectAnswer(id, isPracticingAgain, now);
      Requeue(id);
    }

    /** The streak and the flags of the correct branch. */
    method MarkCorrect(id: nat)
      requires Valid() && id < |objs|
      modifies this
      ensures Snap() == CorrectMarked(old(Snap()), id)
      ensures Valid()
    {
      var card := objs[id];
      isAnswerCorrect := true;
      lastCorrectlyAnsweredCard := Some(id);
      lastIncorrectAnswer := None;
      if !isPracticingAgain {
        var streak := card.correctStreak + 1;
        if streak > card.sessionRequiredStreak {
          streak := card.sessionRequiredStreak;
        }
        objs := objs[id := card.(correctStreak := streak)];
      } else {
        assert objs[id := card.(correctStreak := card.correctStreak)] == objs;
      }
    }

    /** The queue update of the correct branch. */
    method Requeue(id: nat)
      requires Valid() && id < |objs|
      modifies this
      ensures Snap() == Requeued(old(Snap()), id)
      ensures Valid()
    {
      isPracticingAgain := false;
      var queue := sessionCards;
      var cardIndex := FindQuestion(objs, queue, objs[id].card.question);
      if cardIndex != -1 {
        queue := queue[..cardIndex] + queue[cardIndex + 1..];
      }
      assert IdsIn(queue, |objs|);
      if objs[id].correctStreak < objs[id].sessionRequiredStreak {
        queue := queue + [id];
      }
      sessionCards := queue;
    }

    /** The incorrect branch of `checkAnswer`. */
    method AnswerWrongly(id: nat, userAnswer: string, penalty: int, now: int) returns (closest: Option<string>)
      requires Valid() && id < |objs|
      modifies this, store
      ensures Snap() == AnsweredWrongly(old(Snap()), id, Normalize(userAnswer), penalty, Settings(), now)
      ensures ClosestOf(old(objs)[id].card.answers, userAnswer, closest)
      ensures Valid()
    {
      MarkWrong(id, Normalize(userAnswer), penalty);
      closest := HandleIncorrectAnswer(id, isPracticingAgain, userAnswer, now);
    }

    /** The penalty and the flags of the incorrect branch; `isChecking` is
        cleared here, which nothing in between reads. */
    method MarkWrong(id: nat, processedUserAnswer: string, penalty: int)
      requires Valid() && id < |objs|
      modifies this
      ensures Snap() == WrongMarked(old(Snap()), id, processedUserAnswer, penalty)
      ensures Valid() && |objs| == |old(objs)| && objs[id].card == old(objs)[id].card
    {
      var card := objs[id];
      var isSameIncorrectAnswer := lastIncorrectAnswer.Some?
        && lastIncorrectAnswer.value.cardQuestion == card.card.question
        && lastIncorrectAnswer.value.answer == processedUserAnswer;
      var marked := objs;
      if !isPracticingAgain && !isSameIncorrectAnswer {
        marked := marked[id := card.(sessionRequiredStreak := card.sessionRequiredStreak + penalty)];
      }
      objs := marked;
      lastIncorrectAnswer := Some(IncorrectAnswer(card.card.question, processedUserAnswer));
      ClearChecking();
    }

    /** `handleCorrectAnswer(card, skip)`. */
    method HandleCorrectAnswer(id: nat, skip: bool, now: int)
      requires Valid() && id < |objs|
      modifies this, store
      ensures Snap() == CorrectHandled(old(Snap()), id, skip, Settings(), now)
      ensures Valid()
    {
      var card := objs[id];
      if !skip {
        sessionCorrectCount := sessionCorrectCount + 1;
      }
      if !isCramming && !skip {
        RecordReview(card.card.question, true, card.correctStreak >= srsSettings.requiredStreak, now);
      }
    }

    /** `handleIncorrectAnswer(card, skip)`: the closest answer for the
        feedback, then the counters, the lists and the long-term record. */
    method HandleIncorrectAnswer(id: nat, skip: bool, userAnswer: string, now: int) returns (closestAnswer: Option<string>)
      requires Valid() && id < |objs|
      modifies this, store
      ensures Snap() == IncorrectHandled(old(Snap()), id, skip, Settings(), now)
      ensures ClosestOf(old(objs)[id].card.answers, userAnswer, closestAnswer)
      ensures Valid()
    {
      var card := objs[id];
      closestAnswer := ClosestAnswer(card.card.answers, userAnswer);
      RecordIncorrectAnswer(id, skip, now);
    }

    /** The part of `handleIncorrectAnswer` after the feedback. */
    method RecordIncorrectAnswer(id: nat, skip: bool, now: int)
      requires Valid() && id < |objs|
      modifies this, store
      ensures Snap() == IncorrectHandled(old(Snap()), id, skip, Settings(), now)
      ensures Valid()
    {
      ghost var w := Snap();
      var question := objs[id].card.question;
      CountIncorrectAnswer(id, skip);
      if !isCramming && !skip {
        RecordReview(question, false, true, now);
      }
      IncorrectHandledWf(w, id, skip, Settings(), now);
    }

    /** The counting part of `handleIncorrectAnswer`. */
    method CountIncorrectAnswer(id: nat, skip: bool)
      requires Valid() && id < |objs|
      modifies this
      ensures Snap() == IncorrectCounted(old(Snap()), id, skip)
      ensures Valid()
    {
      var question := objs[id].card.question;
      if !skip {
        var incorrectCards, pile := sessionIncorrectCards, reviewAgainPile;
        if !Mentions(objs, incorrectCards, question) {
          incorrectCards := incorrectCards + [id];
        }
        if !isCramming && !Mentions(objs, pile, question) {
          pile := pile + [id];
        }
        sessionIncorrectCount := sessionIncorrectCount + 1;
        sessionIncorrectCards := incorrectCards;
        reviewAgainPile := pile;
      }
    }

    /** `addReviewHistory` for a stored card, then `update` when `review`
        holds. */
    method RecordReview(question: string, isCorrect: bool, review: bool, now: int)
      requires store.Valid()
      modifies store
      ensures store.history == Logged(old(store.history), old(store.cards), question, isCorrect, now)
      ensures store.cards == if review then AfterReview(old(store.cards), question, isCorrect, Settings(), now)
                             else old(store.cards)
      ensures store.Valid()
    {
      if question in store.cards.entries {
        store.AddReviewHistory(question, isCorrect, store.cards.entries[question], now);
      }
      if review {
        store.Update(question, isCorrect, srsSettings.Value(), now);
      }
    }
  }
}
