/** The review session as a value: the fields of the page's shared `state`
    object together with the card store, and one function per step of the
    session engine — starting a session, showing the next card, grading an
    answer, and the summary with its relapse pass. The class `State` of
    module `GameFlow` performs these steps in place and is proved to end in
    the state these functions compute.

    Session cards are objects in the source: the queue, the card on display,
    the last correctly answered card, the incorrect list and the review-again
    pile all hold references, and a change to one card is seen through every
    reference. Here every session card ever created has an index in `objs`,
    and those fields hold indices. */
module ReviewSession {
  import opened Wrappers
  import opened Seqs
  import opened Text
  import opened Sorting
  import opened OrderedMap
  import opened WordList
  import opened Settings
  import opened Scheduler
  import opened EditDistance
  import opened ScriptType
  import opened Shuffle
  import opened CardManager

  /** `{...card, correctStreak, sessionRequiredStreak, hasBeenAttempted}`:
      a copy of a stored card with its progress in this session. */
  datatype SessionCard = SessionCard(
    card: Card,
    correctStreak: int,
    sessionRequiredStreak: int,
    hasBeenAttempted: bool)

  /** `state.lastIncorrectAnswer`: the card and the normalised wrong answer. */
  datatype IncorrectAnswer = IncorrectAnswer(cardQuestion: string, answer: string)

  /** The review-scope radio buttons. */
  datatype Scope = TextareaScope | StarredScope | AllScope

  /** The session state and the card store. */
  datatype Session = Session(
    objs: seq<SessionCard>,
    sessionCards: seq<nat>,
    currentCardIndex: int,
    sessionCorrectCount: int,
    sessionIncorrectCount: int,
    sessionIncorrectCards: seq<nat>,
    reviewAgainPile: seq<nat>,
    isChecking: bool,
    pendingGracefulExit: bool,
    isAnswerCorrect: bool,
    isCramming: bool,
    cardOnDisplay: Option<nat>,
    lastCorrectlyAnsweredCard: Option<nat>,
    isPracticingAgain: bool,
    lastIncorrectAnswer: Option<IncorrectAnswer>,
    currentEditingCard: Option<string>,
    cards: OMap<Card>,
    history: seq<HistoryEntry>)

  // ---------------------------------------------------------------------
  // session cards by question

  function QuestionOf(objs: seq<SessionCard>, id: nat): string {
    if id < |objs| then objs[id].card.question else ""
  }

  function Questions(objs: seq<SessionCard>, ids: seq<nat>): (qs: seq<string>)
    ensures |qs| == |ids|
    ensures forall k :: 0 <= k < |ids| ==> qs[k] == QuestionOf(objs, ids[k])
  {
    seq(|ids|, k requires 0 <= k < |ids| => QuestionOf(objs, ids[k]))
  }

  /** The filter `c => c.question !== q`. */
  function Keeps(objs: seq<SessionCard>, q: string): nat -> bool {
    (id: nat) => QuestionOf(objs, id) != q
  }

  /** The filter `c => c.hasBeenAttempted`. */
  function Attempted(objs: seq<SessionCard>): nat -> bool {
    (id: nat) => id < |objs| && objs[id].hasBeenAttempted
  }

  /** `ids.some(c => c.question === q)`. */
  predicate Mentions(objs: seq<SessionCard>, ids: seq<nat>, q: string) {
    exists k :: 0 <= k < |ids| && QuestionOf(objs, ids[k]) == q
  }

  /** No two entries of `ids` are cards with the same question. */
  ghost predicate NoRepeat(objs: seq<SessionCard>, ids: seq<nat>) {
    forall i, j :: 0 <= i < j < |ids| ==> QuestionOf(objs, ids[i]) != QuestionOf(objs, ids[j])
  }

  predicate IdsIn(ids: seq<nat>, n: nat) {
    forall k :: 0 <= k < |ids| ==> ids[k] < n
  }

  /** `ids.findIndex(c => c.question === q)`: the first position holding
      `q`, or -1. */
  function FindQuestion(objs: seq<SessionCard>, ids: seq<nat>, q: string): (k: int)
    ensures -1 <= k < |ids|
    ensures k >= 0 ==> QuestionOf(objs, ids[k]) == q
    ensures forall i :: 0 <= i < |ids| && (k < 0 || i < k) ==> QuestionOf(objs, ids[i]) != q
    decreases |ids|
  {
    if |ids| == 0 then -1
    else if QuestionOf(objs, ids[0]) == q then 0
    else
      var k := FindQuestion(objs, ids[1..], q);
      if k < 0 then -1 else k + 1
  }

  /** The `findIndex` and `splice(index, 1)` of a correct answer. */
  function RemoveFirst(objs: seq<SessionCard>, ids: seq<nat>, q: string): seq<nat> {
    var k := FindQuestion(objs, ids, q);
    if k < 0 then ids else ids[..k] + ids[k + 1..]
  }

  /** Every index the state holds names a session card, and the store is
      keyed by question. */
  ghost predicate Wf(w: Session) {
    StoreValid(w.cards)
    && IdsIn(w.sessionCards, |w.objs|)
    && IdsIn(w.sessionIncorrectCards, |w.objs|)
    && IdsIn(w.reviewAgainPile, |w.objs|)
    && (w.cardOnDisplay.Some? ==> w.cardOnDisplay.value < |w.objs|)
    && (w.lastCorrectlyAnsweredCard.Some? ==> w.lastCorrectlyAnsweredCard.value < |w.objs|)
  }

  /** The queue, the incorrect list and the review-again pile each hold a
      question at most once. */
  ghost predicate Coherent(w: Session) {
    NoRepeat(w.objs, w.sessionCards)
    && NoRepeat(w.objs, w.sessionIncorrectCards)
    && NoRepeat(w.objs, w.reviewAgainPile)
  }

  // ---------------------------------------------------------------------
  // choosing the cards of a session

  /** `textareaOrder.indexOf(x)`. */
  function IndexIn(xs: seq<string>, x: string): (k: int)
    ensures -1 <= k < |xs|
    ensures k >= 0 ==> xs[k] == x
    ensures forall i :: 0 <= i < |xs| && (k < 0 || i < k) ==> xs[i] != x
    decreases |xs|
  {
    if |xs| == 0 then -1
    else if xs[0] == x then 0
    else
      var k := IndexIn(xs[1..], x);
      if k < 0 then -1 else k + 1
  }

  function Listed(order: seq<string>): Card -> bool {
    (c: Card) => c.question in order
  }

  function Starred(): Card -> bool {
    (c: Card) => c.isStarred
  }

  /** `startSmartReview`: the due cards, narrowed to the questions listed in
      the word list or to the starred cards. */
  function SmartReviewCards(m: OMap<Card>, wordList: string, scope: Scope, now: int): seq<Card>
    requires OrderedMap.Valid(m)
  {
    match scope
    case TextareaScope => Filter(DueCards(m, now), Listed(ListedQuestions(wordList)))
    case StarredScope => Filter(DueCards(m, now), Starred())
    case AllScope => DueCards(m, now)
  }

  function ActiveListed(order: seq<string>): Card -> bool {
    (c: Card) => !c.isSuspended && c.question in order
  }

  function ActiveStarred(): Card -> bool {
    (c: Card) => !c.isSuspended && c.isStarred
  }

  /** The cram comparator: the position of the first listing of the
      question in the word list. */
  function ListingOrder(order: seq<string>): (Card, Card) -> real {
    (a: Card, b: Card) => (IndexIn(order, a.question) - IndexIn(order, b.question)) as real
  }

  /** `startCramSession`: the active cards in scope, in word-list order
      unless the order is random. */
  function CramCards(m: OMap<Card>, wordList: string, scope: Scope, randomOrder: bool): seq<Card>
    requires OrderedMap.Valid(m)
  {
    match scope
    case TextareaScope =>
      var order := ListedQuestions(wordList);
      var chosen := Filter(Values(m), ActiveListed(order));
      if randomOrder then chosen else SortBy(chosen, ListingOrder(order))
    case StarredScope => Filter(Values(m), ActiveStarred())
    case AllScope => ActiveCards(m)
  }

  /** The cards in session order: shuffled in place when the random-order
      box is ticked. */
  function Ordered(cards: seq<Card>, randomOrder: bool, random: nat -> real): seq<Card>
    requires forall k :: 0.0 <= random(k) < 1.0
  {
    if randomOrder then FisherYates(cards, if |cards| == 0 then 0 else |cards| - 1, 0, random)
    else cards
  }

  // ---------------------------------------------------------------------
  // the steps of a session

  /** The new session cards: streak 0, the required streak of the
      settings, not yet attempted. */
  function Entered(cards: seq<Card>, requiredStreak: int): (r: seq<SessionCard>)
    ensures |r| == |cards|
    ensures forall k :: 0 <= k < |r| ==> r[k] == SessionCard(cards[k], 0, requiredStreak, false)
  {
    seq(|cards|, k requires 0 <= k < |cards| => SessionCard(cards[k], 0, requiredStreak, false))
  }

  function Range(lo: nat, n: nat): (r: seq<nat>)
    ensures |r| == n
    ensures forall k :: 0 <= k < n ==> r[k] == lo + k
  {
    seq(n, k requires 0 <= k < n => lo + k)
  }

  /** The store after one more `update(q, false)` for each of `qs`. */
  function Relapse(m: OMap<Card>, qs: seq<string>, s: SrsSettings, now: int): (r: OMap<Card>)
    requires StoreValid(m)
    ensures StoreValid(r)
    decreases |qs|
  {
    if |qs| == 0 then m
    else AfterReview(Relapse(m, qs[..|qs| - 1], s, now), qs[|qs| - 1], false, s, now)
  }

  /** `showSummary`: in a review session, one more lapse for every card of
      the incorrect list. */
  function Summarized(w: Session, s: SrsSettings, now: int): (r: Session)
    requires Wf(w)
  {
    var w1 := w.(isChecking := false, isAnswerCorrect := false);
    if !w.isCramming && |w.sessionIncorrectCards| > 0 then
      w1.(cards := Relapse(w.cards, Questions(w.objs, w.sessionIncorrectCards), s, now))
    else w1
  }

  /** `displayNextCard`: the front of the queue, or the summary. */
  function Displayed(w: Session, s: SrsSettings, now: int): (r: Session)
    requires Wf(w)
  {
    var w1 := w.(isChecking := false, isAnswerCorrect := false);
    if |w.sessionCards| > 0 then w1.(cardOnDisplay := Some(w.sessionCards[0]))
    else Summarized(w1.(cardOnDisplay := None, pendingGracefulExit := false), s, now)
  }

  /** The resets of `startSession`: the counters, the incorrect list and
      the flags of the round. */
  function RoundReset(w: Session): (r: Session) {
    w.(currentCardIndex := 0, sessionCorrectCount := 0, sessionIncorrectCount := 0,
       sessionIncorrectCards := [], pendingGracefulExit := false,
       isChecking := false, isAnswerCorrect := false)
  }

  /** The first half of `startSession(cards)`: the cards enter the
      session as new objects, the queue holds them in order, and the round
      is reset. */
  function Queued(w: Session, cards: seq<Card>, requiredStreak: int): (r: Session) {
    RoundReset(w.(objs := w.objs + Entered(cards, requiredStreak),
                  sessionCards := Range(|w.objs|, |cards|)))
  }

  /** `startSession(cards)` on cards already in session order: an empty
      list changes nothing. */
  function Started(w: Session, cards: seq<Card>, s: SrsSettings, now: int): (r: Session)
    requires Wf(w)
  {
    if |cards| == 0 then w
    else Displayed(Queued(w, cards, s.requiredStreak), s, now)
  }

  /** The mode set and the word list synced into the store, as both ways
      of starting a session begin. */
  function Synced(w: Session, cramming: bool, wordList: string, now: int): (r: Session)
    requires Wf(w)
  {
    w.(isCramming := cramming, cards := SyncedText(w.cards, wordList, now))
  }

  /** `startSmartReview`: sync the word list, then start a session on the
      due cards in scope. */
  function SmartReviewStarted(w: Session, wordList: string, scope: Scope, randomOrder: bool,
                              random: nat -> real, s: SrsSettings, now: int): (r: Session)
    requires Wf(w) && forall k :: 0.0 <= random(k) < 1.0
  {
    var w1 := Synced(w, false, wordList, now);
    Started(w1, Ordered(SmartReviewCards(w1.cards, wordList, scope, now), randomOrder, random), s, now)
  }

  /** `startCramSession`: sync the word list, then start a session on the
      active cards in scope. */
  function CramStarted(w: Session, wordList: string, scope: Scope, randomOrder: bool,
                       random: nat -> real, s: SrsSettings, now: int): (r: Session)
    requires Wf(w) && forall k :: 0.0 <= random(k) < 1.0
  {
    var w1 := Synced(w, true, wordList, now);
    Started(w1, Ordered(CramCards(w1.cards, wordList, scope, randomOrder), randomOrder, random), s, now)
  }

  /** The distinct questions of the queue, whose number the remaining-cards
      line shows. */
  function QuestionSet(objs: seq<SessionCard>, ids: seq<nat>): set<string> {
    set k | 0 <= k < |ids| :: QuestionOf(objs, ids[k])
  }

  /** `processedAnswers.includes(processedUserAnswer)`. */
  function NormalizedAll(answers: seq<string>): (r: seq<string>)
    ensures |r| == |answers|
    ensures forall k :: 0 <= k < |answers| ==> r[k] == Normalize(answers[k])
  {
    seq(|answers|, k requires 0 <= k < |answers| => Normalize(answers[k]))
  }

  predicate Accepts(answers: seq<string>, userAnswer: string) {
    Normalize(userAnswer) in NormalizedAll(answers)
  }

  /** The history after `addReviewHistory` for `q`, which writes only for
      a stored card. */
  function Logged(h: seq<HistoryEntry>, m: OMap<Card>, q: string, isCorrect: bool, now: int): seq<HistoryEntry> {
    if q in m.entries then h + [Recorded(q, isCorrect, m.entries[q], now)] else h
  }

  /** `handleCorrectAnswer(card, skip)`. */
  function CorrectHandled(w: Session, id: nat, skip: bool, s: SrsSettings, now: int): (r: Session)
    requires Wf(w) && id < |w.objs|
  {
    var q := w.objs[id].card.question;
    var w1 := if skip then w else w.(sessionCorrectCount := w.sessionCorrectCount + 1);
    if !w.isCramming && !skip then
      w1.(history := Logged(w.history, w.cards, q, true, now),
          cards := if w.objs[id].correctStreak >= s.requiredStreak then AfterReview(w.cards, q, true, s, now)
                   else w.cards)
    else w1
  }

  /** The counters and lists of `handleIncorrectAnswer`: a wrong answer
      that is not a replay is counted, and its card joins the incorrect
      list and, when reviewing, the review-again pile, unless a card with
      its question is already there. */
  function IncorrectCounted(w: Session, id: nat, skip: bool): (r: Session)
    requires id < |w.objs|
  {
    var q := w.objs[id].card.question;
    if skip then w
    else w.(sessionIncorrectCount := w.sessionIncorrectCount + 1,
            sessionIncorrectCards :=
              if Mentions(w.objs, w.sessionIncorrectCards, q) then w.sessionIncorrectCards
              else w.sessionIncorrectCards + [id],
            reviewAgainPile :=
              if !w.isCramming && !Mentions(w.objs, w.reviewAgainPile, q) then w.reviewAgainPile + [id]
              else w.reviewAgainPile)
  }

  /** `handleIncorrectAnswer(card, skip)`, but for the closest answer,
      which only feeds the feedback text. */
  function IncorrectHandled(w: Session, id: nat, skip: bool, s: SrsSettings, now: int): (r: Session)
    requires Wf(w) && id < |w.objs|
  {
    var q := w.objs[id].card.question;
    var w1 := IncorrectCounted(w, id, skip);
    if !w.isCramming && !skip then
      w1.(history := Logged(w.history, w.cards, q, false, now), cards := AfterReview(w.cards, q, false, s, now))
    else w1
  }

  lemma IncorrectHandledWf(w: Session, id: nat, skip: bool, s: SrsSettings, now: int)
    requires Wf(w) && id < |w.objs|
    ensures Wf(IncorrectHandled(w, id, skip, s, now))
  {
  }

  /** The streak after a correct answer: one more, up to the required
      streak, unless the answer is a replay. */
  function NewStreak(c: SessionCard, practicing: bool): (streak: int)
    ensures practicing ==> streak == c.correctStreak
    ensures !practicing && c.correctStreak < c.sessionRequiredStreak ==> streak == c.correctStreak + 1
    ensures !practicing ==> streak <= c.sessionRequiredStreak
  {
    if practicing then c.correctStreak
    else if c.correctStreak + 1 > c.sessionRequiredStreak then c.sessionRequiredStreak
    else c.correctStreak + 1
  }

  /** The first steps of the correct branch of `checkAnswer`. */
  function CorrectMarked(w: Session, id: nat): (r: Session)
    requires id < |w.objs|
  {
    var c := w.objs[id];
    w.(isAnswerCorrect := true, lastCorrectlyAnsweredCard := Some(id), lastIncorrectAnswer := None,
       objs := w.objs[id := c.(correctStreak := NewStreak(c, w.isPracticingAgain))])
  }

  /** The last steps of the correct branch: the card leaves the queue, and
      goes to its end while its streak is short of the required streak. */
  function Requeued(w: Session, id: nat): (r: Session)
    requires id < |w.objs|
  {
    var c := w.objs[id];
    var rest := RemoveFirst(w.objs, w.sessionCards, c.card.question);
    w.(isPracticingAgain := false,
       sessionCards := if c.correctStreak < c.sessionRequiredStreak then rest + [id] else rest)
  }

  /** The correct branch of `checkAnswer`. */
  function AnsweredCorrectly(w: Session, id: nat, s: SrsSettings, now: int): (r: Session)
    requires Wf(w) && id < |w.objs|
  {
    var w1 := CorrectMarked(w, id);
    Requeued(CorrectHandled(w1, id, w.isPracticingAgain, s, now), id)
  }

  /** The first steps of the incorrect branch of `checkAnswer`; `processed`
      is the normalised answer. The penalty raises the required streak
      unless the answer is a replay or repeats the last wrong answer to the
      same question. */
  function WrongMarked(w: Session, id: nat, processed: string, penalty: int): (r: Session)
    requires id < |w.objs|
  {
    var c := w.objs[id];
    var q := c.card.question;
    var same := w.lastIncorrectAnswer == Some(IncorrectAnswer(q, processed));
    w.(isAnswerCorrect := false, isChecking := false,
       objs := if !w.isPracticingAgain && !same
               then w.objs[id := c.(sessionRequiredStreak := c.sessionRequiredStreak + penalty)]
               else w.objs,
       lastIncorrectAnswer := Some(IncorrectAnswer(q, processed)))
  }

  /** The incorrect branch of `checkAnswer`. */
  function AnsweredWrongly(w: Session, id: nat, processed: string, penalty: int, s: SrsSettings, now: int): (r: Session)
    requires Wf(w) && id < |w.objs|
  {
    IncorrectHandled(WrongMarked(w, id, processed, penalty), id, w.isPracticingAgain, s, now)
  }

  /** The step of `checkAnswer` before grading: the card is attempted and
      the check is under way. */
  function AttemptMarked(w: Session, id: nat): (r: Session)
    requires id < |w.objs|
  {
    w.(isChecking := true, objs := w.objs[id := w.objs[id].(hasBeenAttempted := true)])
  }

  /** `checkAnswer` with the answer box holding `input` and the penalty box
      parsing to `penaltyInput`. With no card on display the source fails
      on `currentCard.answers` after setting `isChecking`. */
  function Checked(w: Session, input: string, penaltyInput: Option<int>, s: SrsSettings, now: int): (r: Session)
    requires Wf(w)
  {
    var userAnswer := Trim(input);
    if w.isChecking || userAnswer == "" then w
    else if w.cardOnDisplay.None? then w.(isChecking := true)
    else
      var id := w.cardOnDisplay.value;
      var w1 := AttemptMarked(w, id);
      if Accepts(w.objs[id].card.answers, userAnswer) then AnsweredCorrectly(w1, id, s, now)
      else AnsweredWrongly(w1, id, Normalize(userAnswer), OrDefault(penaltyInput, 2), s, now)
  }

  // ---------------------------------------------------------------------
  // the closest answer

  function Alternates(answers: seq<string>): seq<string> {
    if |answers| >= 1 then answers[1..] else []
  }

  function OfType(t: StringType): string -> bool {
    (a: string) => TypeOf(a) == t
  }

  /** The answers the closest one is chosen from: the alternates of the
      input's script type, or all alternates when there are none. */
  function Candidates(answers: seq<string>, userAnswer: string): seq<string> {
    var same := Filter(Alternates(answers), OfType(TypeOf(userAnswer)));
    if |same| > 0 then same else Alternates(answers)
  }

  function Distance(userAnswer: string, a: string): nat {
    Dist(Normalize(userAnswer), Normalize(a))
  }

  /** The candidates are alternates, and all of the input's type whenever
      some alternate is. */
  lemma CandidatesAre(answers: seq<string>, userAnswer: string)
    ensures forall c :: c in Candidates(answers, userAnswer) ==> c in Alternates(answers)
    ensures (exists a :: a in Alternates(answers) && TypeOf(a) == TypeOf(userAnswer)) ==>
      forall c :: c in Candidates(answers, userAnswer) ==> TypeOf(c) == TypeOf(userAnswer)
  {
    var alts := Alternates(answers);
    var same := Filter(alts, OfType(TypeOf(userAnswer)));
    if a :| a in alts && TypeOf(a) == TypeOf(userAnswer) {
      var i :| 0 <= i < |alts| && alts[i] == a;
      assert OfType(TypeOf(userAnswer))(alts[i]);
      assert a in same;
    }
    forall c | c in same
      ensures c in alts && TypeOf(c) == TypeOf(userAnswer)
    {
      var i :| 0 <= i < |same| && same[i] == c;
      assert OfType(TypeOf(userAnswer))(same[i]);
    }
  }

  /** Among the first `n` candidates, `cands[k]` is at minimal distance
      from the input, and every earlier candidate is strictly farther. */
  ghost predicate FirstClosest(cands: seq<string>, n: nat, userAnswer: string, k: nat) {
    k < n <= |cands|
    && (forall j :: 0 <= j < n ==> Distance(userAnswer, cands[k]) <= Distance(userAnswer, cands[j]))
    && (forall j :: 0 <= j < k ==> Distance(userAnswer, cands[k]) < Distance(userAnswer, cands[j]))
  }

  /** One more step of the search: a strictly closer candidate replaces
      the best so far, a tie keeps it. */
  lemma FirstClosestStep(cands: seq<string>, n: nat, userAnswer: string, k: nat)
    requires n < |cands| && FirstClosest(cands, n, userAnswer, k)
    ensures Distance(userAnswer, cands[n]) < Distance(userAnswer, cands[k]) ==> FirstClosest(cands, n + 1, userAnswer, n)
    ensures Distance(userAnswer, cands[n]) >= Distance(userAnswer, cands[k]) ==> FirstClosest(cands, n + 1, userAnswer, k)
  {
  }

  /** What the closest-answer search yields: `answers[1]` is undefined when
      there are no alternates. */
  ghost predicate ClosestOf(answers: seq<string>, userAnswer: string, closest: Option<string>) {
    var cands := Candidates(answers, userAnswer);
    if |answers| < 2 then closest == None
    else exists k :: 0 <= k < |cands| && FirstClosest(cands, |cands|, userAnswer, k) && closest == Some(cands[k])
  }
}
