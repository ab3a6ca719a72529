/** The buttons of the review screen and the card editor: redo, suspend,
    skip, finish round, star, and opening and saving the edit form. Each
    handler is a method on the page's `State` that is proved to end in the
    state a function of this module computes; the lemmas below say what
    those functions promise. */
module EventHandlers {
  import opened Wrappers
  import opened Seqs
  import opened Text
  import opened OrderedMap
  import opened WordList
  import opened Settings
  import opened Scheduler
  import opened CardManager
  import opened ReviewSession
  import opened GameFlow
  import opened SessionLaws

  // ---------------------------------------------------------------------
  // the review buttons as functions of the session

  /** The redo button: the card answered correctly last goes back to the
      front of the queue, to be practised once more without counting. */
  function Redone(w: Session, s: SrsSettings, now: int): (r: Session)
    requires Wf(w)
  {
    match w.lastCorrectlyAnsweredCard
    case None => w
    case Some(id) =>
      var queue := [id] + Filter(w.sessionCards, Keeps(w.objs, QuestionOf(w.objs, id)));
      assert IdsIn(queue, |w.objs|);
      Displayed(w.(isPracticingAgain := true, sessionCards := queue, lastCorrectlyAnsweredCard := None,
                   isChecking := false, isAnswerCorrect := false), s, now)
  }

  /** The skip button: every queued card with the question on display
      leaves the queue, and the next card is shown. */
  function Skipped(w: Session, s: SrsSettings, now: int): (r: Session)
    requires Wf(w)
  {
    match w.cardOnDisplay
    case None => w
    case Some(id) =>
      var queue := Filter(w.sessionCards, Keeps(w.objs, QuestionOf(w.objs, id)));
      assert IdsIn(queue, |w.objs|);
      Displayed(w.(sessionCards := queue), s, now)
  }

  /** The suspend button: as skip, after suspending the stored card. */
  function SuspendedCurrent(w: Session, s: SrsSettings, now: int): (r: Session)
    requires Wf(w)
  {
    match w.cardOnDisplay
    case None => w
    case Some(id) =>
      var q := QuestionOf(w.objs, id);
      var queue := Filter(w.sessionCards, Keeps(w.objs, q));
      assert IdsIn(queue, |w.objs|);
      Displayed(w.(cards := Suspended(w.cards, q), sessionCards := queue), s, now)
  }

  /** The finish-round button: once per round, only the cards already
      attempted stay queued; an empty queue ends the round at once. */
  function RoundFinished(w: Session, s: SrsSettings, now: int): (r: Session)
    requires Wf(w)
  {
    if w.pendingGracefulExit then w
    else
      var queue := Filter(w.sessionCards, Attempted(w.objs));
      assert IdsIn(queue, |w.objs|);
      var w1 := w.(pendingGracefulExit := true, sessionCards := queue);
      if |queue| == 0 then Summarized(w1, s, now) else w1
  }

  /** The star button: the stored card and the card on display both flip
      their star. */
  function StarFlipped(w: Session): (r: Session)
    requires Wf(w)
  {
    match w.cardOnDisplay
    case None => w
    case Some(id) =>
      var c := w.objs[id];
      w.(cards := StarToggled(w.cards, c.card.question),
         objs := w.objs[id := c.(card := c.card.(isStarred := !c.card.isStarred))])
  }

  // ---------------------------------------------------------------------
  // the card editor as functions of the session

  /** The two boxes of the edit form, as typed. */
  datatype EditForm = EditForm(question: string, answers: string)

  /** What saving the form gives: the new session and the new word list. */
  datatype EditResult = EditResult(session: Session, wordList: string)

  /** `answers.slice(1)`. */
  function AnswerTail(answers: seq<string>): seq<string> {
    if |answers| == 0 then [] else answers[1..]
  }

  /** The form `openEditModal` fills in for a card. */
  function EditFormOf(c: Card): EditForm {
    EditForm(c.question, Join(AnswerTail(c.answers), " | "))
  }

  /** `openEditModal(q)`: only a stored question can be edited. */
  function EditOpened(w: Session, q: string): (r: Session) {
    if q in w.cards.entries then w.(currentEditingCard := Some(q)) else w
  }

  /** The answer list a filled-in form stands for: the question first. */
  function EditedAnswers(form: EditForm): (answers: seq<string>)
    ensures |answers| == 1 + |Fields(Trim(form.answers))| && answers[0] == Trim(form.question)
    ensures forall k :: 1 <= k < |answers| ==> answers[k] != "" && IsTrimmed(answers[k]) && '|' !in answers[k]
  {
    [Trim(form.question)] + Fields(Trim(form.answers))
  }

  /** The session card on display after an edit of `oldQuestion`: it takes
      the new question and answers if it shows the edited card. */
  function DisplayEdited(w: Session, oldQuestion: string, newAnswers: seq<string>): (objs: seq<SessionCard>)
    requires Wf(w) && |newAnswers| >= 1
    ensures |objs| == |w.objs|
  {
    match w.cardOnDisplay
    case None => w.objs
    case Some(id) =>
      var c := w.objs[id];
      if c.card.question == oldQuestion
      then w.objs[id := c.(card := c.card.(question := newAnswers[0], answers := newAnswers))]
      else w.objs
  }

  /** The store after editing the stored card `oldQuestion` into `edited`:
      a new question moves the card to the end of the order under its new
      key; the same question keeps its place. */
  function EditedStore(m: OMap<Card>, oldQuestion: string, edited: Card): (r: OMap<Card>)
    requires StoreValid(m) && oldQuestion in m.entries
    requires edited.question == oldQuestion || edited.question !in m.entries
    ensures StoreValid(r)
  {
    if edited.question != oldQuestion then Set(Delete(m, oldQuestion), edited.question, edited)
    else Set(m, oldQuestion, edited)
  }

  /** A successful save: the stored card takes the new question and
      answers, a renamed card loses its history, the card on display
      follows, and the editor closes. */
  function EditApplied(w: Session, oldQuestion: string, newAnswers: seq<string>): (r: Session)
    requires Wf(w) && oldQuestion in w.cards.entries && |newAnswers| >= 1
    requires newAnswers[0] == oldQuestion || newAnswers[0] !in w.cards.entries
    ensures Wf(r)
  {
    var edited := w.cards.entries[oldQuestion].(question := newAnswers[0], answers := newAnswers);
    var history := if newAnswers[0] != oldQuestion then Filter(w.history, NotAbout(oldQuestion)) else w.history;
    var r := w.(cards := EditedStore(w.cards, oldQuestion, edited), history := history,
                objs := DisplayEdited(w, oldQuestion, newAnswers), currentEditingCard := None);
    assert IdsIn(r.sessionCards, |r.objs|) && IdsIn(r.sessionIncorrectCards, |r.objs|);
    r
  }

  /** `saveCardEdit`. Nothing happens without a card being edited, with a
      blank box, or when the card is no longer stored. A new question
      already in the store makes the database insert fail after the old
      question's history is deleted; the store and the form stay. */
  function EditSaved(w: Session, form: EditForm, wordList: string): (r: EditResult)
    requires Wf(w)
    ensures Wf(r.session)
  {
    var newQuestion := Trim(form.question);
    if w.currentEditingCard.None? || newQuestion == "" || Trim(form.answers) == "" then EditResult(w, wordList)
    else
      var oldQuestion := w.currentEditingCard.value;
      if oldQuestion !in w.cards.entries then EditResult(w, wordList)
      else if oldQuestion != newQuestion && newQuestion in w.cards.entries then
        EditResult(w.(history := Filter(w.history, NotAbout(oldQuestion))), wordList)
      else
        var newAnswers := EditedAnswers(form);
        EditResult(EditApplied(w, oldQuestion, newAnswers), RewriteLines(wordList, oldQuestion, newAnswers))
  }

  // ---------------------------------------------------------------------
  // the handlers

  /** The redo button. */
  method Redo(st: State, now: int)
    requires st.Valid()
    modifies st, st.store
    ensures st.Snap() == Redone(old(st.Snap()), st.Settings(), now)
    ensures st.Valid()
  {
    if st.lastCorrectlyAnsweredCard.None? {
      return;
    }
    ghost var w := st.Snap();
    var last := st.lastCorrectlyAnsweredCard.value;
    assert st.objs[last].card.question == QuestionOf(w.objs, last);
    var queue := [last] + Filter(st.sessionCards, Keeps(st.objs, st.objs[last].card.question));
    st.isPracticingAgain := true;
    st.sessionCards := queue;
    st.lastCorrectlyAnsweredCard := None;
    st.isChecking := false;
    st.isAnswerCorrect := false;
    assert st.Snap() == w.(isPracticingAgain := true, sessionCards := queue, lastCorrectlyAnsweredCard := None,
                           isChecking := false, isAnswerCorrect := false);
    st.DisplayNextCard(now);
  }

  /** The skip button. */
  method Skip(st: State, now: int)
    requires st.Valid()
    modifies st, st.store
    ensures st.Snap() == Skipped(old(st.Snap()), st.Settings(), now)
    ensures st.Valid()
  {
    if st.cardOnDisplay.None? {
      return;
    }
    var current := st.objs[st.cardOnDisplay.value];
    st.sessionCards := Filter(st.sessionCards, Keeps(st.objs, current.card.question));
    st.ProceedToNextCard(now);
  }

  /** The suspend button. */
  method SuspendCurrent(st: State, now: int)
    requires st.Valid()
    modifies st, st.store
    ensures st.Snap() == SuspendedCurrent(old(st.Snap()), st.Settings(), now)
    ensures st.Valid()
  {
    if st.cardOnDisplay.None? {
      return;
    }
    var current := st.objs[st.cardOnDisplay.value];
    st.store.Suspend(current.card.question);
    st.sessionCards := Filter(st.sessionCards, Keeps(st.objs, current.card.question));
    st.ProceedToNextCard(now);
  }

  /** The finish-round button. */
  method FinishRound(st: State, now: int)
    requires st.Valid()
    modifies st, st.store
    ensures st.Snap() == RoundFinished(old(st.Snap()), st.Settings(), now)
    ensures st.Valid()
  {
    if st.pendingGracefulExit {
      return;
    }
    st.pendingGracefulExit := true;
    st.sessionCards := Filter(st.sessionCards, Attempted(st.objs));
    if |st.sessionCards| == 0 {
      st.ShowSummary(now);
    }
  }

  /** The star button. */
  method StarCurrent(st: State)
    requires st.Valid()
    modifies st, st.store
    ensures st.Snap() == StarFlipped(old(st.Snap()))
    ensures st.Valid()
  {
    if st.cardOnDisplay.None? {
      return;
    }
    var id := st.cardOnDisplay.value;
    var current := st.objs[id];
    st.store.ToggleStar(current.card.question);
    st.objs := st.objs[id := current.(card := current.card.(isStarred := !current.card.isStarred))];
  }

  /** `openEditModal(q)`: returns the filled-in form, or `None` when the
      question is not stored. */
  method OpenEditModal(st: State, q: string) returns (form: Option<EditForm>)
    requires st.Valid()
    modifies st
    ensures st.Snap() == EditOpened(old(st.Snap()), q)
    ensures form == if q in st.store.cards.entries then Some(EditFormOf(st.store.cards.entries[q])) else None
    ensures st.Valid()
  {
    if q !in st.store.cards.entries {
      return None;
    }
    st.currentEditingCard := Some(q);
    form := Some(EditFormOf(st.store.cards.entries[q]));
  }

  /** `saveCardEdit`, with the word list box passed in and returned. */
  method SaveCardEdit(st: State, form: EditForm, wordList: string) returns (newWordList: string)
    requires st.Valid()
    modifies st, st.store
    ensures EditResult(st.Snap(), newWordList) == EditSaved(old(st.Snap()), form, wordList)
    ensures st.Valid()
  {
    ghost var w := st.Snap();
    if st.currentEditingCard.None? || Trim(form.question) == "" || Trim(form.answers) == ""
       || st.currentEditingCard.value !in st.store.cards.entries {
      EditSavedIdle(w, form, wordList);
      return wordList;
    }
    newWordList := SaveFilledEdit(st, form, wordList);
  }

  /** `saveCardEdit` past its checks that a card is being edited, that
      both boxes hold something and that the card is still stored. */
  method SaveFilledEdit(st: State, form: EditForm, wordList: string) returns (newWordList: string)
    requires st.Valid() && st.currentEditingCard.Some? && st.currentEditingCard.value in st.store.cards.entries
    requires Trim(form.question) != "" && Trim(form.answers) != ""
    modifies st, st.store
    ensures EditResult(st.Snap(), newWordList) == EditSaved(old(st.Snap()), form, wordList)
    ensures st.Valid()
  {
    ghost var w := st.Snap();
    var newQuestion := Trim(form.question);
    var newAnswers := [newQuestion] + Fields(Trim(form.answers));
    var oldQuestion := st.currentEditingCard.value;
    if oldQuestion != newQuestion && newQuestion in st.store.cards.entries {
      // the old rows are deleted, then the insert under the new question
      // violates the primary key
      EditSavedClashes(w, form, wordList);
      st.store.history := Filter(st.store.history, NotAbout(oldQuestion));
      return wordList;
    }
    EditSavedCompletes(w, form, wordList);
    ApplyEdit(st, oldQuestion, newAnswers);
    newWordList := RewriteLines(wordList, oldQuestion, newAnswers);
  }

  /** The updates of a successful `saveCardEdit`. */
  method ApplyEdit(st: State, oldQuestion: string, newAnswers: seq<string>)
    requires st.Valid() && oldQuestion in st.store.cards.entries && |newAnswers| >= 1
    requires newAnswers[0] == oldQuestion || newAnswers[0] !in st.store.cards.entries
    modifies st, st.store
    ensures st.Snap() == EditApplied(old(st.Snap()), oldQuestion, newAnswers)
    ensures st.Valid()
  {
    ghost var w := st.Snap();
    ghost var r := EditApplied(w, oldQuestion, newAnswers);
    var newQuestion := newAnswers[0];
    var card := st.store.cards.entries[oldQuestion];
    if oldQuestion != newQuestion {
      st.store.history := Filter(st.store.history, NotAbout(oldQuestion));
    }
    assert st.store.history == r.history;
    st.store.cards := EditedStore(st.store.cards, oldQuestion, card.(question := newQuestion, answers := newAnswers));
    assert st.store.cards == r.cards;
    if st.cardOnDisplay.Some? {
      var id := st.cardOnDisplay.value;
      var shown := st.objs[id];
      if shown.card.question == oldQuestion {
        st.objs := st.objs[id := shown.(card := shown.card.(question := newQuestion, answers := newAnswers))];
      }
    }
    assert st.objs == r.objs;
    st.currentEditingCard := None;
  }

  // ---------------------------------------------------------------------
  // properties of the review buttons

  /** Filtering a list of session cards keeps it free of repeated
      questions. */
  lemma {:induction false} FilterNoRepeat(objs: seq<SessionCard>, ids: seq<nat>, p: nat -> bool)
    requires NoRepeat(objs, ids)
    ensures NoRepeat(objs, Filter(ids, p))
    decreases |ids|
  {
    if |ids| > 0 {
      var n := |ids| - 1;
      var front := ids[..n];
      assert NoRepeat(objs, front);
      FilterNoRepeat(objs, front, p);
      var f := Filter(front, p);
      if p(ids[n]) {
        forall i | 0 <= i < |f| ensures QuestionOf(objs, f[i]) != QuestionOf(objs, ids[n]) {
          assert f[i] in front;
          var j :| 0 <= j < n && front[j] == f[i];
          assert ids[j] == f[i];
        }
        AppendNoRepeat(objs, f, ids[n]);
        assert Filter(ids, p) == f + [ids[n]];
      } else {
        assert Filter(ids, p) == f + [];
        assert f + [] == f;
      }
    }
  }

  /** Filtering out question `q` removes it and keeps every other one. */
  lemma FilterOutMentions(objs: seq<SessionCard>, ids: seq<nat>, q: string)
    ensures forall q' :: Mentions(objs, Filter(ids, Keeps(objs, q)), q') <==> q' != q && Mentions(objs, ids, q')
  {
    var f := Filter(ids, Keeps(objs, q));
    forall q' ensures Mentions(objs, f, q') <==> q' != q && Mentions(objs, ids, q') {
      if Mentions(objs, f, q') {
        var k :| 0 <= k < |f| && QuestionOf(objs, f[k]) == q';
        assert f[k] in ids && Keeps(objs, q)(f[k]);
        var j :| 0 <= j < |ids| && ids[j] == f[k];
      }
      if q' != q && Mentions(objs, ids, q') {
        var j :| 0 <= j < |ids| && QuestionOf(objs, ids[j]) == q';
        assert Keeps(objs, q)(ids[j]);
        assert ids[j] in f;
        var k :| 0 <= k < |f| && f[k] == ids[j];
      }
    }
  }

  /** The queue of a redo: `id` first, and no other entry with its
      question. */
  lemma {:induction false} PushFrontQueue(objs: seq<SessionCard>, ids: seq<nat>, id: nat)
    requires NoRepeat(objs, ids)
    ensures var q := QuestionOf(objs, id);
      var r := [id] + Filter(ids, Keeps(objs, q));
      && NoRepeat(objs, r) && !Mentions(objs, r[1..], q)
      && (forall q' :: q' != q ==> (Mentions(objs, r, q') <==> Mentions(objs, ids, q')))
  {
    var q := QuestionOf(objs, id);
    var f := Filter(ids, Keeps(objs, q));
    var r := [id] + f;
    assert r[1..] == f;
    FilterOutMentions(objs, ids, q);
    FilterNoRepeat(objs, ids, Keeps(objs, q));
    forall q' | q' != q ensures Mentions(objs, r, q') <==> Mentions(objs, f, q') {
      if Mentions(objs, r, q') {
        var k :| 0 <= k < |r| && QuestionOf(objs, r[k]) == q';
        assert k > 0 && r[k] == f[k - 1];
      }
      if Mentions(objs, f, q') {
        var k :| 0 <= k < |f| && QuestionOf(objs, f[k]) == q';
        assert r[k + 1] == f[k];
      }
    }
    forall i, j | 0 <= i < j < |r|
      ensures QuestionOf(objs, r[i]) != QuestionOf(objs, r[j])
    {
      assert r[j] == f[j - 1];
      if i > 0 {
        assert r[i] == f[i - 1];
      }
    }
  }

  /** Redo: the last correctly answered card is at the front of the queue
      and on display, in practice mode, and its question is queued once;
      every other question stays queued or unqueued as before, and the
      counters and the store do not change. */
  lemma RedoLaw(w: Session, s: SrsSettings, now: int)
    requires Wf(w) && Coherent(w) && w.lastCorrectlyAnsweredCard.Some?
    ensures var id := w.lastCorrectlyAnsweredCard.value;
      var q := QuestionOf(w.objs, id);
      var r := Redone(w, s, now);
      && |r.sessionCards| >= 1 && r.sessionCards[0] == id && r.cardOnDisplay == Some(id)
      && r.isPracticingAgain && r.lastCorrectlyAnsweredCard.None?
      && !Mentions(r.objs, r.sessionCards[1..], q)
      && (forall q' :: q' != q ==> (Mentions(r.objs, r.sessionCards, q') <==> Mentions(w.objs, w.sessionCards, q')))
      && Wf(r) && Coherent(r)
      && r.sessionCorrectCount == w.sessionCorrectCount && r.sessionIncorrectCount == w.sessionIncorrectCount
      && r.cards == w.cards && r.history == w.history
  {
    var id := w.lastCorrectlyAnsweredCard.value;
    var queue := [id] + Filter(w.sessionCards, Keeps(w.objs, QuestionOf(w.objs, id)));
    PushFrontQueue(w.objs, w.sessionCards, id);
    assert IdsIn(queue, |w.objs|);
    var r := Redone(w, s, now);
    assert r == w.(isPracticingAgain := true, sessionCards := queue, lastCorrectlyAnsweredCard := None,
                   isChecking := false, isAnswerCorrect := false, cardOnDisplay := Some(id));
  }

  /** Skip and suspend without the store change: dropping the question on
      display from the queue. */
  lemma DropLaw(w: Session, q: string, cards: OMap<Card>, s: SrsSettings, now: int)
    requires Wf(w) && Coherent(w) && StoreValid(cards)
    ensures var r := Displayed(w.(cards := cards, sessionCards := Filter(w.sessionCards, Keeps(w.objs, q))), s, now);
      && !Mentions(r.objs, r.sessionCards, q)
      && (forall q' :: q' != q ==> (Mentions(r.objs, r.sessionCards, q') <==> Mentions(w.objs, w.sessionCards, q')))
      && Wf(r) && Coherent(r) && r.objs == w.objs
      && r.sessionCorrectCount == w.sessionCorrectCount && r.sessionIncorrectCount == w.sessionIncorrectCount
      && r.sessionIncorrectCards == w.sessionIncorrectCards && r.reviewAgainPile == w.reviewAgainPile
      && r.history == w.history && r.cards.keys == cards.keys && r.cards.entries.Keys == cards.entries.Keys
      && (|r.sessionCards| > 0 ==> r.cardOnDisplay == Some(r.sessionCards[0]) && r.cards == cards)
      && (|r.sessionCards| == 0 ==> r.cardOnDisplay.None? && !r.pendingGracefulExit)
      && (forall k :: k in cards.entries ==> r.cards.entries[k].isSuspended == cards.entries[k].isSuspended)
  {
    var f := Filter(w.sessionCards, Keeps(w.objs, q));
    FilterOutMentions(w.objs, w.sessionCards, q);
    FilterNoRepeat(w.objs, w.sessionCards, Keeps(w.objs, q));
    assert IdsIn(f, |w.objs|);
    var w2 := w.(cards := cards, sessionCards := f);
    assert Wf(w2) && Coherent(w2);
    DisplayedKeeps(w2, s, now);
  }

  /** Showing the next card changes neither the session lists nor the
      counters; the summary it may show keeps every card's suspension and
      the order of the store. */
  lemma DisplayedKeeps(w: Session, s: SrsSettings, now: int)
    requires Wf(w) && Coherent(w)
    ensures var r := Displayed(w, s, now);
      && Wf(r) && Coherent(r) && r.objs == w.objs && r.sessionCards == w.sessionCards
      && r.sessionCorrectCount == w.sessionCorrectCount && r.sessionIncorrectCount == w.sessionIncorrectCount
      && r.sessionIncorrectCards == w.sessionIncorrectCards && r.reviewAgainPile == w.reviewAgainPile
      && r.history == w.history && r.cards.keys == w.cards.keys && r.cards.entries.Keys == w.cards.entries.Keys
      && (|w.sessionCards| > 0 ==> r.cardOnDisplay == Some(w.sessionCards[0]) && r.cards == w.cards)
      && (|w.sessionCards| == 0 ==> r.cardOnDisplay.None? && !r.pendingGracefulExit)
      && (forall k :: k in w.cards.entries ==> r.cards.entries[k].isSuspended == w.cards.entries[k].isSuspended)
  {
    if |w.sessionCards| == 0 {
      var w3 := w.(isChecking := false, isAnswerCorrect := false, cardOnDisplay := None, pendingGracefulExit := false);
      SummaryKeepsSuspension(w3, s, now);
    }
  }

  /** The summary keeps every card's suspension and the session lists. */
  lemma SummaryKeepsSuspension(w: Session, s: SrsSettings, now: int)
    requires Wf(w) && Coherent(w)
    ensures var r := Summarized(w, s, now);
      && Wf(r) && r.objs == w.objs && r.sessionCards == w.sessionCards
      && r.sessionIncorrectCards == w.sessionIncorrectCards && r.reviewAgainPile == w.reviewAgainPile
      && r.cardOnDisplay == w.cardOnDisplay && r.pendingGracefulExit == w.pendingGracefulExit
      && r.sessionCorrectCount == w.sessionCorrectCount && r.sessionIncorrectCount == w.sessionIncorrectCount
      && r.history == w.history && r.cards.keys == w.cards.keys && r.cards.entries.Keys == w.cards.entries.Keys
      && (forall k :: k in w.cards.entries ==> r.cards.entries[k].isSuspended == w.cards.entries[k].isSuspended)
  {
    SummaryRelapses(w, s, now);
    forall k | k in w.cards.entries {
      ReviewedFields(w.cards.entries[k], false, s, now);
    }
  }

  /** Skip: the question on display leaves the queue, nothing else does,
      and nothing is recorded. */
  lemma SkipLaw(w: Session, s: SrsSettings, now: int)
    requires Wf(w) && Coherent(w) && w.cardOnDisplay.Some?
    ensures var q := QuestionOf(w.objs, w.cardOnDisplay.value);
      var r := Skipped(w, s, now);
      && !Mentions(r.objs, r.sessionCards, q)
      && (forall q' :: q' != q ==> (Mentions(r.objs, r.sessionCards, q') <==> Mentions(w.objs, w.sessionCards, q')))
      && Wf(r) && Coherent(r)
      && r.sessionCorrectCount == w.sessionCorrectCount && r.sessionIncorrectCount == w.sessionIncorrectCount
      && r.sessionIncorrectCards == w.sessionIncorrectCards && r.history == w.history
      && (|r.sessionCards| > 0 ==> r.cardOnDisplay == Some(r.sessionCards[0]) && r.cards == w.cards)
  {
    DropLaw(w, QuestionOf(w.objs, w.cardOnDisplay.value), w.cards, s, now);
  }

  /** Suspend: as skip, and the stored card is suspended, so no later
      session chooses it; every other stored card stays while the round
      goes on. */
  lemma SuspendLaw(w: Session, s: SrsSettings, now: int)
    requires Wf(w) && Coherent(w) && w.cardOnDisplay.Some?
    ensures var q := QuestionOf(w.objs, w.cardOnDisplay.value);
      var r := SuspendedCurrent(w, s, now);
      && !Mentions(r.objs, r.sessionCards, q)
      && (forall q' :: q' != q ==> (Mentions(r.objs, r.sessionCards, q') <==> Mentions(w.objs, w.sessionCards, q')))
      && Wf(r) && Coherent(r)
      && r.sessionCorrectCount == w.sessionCorrectCount && r.sessionIncorrectCount == w.sessionIncorrectCount
      && r.cards.keys == w.cards.keys && r.history == w.history
      && (q in w.cards.entries ==> r.cards.entries[q].isSuspended && !IsActive(r.cards.entries[q]))
      && (|r.sessionCards| > 0 ==> forall k :: k in w.cards.entries && k != q ==> r.cards.entries[k] == w.cards.entries[k])
  {
    var q := QuestionOf(w.objs, w.cardOnDisplay.value);
    DropLaw(w, q, Suspended(w.cards, q), s, now);
  }

  /** Finishing the round: only the attempted cards stay queued, in their
      order, and a second press changes nothing. */
  lemma FinishRoundLaw(w: Session, s: SrsSettings, now: int)
    requires Wf(w) && Coherent(w)
    ensures var r := RoundFinished(w, s, now);
      && r.pendingGracefulExit && Wf(r) && Coherent(r)
      && RoundFinished(r, s, now) == r
      && (w.pendingGracefulExit ==> r == w)
      && (!w.pendingGracefulExit ==>
            (forall k :: 0 <= k < |r.sessionCards| ==> r.objs[r.sessionCards[k]].hasBeenAttempted)
            && (forall k :: 0 <= k < |w.sessionCards| && w.objs[w.sessionCards[k]].hasBeenAttempted ==>
                  w.sessionCards[k] in r.sessionCards)
            && r.objs == w.objs && r.sessionIncorrectCards == w.sessionIncorrectCards
            && r.sessionCorrectCount == w.sessionCorrectCount && r.sessionIncorrectCount == w.sessionIncorrectCount)
  {
    if !w.pendingGracefulExit {
      var f := Filter(w.sessionCards, Attempted(w.objs));
      AttemptedQueue(w.objs, w.sessionCards);
      FilterNoRepeat(w.objs, w.sessionCards, Attempted(w.objs));
      var w1 := w.(pendingGracefulExit := true, sessionCards := f);
      assert Wf(w1) && Coherent(w1);
      if |f| == 0 {
        SummarizedShape(w1, s, now);
      }
    }
  }

  /** The queue after finishing the round holds exactly the attempted
      cards of the old queue. */
  lemma AttemptedQueue(objs: seq<SessionCard>, ids: seq<nat>)
    requires IdsIn(ids, |objs|)
    ensures var f := Filter(ids, Attempted(objs));
      && IdsIn(f, |objs|)
      && (forall k :: 0 <= k < |f| ==> objs[f[k]].hasBeenAttempted)
      && (forall k :: 0 <= k < |ids| && objs[ids[k]].hasBeenAttempted ==> ids[k] in f)
  {
    var f := Filter(ids, Attempted(objs));
    forall k | 0 <= k < |ids| && objs[ids[k]].hasBeenAttempted
      ensures ids[k] in f
    {
      assert Attempted(objs)(ids[k]);
    }
    forall k | 0 <= k < |f| ensures f[k] < |objs| && objs[f[k]].hasBeenAttempted {
      assert Attempted(objs)(f[k]);
      assert f[k] in ids;
    }
  }

  /** The summary changes only the store and the two check flags. */
  lemma SummarizedShape(w: Session, s: SrsSettings, now: int)
    requires Wf(w)
    ensures var r := Summarized(w, s, now);
      && Wf(r) && r.objs == w.objs && r.sessionCards == w.sessionCards
      && r.sessionIncorrectCards == w.sessionIncorrectCards && r.reviewAgainPile == w.reviewAgainPile
      && r.cardOnDisplay == w.cardOnDisplay && r.pendingGracefulExit == w.pendingGracefulExit
      && r.sessionCorrectCount == w.sessionCorrectCount && r.sessionIncorrectCount == w.sessionIncorrectCount
  {
  }

  /** Starring twice gives the session and the store back. */
  lemma StarTwice(w: Session)
    requires Wf(w) && w.cardOnDisplay.Some?
    ensures Wf(StarFlipped(w)) && StarFlipped(StarFlipped(w)) == w
  {
    var id := w.cardOnDisplay.value;
    var c := w.objs[id];
    var c' := c.(card := c.card.(isStarred := !c.card.isStarred));
    var r := StarFlipped(w);
    StarToggledTwice(w.cards, c.card.question);
    assert r.objs[id := c'.(card := c'.card.(isStarred := !c'.card.isStarred))] == w.objs;
  }

  /** The star flips on the card on display, the stored card keeps
      agreeing with it, and no question changes. */
  lemma StarLaw(w: Session)
    requires Wf(w) && w.cardOnDisplay.Some?
    ensures var id := w.cardOnDisplay.value;
      var q := QuestionOf(w.objs, id);
      var r := StarFlipped(w);
      && Wf(r) && (Coherent(r) <==> Coherent(w))
      && r.objs[id].card.isStarred == !w.objs[id].card.isStarred
      && (q in w.cards.entries ==>
            (r.cards.entries[q].isStarred == r.objs[id].card.isStarred
             <==> w.cards.entries[q].isStarred == w.objs[id].card.isStarred))
  {
    var r := StarFlipped(w);
    assert forall i :: QuestionOf(r.objs, i) == QuestionOf(w.objs, i);
  }

  // ---------------------------------------------------------------------
  // properties of the card editor

  /** A save that goes through, as opposed to one that does nothing or
      one that clashes with a stored question. */
  predicate Completes(w: Session, form: EditForm) {
    var newQuestion := Trim(form.question);
    w.currentEditingCard.Some? && newQuestion != "" && Trim(form.answers) != ""
    && w.currentEditingCard.value in w.cards.entries
    && (newQuestion == w.currentEditingCard.value || newQuestion !in w.cards.entries)
  }

  predicate Clashes(w: Session, form: EditForm) {
    var newQuestion := Trim(form.question);
    w.currentEditingCard.Some? && newQuestion != "" && Trim(form.answers) != ""
    && w.currentEditingCard.value in w.cards.entries
    && newQuestion != w.currentEditingCard.value && newQuestion in w.cards.entries
  }

  /** A completed save applies the edit and rewrites the word list. */
  lemma EditSavedCompletes(w: Session, form: EditForm, wordList: string)
    requires Wf(w) && Completes(w, form)
    ensures EditSaved(w, form, wordList)
      == EditResult(EditApplied(w, w.currentEditingCard.value, EditedAnswers(form)),
                    RewriteLines(wordList, w.currentEditingCard.value, EditedAnswers(form)))
  {
  }

  /** A clashing save only deletes the old question's history. */
  lemma EditSavedClashes(w: Session, form: EditForm, wordList: string)
    requires Wf(w) && Clashes(w, form)
    ensures EditSaved(w, form, wordList)
      == EditResult(w.(history := Filter(w.history, NotAbout(w.currentEditingCard.value))), wordList)
  {
  }

  /** Any other save changes nothing. */
  lemma EditSavedIdle(w: Session, form: EditForm, wordList: string)
    requires Wf(w) && !Completes(w, form) && !Clashes(w, form)
    ensures EditSaved(w, form, wordList) == EditResult(w, wordList)
  {
  }

  /** What a completed save does to the store and the history. */
  lemma EditAppliedLaw(w: Session, oldQuestion: string, newAnswers: seq<string>)
    requires Wf(w) && oldQuestion in w.cards.entries && |newAnswers| >= 1
    requires newAnswers[0] == oldQuestion || newAnswers[0] !in w.cards.entries
    ensures var r := EditApplied(w, oldQuestion, newAnswers);
      var c := w.cards.entries[oldQuestion];
      var newQuestion := newAnswers[0];
      && r.currentEditingCard.None?
      && newQuestion in r.cards.entries
      && r.cards.entries[newQuestion] == c.(question := newQuestion, answers := newAnswers)
      && (forall k :: k in w.cards.entries && k != oldQuestion ==> k in r.cards.entries && r.cards.entries[k] == w.cards.entries[k])
      && (newQuestion == oldQuestion ==> r.cards.keys == w.cards.keys && r.history == w.history)
      && (newQuestion != oldQuestion ==>
            oldQuestion !in r.cards.entries
            && r.cards.keys == Filter(w.cards.keys, Other(oldQuestion)) + [newQuestion]
            && r.history == Filter(w.history, NotAbout(oldQuestion)))
  {
  }

  /** After a successful save the card on display, when it shows the edited
      question, takes the new question and answers; every other session card
      stays, and so do the queue, the lists, the counters and the flags. */
  lemma EditDisplayFollows(w: Session, oldQuestion: string, newAnswers: seq<string>)
    requires Wf(w) && oldQuestion in w.cards.entries && |newAnswers| >= 1
    requires newAnswers[0] == oldQuestion || newAnswers[0] !in w.cards.entries
    ensures var r := EditApplied(w, oldQuestion, newAnswers);
      && |r.objs| == |w.objs|
      && (w.cardOnDisplay.Some? && w.objs[w.cardOnDisplay.value].card.question == oldQuestion ==>
            var id := w.cardOnDisplay.value;
            r.objs[id] == w.objs[id].(card := w.objs[id].card.(question := newAnswers[0], answers := newAnswers)))
      && (forall i :: 0 <= i < |w.objs| && (w.cardOnDisplay != Some(i) || w.objs[i].card.question != oldQuestion) ==>
            r.objs[i] == w.objs[i])
      && r == w.(objs := r.objs, cards := r.cards, history := r.history, currentEditingCard := None)
  {
  }

  /** The form of a card whose answers are its question followed by
      trimmed, non-empty fields free of `|` reads back as those answers. */
  lemma EditFormReadsBack(c: Card)
    requires |c.answers| >= 2 && c.answers[0] == c.question
    requires forall k :: 0 <= k < |c.answers| ==> c.answers[k] != "" && IsTrimmed(c.answers[k]) && '|' !in c.answers[k]
    ensures Trim(EditFormOf(c).question) == c.question && Trim(EditFormOf(c).answers) != ""
    ensures EditedAnswers(EditFormOf(c)) == c.answers
  {
    SpacedBar();
    JoinedFieldsReadBack(c.answers[1..], " ", " ");
    TrimOfTrimmed(c.question);
    HeadTail(c.answers);
  }

  /** Opening a card and saving the form as it was filled in keeps the
      store and the history and closes the editor, for a card whose
      answers are its question followed by trimmed, non-empty fields free
      of `|`, as the word-list parser produces them. */
  lemma EditUnchangedKeepsStore(w: Session, q: string, wordList: string)
    requires Wf(w) && q in w.cards.entries
    requires var c := w.cards.entries[q];
      |c.answers| >= 2 && c.answers[0] == q
      && forall k :: 0 <= k < |c.answers| ==> c.answers[k] != "" && IsTrimmed(c.answers[k]) && '|' !in c.answers[k]
    ensures var r := EditSaved(EditOpened(w, q), EditFormOf(w.cards.entries[q]), wordList).session;
      r.cards == w.cards && r.history == w.history && r.currentEditingCard.None?
  {
    var c := w.cards.entries[q];
    EditFormReadsBack(c);
    var w1 := EditOpened(w, q);
    assert Completes(w1, EditFormOf(c));
    EditSavedCompletes(w1, EditFormOf(c), wordList);
    SameAnswersApplied(w1, q);
  }

  /** Applying a card's own answers to it leaves the store and history. */
  lemma SameAnswersApplied(w: Session, q: string)
    requires Wf(w) && q in w.cards.entries
    requires var c := w.cards.entries[q]; |c.answers| >= 1 && c.answers[0] == q
    ensures var r := EditApplied(w, q, w.cards.entries[q].answers);
      r.cards == w.cards && r.history == w.history && r.currentEditingCard.None?
  {
    EditAppliedLaw(w, q, w.cards.entries[q].answers);
    SameEntry(w.cards.entries, q);
  }

  lemma SameEntry(m: map<string, Card>, q: string)
    requires q in m
    ensures m[q := m[q]] == m
  {
  }

  /** A rename moves the card to the end of the store under its new
      question with its schedule, star, suspension and mistakes; every
      other card stays, and so does every history entry but the old
      question's. */
  lemma EditRenameLaw(w: Session, form: EditForm, wordList: string)
    requires Wf(w) && w.currentEditingCard.Some?
    requires var oldQuestion := w.currentEditingCard.value;
      var newQuestion := Trim(form.question);
      oldQuestion in w.cards.entries && newQuestion != "" && Trim(form.answers) != ""
      && newQuestion != oldQuestion && newQuestion !in w.cards.entries
    ensures var oldQuestion := w.currentEditingCard.value;
      var newQuestion := Trim(form.question);
      var c := w.cards.entries[oldQuestion];
      var r := EditSaved(w, form, wordList).session;
      && oldQuestion !in r.cards.entries && newQuestion in r.cards.entries
      && r.cards.keys == Filter(w.cards.keys, Other(oldQuestion)) + [newQuestion]
      && r.cards.entries[newQuestion].answers == EditedAnswers(form)
      && r.cards.entries[newQuestion] == c.(question := newQuestion, answers := r.cards.entries[newQuestion].answers)
      && (forall k :: k in w.cards.entries && k != oldQuestion ==> k in r.cards.entries && r.cards.entries[k] == w.cards.entries[k])
      && (forall h :: h in r.history ==> h.question != oldQuestion)
      && (forall h :: h in w.history && h.question != oldQuestion ==> h in r.history)
      && r.currentEditingCard.None?
  {
    var oldQuestion := w.currentEditingCard.value;
    EditSavedCompletes(w, form, wordList);
    EditAppliedLaw(w, oldQuestion, EditedAnswers(form));
    NotAboutMembers(w.history, oldQuestion);
  }

  /** Filtering the history on the question keeps exactly the entries about
      other questions. */
  lemma NotAboutMembers(history: seq<HistoryEntry>, q: string)
    ensures forall h :: h in Filter(history, NotAbout(q)) <==> h in history && h.question != q
  {
    FilterMembers(history, NotAbout(q));
    assert forall h :: NotAbout(q)(h) <==> h.question != q;
  }

  lemma EditedAnswersClean(form: EditForm)
    requires var newQuestion := Trim(form.question);
      newQuestion != "" && '|' !in newQuestion
      && forall k :: 0 <= k < |EditedAnswers(form)| ==> '\n' !in EditedAnswers(form)[k]
    ensures var answers := EditedAnswers(form);
      forall k :: 0 <= k < |answers| ==>
        answers[k] != "" && IsTrimmed(answers[k]) && '|' !in answers[k] && '\n' !in answers[k]
  {
    var answers := EditedAnswers(form);
    forall k | 0 <= k < |answers|
      ensures answers[k] != "" && IsTrimmed(answers[k]) && '|' !in answers[k]
    {
      if k == 0 {
        assert answers[0] == Trim(form.question);
      }
    }
  }

  /** After a save, every line of the word list that defined the edited
      question reads back as the new answers under the new question, and
      every other line stays. This needs a question free of `|` that does
      not start a comment, at least one answer, and no line break in the
      answers, none of which the editor checks. */
  lemma EditedLineParses(w: Session, form: EditForm, wordList: string)
    requires Wf(w) && Completes(w, form)
    requires var newQuestion := Trim(form.question);
      '|' !in newQuestion && !StartsWith(newQuestion, "#") && |Fields(Trim(form.answers))| >= 1
      && forall k :: 0 <= k < |EditedAnswers(form)| ==> '\n' !in EditedAnswers(form)[k]
    ensures var lines := Lines(wordList);
      var out := Lines(EditSaved(w, form, wordList).wordList);
      && |out| == |lines|
      && forall k :: 0 <= k < |lines| ==>
           if !StartsWith(Trim(lines[k]), "#") && FirstField(lines[k]) == w.currentEditingCard.value
           then ParseLine(out[k]) == Some(EditedAnswers(form)) && FirstField(out[k]) == Trim(form.question)
           else out[k] == lines[k]
  {
    EditSavedCompletes(w, form, wordList);
    EditedAnswersClean(form);
    RewrittenLinesParse(wordList, w.currentEditingCard.value, EditedAnswers(form));
  }

  // ---------------------------------------------------------------------
  // a rename onto a stored question

  /** As written, a rename onto a question already stored is refused only
      after the old question's history is deleted: the card stays in the
      store and the editor stays open, but its history is gone. */
  lemma EditConflictDropsHistory(w: Session, form: EditForm, wordList: string, h: HistoryEntry)
    requires Wf(w) && w.currentEditingCard.Some?
    requires var oldQuestion := w.currentEditingCard.value;
      var newQuestion := Trim(form.question);
      oldQuestion in w.cards.entries && newQuestion != "" && Trim(form.answers) != ""
      && newQuestion != oldQuestion && newQuestion in w.cards.entries
    requires h in w.history && h.question == w.currentEditingCard.value
    ensures var r := EditSaved(w, form, wordList);
      && r.session.cards == w.cards && r.wordList == wordList
      && r.session.currentEditingCard == w.currentEditingCard
      && h.question in r.session.cards.entries && h !in r.session.history
  {
  }

  /** `saveCardEdit` checking for a clash before it deletes anything. */
  function EditSavedChecked(w: Session, form: EditForm, wordList: string): (r: EditResult)
    requires Wf(w)
    ensures Wf(r.session)
  {
    var newQuestion := Trim(form.question);
    if w.currentEditingCard.Some? && w.currentEditingCard.value in w.cards.entries
       && newQuestion != w.currentEditingCard.value && newQuestion in w.cards.entries
    then EditResult(w, wordList)
    else EditSaved(w, form, wordList)
  }

  /** `saveCardEdit` with the clash check moved before the deletes. */
  method SaveCardEditChecked(st: State, form: EditForm, wordList: string) returns (newWordList: string)
    requires st.Valid()
    modifies st, st.store
    ensures EditResult(st.Snap(), newWordList) == EditSavedChecked(old(st.Snap()), form, wordList)
    ensures st.Valid()
  {
    var newQuestion := Trim(form.question);
    if st.currentEditingCard.Some? && st.currentEditingCard.value in st.store.cards.entries
       && newQuestion != st.currentEditingCard.value && newQuestion in st.store.cards.entries {
      return wordList;
    }
    newWordList := SaveCardEdit(st, form, wordList);
  }

  /** With the check, a save that leaves the editor open changes nothing,
      and history is only ever lost together with its card. */
  lemma EditCheckedLosesNothing(w: Session, form: EditForm, wordList: string)
    requires Wf(w)
    ensures var r := EditSavedChecked(w, form, wordList);
      && (r.session.currentEditingCard == w.currentEditingCard ==> r == EditResult(w, wordList))
      && (forall h :: h in w.history && h !in r.session.history ==> h.question !in r.session.cards.entries)
  {
    CheckedOpenUnchanged(w, form, wordList);
    CheckedHistoryWithCard(w, form, wordList);
  }

  lemma CheckedOpenUnchanged(w: Session, form: EditForm, wordList: string)
    requires Wf(w)
    ensures var r := EditSavedChecked(w, form, wordList);
      r.session.currentEditingCard == w.currentEditingCard ==> r == EditResult(w, wordList)
  {
    if Completes(w, form) {
      EditSavedCompletes(w, form, wordList);
      EditAppliedLaw(w, w.currentEditingCard.value, EditedAnswers(form));
    } else if !Clashes(w, form) {
      EditSavedIdle(w, form, wordList);
    }
  }

  lemma CheckedHistoryWithCard(w: Session, form: EditForm, wordList: string)
    requires Wf(w)
    ensures var r := EditSavedChecked(w, form, wordList);
      forall h :: h in w.history && h !in r.session.history ==> h.question !in r.session.cards.entries
  {
    if Completes(w, form) {
      var oldQuestion := w.currentEditingCard.value;
      EditSavedCompletes(w, form, wordList);
      EditAppliedLaw(w, oldQuestion, EditedAnswers(form));
      if Trim(form.question) != oldQuestion {
        FilteredOutAbout(w.history, EditSavedChecked(w, form, wordList).session.history, oldQuestion);
      }
    } else if !Clashes(w, form) {
      EditSavedIdle(w, form, wordList);
    }
  }

  /** What a filter on the question drops is about that question. */
  lemma FilteredOutAbout(history: seq<HistoryEntry>, kept: seq<HistoryEntry>, q: string)
    requires kept == Filter(history, NotAbout(q))
    ensures forall h :: h in history && h !in kept ==> h.question == q
  {
    forall h | h in history && h.question != q ensures h in kept {
      var k :| 0 <= k < |history| && history[k] == h;
      assert NotAbout(q)(history[k]);
    }
  }
}
