/** The card store: the map from question to card that every part of the
    trainer shares, and the operations that change it — loading, syncing
    from the word list, importing, reviewing, suspending, restoring,
    starring and deleting — together with the review history. The SQL
    statements that mirror each change into the database are not part of
    this model; the history table is kept as a list. */
module CardManager {
  import opened Seqs
  import opened Wrappers
  import opened Text
  import opened OrderedMap
  import opened WordList
  import opened Settings
  import opened Scheduler

  /** A row of the `cards` table: the flags are integers, and the mistake
      count may be null. */
  datatype Row = Row(
    question: string,
    answers: seq<string>,
    repetitions: int,
    efactor: real,
    interval: int,
    nextReviewDate: int,
    isSuspended: int,
    isStarred: int,
    totalMistakes: Option<int>)

  /** A row of the `review_history` table. */
  datatype HistoryEntry = HistoryEntry(
    question: string,
    isCorrect: bool,
    reviewDate: int,
    intervalAtReview: int,
    efactorAtReview: real)

  /** The card a row loads as: a flag is set only by the integer 1, and a
      null mistake count reads as 0. */
  function CardOfRow(r: Row): (c: Card)
    ensures c.question == r.question && c.answers == r.answers
    ensures c.isSuspended <==> r.isSuspended == 1
    ensures c.isStarred <==> r.isStarred == 1
    ensures c.totalMistakes == if r.totalMistakes.Some? then r.totalMistakes.value else 0
  {
    Card(r.question, r.answers, r.repetitions, r.efactor, r.interval, r.nextReviewDate,
         r.isSuspended == 1, r.isStarred == 1, r.totalMistakes.GetOr(0))
  }

  /** Every card is stored under its own question. */
  ghost predicate KeyedByQuestion(m: OMap<Card>) {
    forall k :: k in m.entries ==> m.entries[k].question == k
  }

  ghost predicate StoreValid(m: OMap<Card>) {
    OrderedMap.Valid(m) && KeyedByQuestion(m)
  }

  // ---------------------------------------------------------------------
  // specification of the line loops

  /** The store after loading `rows` into an empty map, one `set` per row. */
  function LoadRows(rows: seq<Row>): (m: OMap<Card>)
    ensures StoreValid(m)
    decreases |rows|
  {
    if |rows| == 0 then Empty()
    else
      var last := rows[|rows| - 1];
      Set(LoadRows(rows[..|rows| - 1]), last.question, CardOfRow(last))
  }

  /** The parse of every line, in order: the card each line defines, or
      `None` for a line that is skipped. */
  function ParseLines(lines: seq<string>): (ps: seq<Option<seq<string>>>)
    ensures |ps| == |lines|
    ensures WellParsed(ps)
  {
    var ps := seq(|lines|, k requires 0 <= k < |lines| => ParseLine(lines[k]));
    assert forall k :: 0 <= k < |ps| ==> ps[k] == ParseLine(lines[k]);
    ps
  }

  lemma ParsedAt(lines: seq<string>, k: nat)
    requires k < |lines|
    ensures ParseLines(lines)[k] == ParseLine(lines[k])
  {
  }

  /** Every parsed line names a question. */
  ghost predicate WellParsed(ps: seq<Option<seq<string>>>) {
    forall k :: 0 <= k < |ps| && ps[k].Some? ==> |ps[k].value| >= 1
  }

  /** One line of `syncFromTextarea`, once parsed: it replaces the answers
      of an existing card or adds a new card due now. */
  function SyncParsed(m: OMap<Card>, parsed: Option<seq<string>>, now: int): (r: OMap<Card>)
    requires StoreValid(m) && (parsed.Some? ==> |parsed.value| >= 1)
    ensures StoreValid(r)
  {
    match parsed
    case None => m
    case Some(parts) =>
      var q := parts[0];
      if q in m.entries then Set(m, q, m.entries[q].(answers := parts))
      else Set(m, q, NewCard(parts, now, false, false))
  }

  /** The store after syncing the parsed lines `ps` in order. */
  function SyncAll(m: OMap<Card>, ps: seq<Option<seq<string>>>, now: int): (r: OMap<Card>)
    requires StoreValid(m) && WellParsed(ps)
    ensures StoreValid(r)
    decreases |ps|
  {
    if |ps| == 0 then m
    else SyncParsed(SyncAll(m, ps[..|ps| - 1], now), ps[|ps| - 1], now)
  }

  lemma SyncAllStep(m: OMap<Card>, ps: seq<Option<seq<string>>>, k: nat, now: int)
    requires StoreValid(m) && WellParsed(ps) && k < |ps|
    ensures SyncAll(m, ps[..k + 1], now) == SyncParsed(SyncAll(m, ps[..k], now), ps[k], now)
  {
    assert ps[..k + 1][..k] == ps[..k];
  }

  /** One line of `importFromText`, once parsed, with the flags the import
      context sets: a new question is added with them, an existing card
      only gains them. The second component says whether the question was
      new. */
  function ImportParsed(m: OMap<Card>, parsed: Option<seq<string>>, suspend: bool, star: bool, now: int): (r: (OMap<Card>, bool))
    requires StoreValid(m) && (parsed.Some? ==> |parsed.value| >= 1)
    ensures StoreValid(r.0)
  {
    match parsed
    case None => (m, false)
    case Some(parts) =>
      var q := parts[0];
      if q !in m.entries then (Set(m, q, NewCard(parts, now, suspend, star)), true)
      else
        var c := m.entries[q];
        if (suspend && !c.isSuspended) || (star && !c.isStarred) then
          (Set(m, q, c.(isSuspended := c.isSuspended || suspend, isStarred := c.isStarred || star)), false)
        else (m, false)
  }

  /** The store after importing the parsed lines `ps`, and the number of
      questions added. */
  function ImportAll(m: OMap<Card>, ps: seq<Option<seq<string>>>, suspend: bool, star: bool, now: int): (r: (OMap<Card>, nat))
    requires StoreValid(m) && WellParsed(ps)
    ensures StoreValid(r.0)
    decreases |ps|
  {
    if |ps| == 0 then (m, 0)
    else
      var p := ImportAll(m, ps[..|ps| - 1], suspend, star, now);
      var s := ImportParsed(p.0, ps[|ps| - 1], suspend, star, now);
      (s.0, p.1 + if s.1 then 1 else 0)
  }

  /** One more line of an import: the store and the count after `k + 1`
      lines follow from those after `k` lines by the `k`-th line. */
  lemma ImportAllStep(m: OMap<Card>, ps: seq<Option<seq<string>>>, k: nat, suspend: bool, star: bool, now: int,
                      before: OMap<Card>, count: nat, after: OMap<Card>, added: bool)
    requires StoreValid(m) && WellParsed(ps) && k < |ps|
    requires (before, count) == ImportAll(m, ps[..k], suspend, star, now)
    requires (after, added) == ImportParsed(before, ps[k], suspend, star, now)
    ensures (after, count + if added then 1 else 0) == ImportAll(m, ps[..k + 1], suspend, star, now)
  {
    assert ps[..k + 1][..k] == ps[..k];
  }

  /** The store after suspending, restoring or starring one question:
      absent questions change nothing. */
  function Suspended(m: OMap<Card>, q: string): (r: OMap<Card>)
    requires StoreValid(m)
    ensures StoreValid(r)
  {
    if q in m.entries then Set(m, q, m.entries[q].(isSuspended := true)) else m
  }

  function Restored(m: OMap<Card>, q: string, now: int): (r: OMap<Card>)
    requires StoreValid(m)
    ensures StoreValid(r)
  {
    if q in m.entries then Set(m, q, m.entries[q].(isSuspended := false, nextReviewDate := now)) else m
  }

  function StarToggled(m: OMap<Card>, q: string): (r: OMap<Card>)
    requires StoreValid(m)
    ensures StoreValid(r)
  {
    if q in m.entries then Set(m, q, m.entries[q].(isStarred := !m.entries[q].isStarred)) else m
  }

  /** The store after `update`: the reviewed card replaces the old one in
      place; an absent question changes nothing. */
  function AfterReview(m: OMap<Card>, q: string, isCorrect: bool, s: SrsSettings, now: int): (r: OMap<Card>)
    requires StoreValid(m)
    ensures StoreValid(r)
  {
    if q in m.entries then Set(m, q, Reviewed(m.entries[q], isCorrect, s, now)) else m
  }

  /** The store after `syncFromTextarea(wordList)`: a blank word list
      changes nothing. */
  function SyncedText(m: OMap<Card>, wordList: string, now: int): (r: OMap<Card>)
    requires StoreValid(m)
    ensures StoreValid(r)
  {
    if Trim(wordList) == "" then m else SyncAll(m, ParseLines(Lines(Trim(wordList))), now)
  }

  /** The history entry `addReviewHistory` writes for `card`: an ease of 0
      is recorded as 2.5. */
  function Recorded(q: string, isCorrect: bool, card: Card, now: int): HistoryEntry {
    HistoryEntry(q, isCorrect, now, card.interval, if card.efactor == 0.0 then 2.5 else card.efactor)
  }

  function NotAbout(q: string): HistoryEntry -> bool {
    (h: HistoryEntry) => h.question != q
  }

  // ---------------------------------------------------------------------
  // properties of the line loops

  /** Loading keys the map by exactly the questions of the rows. */
  lemma {:induction false} LoadRowsKeys(rows: seq<Row>)
    ensures forall k :: k in LoadRows(rows).entries <==> exists i :: 0 <= i < |rows| && rows[i].question == k
    decreases |rows|
  {
    if |rows| > 0 {
      var p, last := rows[..|rows| - 1], rows[|rows| - 1];
      LoadRowsKeys(p);
      forall k ensures k in LoadRows(rows).entries <==> exists i :: 0 <= i < |rows| && rows[i].question == k {
        RowsSnoc(rows, k);
      }
    }
  }

  /** A question has a row exactly when it has one before the last row or
      is the last row's. */
  lemma RowsSnoc(rows: seq<Row>, k: string)
    requires |rows| > 0
    ensures var p := rows[..|rows| - 1];
      (exists i :: 0 <= i < |rows| && rows[i].question == k)
      <==> (exists i :: 0 <= i < |p| && p[i].question == k) || rows[|rows| - 1].question == k
  {
    var p := rows[..|rows| - 1];
    if exists i :: 0 <= i < |rows| && rows[i].question == k {
      var i :| 0 <= i < |rows| && rows[i].question == k;
      if i < |p| {
        assert p[i] == rows[i];
      }
    }
    if exists i :: 0 <= i < |p| && p[i].question == k {
      var i :| 0 <= i < |p| && p[i].question == k;
      assert rows[i] == p[i];
    }
  }

  /** The card stored under a question comes from the last row with that
      question. */
  lemma {:induction false} LoadRowsLastWins(rows: seq<Row>, i: nat)
    requires i < |rows|
    requires forall j :: i < j < |rows| ==> rows[j].question != rows[i].question
    ensures rows[i].question in LoadRows(rows).entries
    ensures LoadRows(rows).entries[rows[i].question] == CardOfRow(rows[i])
    decreases |rows|
  {
    if i < |rows| - 1 {
      var p := rows[..|rows| - 1];
      LoadRowsLastWins(p, i);
    }
  }

  /** What a sync may do to a store: cards already there keep everything
      but their answers; cards it adds are fresh, unflagged and due at
      `now`. */
  ghost predicate SyncedFrom(m: OMap<Card>, r: OMap<Card>, now: int) {
    (forall q :: q in m.entries ==> q in r.entries && r.entries[q] == m.entries[q].(answers := r.entries[q].answers))
    && (forall q :: q in r.entries && q !in m.entries ==>
          var c := r.entries[q];
          c.repetitions == 0 && c.efactor == 2.5 && c.interval == 0 && c.nextReviewDate == now
          && !c.isSuspended && !c.isStarred && c.totalMistakes == 0)
  }

  lemma SyncParsedEffect(m: OMap<Card>, parsed: Option<seq<string>>, now: int)
    requires StoreValid(m) && (parsed.Some? ==> |parsed.value| >= 1)
    ensures SyncedFrom(m, SyncParsed(m, parsed, now), now)
    ensures parsed.None? ==> SyncParsed(m, parsed, now) == m
    ensures parsed.Some? ==>
      var parts := parsed.value;
      SyncParsed(m, parsed, now).entries.Keys == m.entries.Keys + {parts[0]}
      && SyncParsed(m, parsed, now).entries[parts[0]].answers == parts
  {
    var r := SyncParsed(m, parsed, now);
    if parsed.Some? {
      var parts := parsed.value;
      var q := parts[0];
      var c := if q in m.entries then m.entries[q].(answers := parts) else NewCard(parts, now, false, false);
      assert r.entries == m.entries[q := c];
      forall k | k in m.entries
        ensures k in r.entries && r.entries[k] == m.entries[k].(answers := r.entries[k].answers)
      {
        if k == q {
          assert r.entries[k] == c;
        } else {
          assert r.entries[k] == m.entries[k];
        }
      }
    }
  }

  lemma SyncedFromTrans(a: OMap<Card>, b: OMap<Card>, c: OMap<Card>, now: int)
    requires SyncedFrom(a, b, now) && SyncedFrom(b, c, now)
    ensures SyncedFrom(a, c, now)
  {
  }

  /** A sync replaces only answers of existing cards and adds only fresh
      cards: it never touches a schedule, a flag or a mistake count. */
  lemma {:induction false} SyncPreservesSchedules(m: OMap<Card>, ps: seq<Option<seq<string>>>, now: int)
    requires StoreValid(m) && WellParsed(ps)
    ensures SyncedFrom(m, SyncAll(m, ps, now), now)
    decreases |ps|
  {
    if |ps| > 0 {
      var p := SyncAll(m, ps[..|ps| - 1], now);
      SyncPreservesSchedules(m, ps[..|ps| - 1], now);
      SyncParsedEffect(p, ps[|ps| - 1], now);
      SyncedFromTrans(m, p, SyncParsed(p, ps[|ps| - 1], now), now);
    }
  }

  /** The questions after a sync are the old ones and the questions of the
      lines that parse. */
  lemma {:induction false} SyncKeys(m: OMap<Card>, ps: seq<Option<seq<string>>>, now: int)
    requires StoreValid(m) && WellParsed(ps)
    ensures forall q :: q in SyncAll(m, ps, now).entries <==>
      q in m.entries || exists k :: 0 <= k < |ps| && ps[k].Some? && ps[k].value[0] == q
    decreases |ps|
  {
    if |ps| > 0 {
      var p := ps[..|ps| - 1];
      var before := SyncAll(m, p, now);
      SyncKeys(m, p, now);
      SyncParsedEffect(before, ps[|ps| - 1], now);
      forall q | q in SyncAll(m, ps, now).entries && q !in m.entries
        ensures exists k :: 0 <= k < |ps| && ps[k].Some? && ps[k].value[0] == q
      {
        if q in before.entries {
          var k :| 0 <= k < |p| && p[k].Some? && p[k].value[0] == q;
          assert ps[k] == p[k];
        }
      }
      forall q, k | 0 <= k < |ps| && ps[k].Some? && ps[k].value[0] == q
        ensures q in SyncAll(m, ps, now).entries
      {
        if k < |p| {
          assert p[k] == ps[k];
        }
      }
    }
  }

  /** The answers a sync leaves on a question are those of the last line
      that defines it. */
  lemma {:induction false} SyncLastWins(m: OMap<Card>, ps: seq<Option<seq<string>>>, k: nat, now: int)
    requires StoreValid(m) && WellParsed(ps) && k < |ps| && ps[k].Some?
    requires forall j :: k < j < |ps| ==> ps[j].None? || ps[j].value[0] != ps[k].value[0]
    ensures ps[k].value[0] in SyncAll(m, ps, now).entries
    ensures SyncAll(m, ps, now).entries[ps[k].value[0]].answers == ps[k].value
    decreases |ps|
  {
    var p := ps[..|ps| - 1];
    SyncParsedEffect(SyncAll(m, p, now), ps[|ps| - 1], now);
    if k < |ps| - 1 {
      assert p[k] == ps[k];
      SyncLastWins(m, p, k, now);
    }
  }

  /** What an import may do to a store: cards already there keep their
      answers and schedule and may only gain the context's flag; cards it
      adds are fresh and carry exactly the context's flags. */
  ghost predicate ImportedFrom(m: OMap<Card>, r: OMap<Card>, suspend: bool, star: bool, now: int) {
    (forall q :: q in m.entries ==> q in r.entries && FlagsGained(m.entries[q], r.entries[q], suspend, star))
    && (forall q :: q in r.entries && q !in m.entries ==> FreshImport(r.entries[q], suspend, star, now))
  }

  /** `c` is `was` with at most the context's flags added. */
  ghost predicate FlagsGained(was: Card, c: Card, suspend: bool, star: bool) {
    c == was.(isSuspended := c.isSuspended, isStarred := c.isStarred)
    && (was.isSuspended ==> c.isSuspended) && (was.isStarred ==> c.isStarred)
    && (c.isSuspended ==> was.isSuspended || suspend) && (c.isStarred ==> was.isStarred || star)
  }

  /** A card an import adds: unreviewed, due now, with the context's flags. */
  ghost predicate FreshImport(c: Card, suspend: bool, star: bool, now: int) {
    c.repetitions == 0 && c.efactor == 2.5 && c.interval == 0 && c.nextReviewDate == now
    && c.isSuspended == suspend && c.isStarred == star && c.totalMistakes == 0
  }

  lemma ImportParsedEffect(m: OMap<Card>, parsed: Option<seq<string>>, suspend: bool, star: bool, now: int)
    requires StoreValid(m) && (parsed.Some? ==> |parsed.value| >= 1)
    ensures ImportedFrom(m, ImportParsed(m, parsed, suspend, star, now).0, suspend, star, now)
    ensures var r := ImportParsed(m, parsed, suspend, star, now);
      r.1 <==> parsed.Some? && parsed.value[0] !in m.entries
    ensures var r := ImportParsed(m, parsed, suspend, star, now);
      r.0.keys == if r.1 then m.keys + [parsed.value[0]] else m.keys
  {
    if parsed.Some? {
      var parts := parsed.value;
      var q := parts[0];
      if q !in m.entries {
        ImportedFromNew(m, q, NewCard(parts, now, suspend, star), suspend, star, now);
      } else {
        var was := m.entries[q];
        if (suspend && !was.isSuspended) || (star && !was.isStarred) {
          ImportedFromFlagged(m, q, suspend, star, now);
        }
      }
    }
  }

  /** Adding a fresh card with the context's flags under a new question. */
  lemma ImportedFromNew(m: OMap<Card>, q: string, c: Card, suspend: bool, star: bool, now: int)
    requires OrderedMap.Valid(m) && q !in m.entries
    requires c.repetitions == 0 && c.efactor == 2.5 && c.interval == 0 && c.nextReviewDate == now
    requires c.isSuspended == suspend && c.isStarred == star && c.totalMistakes == 0
    ensures ImportedFrom(m, Set(m, q, c), suspend, star, now)
  {
    var r := Set(m, q, c);
    forall k | k in m.entries ensures k in r.entries && r.entries[k] == m.entries[k] {
      assert k != q;
    }
  }

  /** Giving an existing card the context's flags. */
  lemma ImportedFromFlagged(m: OMap<Card>, q: string, suspend: bool, star: bool, now: int)
    requires OrderedMap.Valid(m) && q in m.entries
    ensures var was := m.entries[q];
      ImportedFrom(m, Set(m, q, was.(isSuspended := was.isSuspended || suspend, isStarred := was.isStarred || star)),
                   suspend, star, now)
  {
    var was := m.entries[q];
    var c := was.(isSuspended := was.isSuspended || suspend, isStarred := was.isStarred || star);
    var r := Set(m, q, c);
    assert r.entries == m.entries[q := c];
    forall k | k in m.entries ensures k in r.entries && FlagsGained(m.entries[k], r.entries[k], suspend, star) {
      if k == q {
        assert r.entries[k] == c;
      } else {
        assert r.entries[k] == m.entries[k];
      }
    }
    assert r.entries.Keys == m.entries.Keys;
  }

  lemma ImportedFromTrans(a: OMap<Card>, b: OMap<Card>, c: OMap<Card>, suspend: bool, star: bool, now: int)
    requires ImportedFrom(a, b, suspend, star, now) && ImportedFrom(b, c, suspend, star, now)
    ensures ImportedFrom(a, c, suspend, star, now)
  {
  }

  /** An import never clears a flag, never changes the answers or the
      schedule of an existing card, and adds only fresh cards. */
  lemma {:induction false} ImportNeverClears(m: OMap<Card>, ps: seq<Option<seq<string>>>, suspend: bool, star: bool, now: int)
    requires StoreValid(m) && WellParsed(ps)
    ensures ImportedFrom(m, ImportAll(m, ps, suspend, star, now).0, suspend, star, now)
    decreases |ps|
  {
    if |ps| > 0 {
      var p := ImportAll(m, ps[..|ps| - 1], suspend, star, now).0;
      ImportNeverClears(m, ps[..|ps| - 1], suspend, star, now);
      ImportParsedEffect(p, ps[|ps| - 1], suspend, star, now);
      ImportedFromTrans(m, p, ImportParsed(p, ps[|ps| - 1], suspend, star, now).0, suspend, star, now);
    }
  }

  /** The count an import returns is the number of questions it added to
      the store. */
  lemma {:induction false} ImportCount(m: OMap<Card>, ps: seq<Option<seq<string>>>, suspend: bool, star: bool, now: int)
    requires StoreValid(m) && WellParsed(ps)
    ensures var r := ImportAll(m, ps, suspend, star, now);
      r.1 == |r.0.keys| - |m.keys|
    decreases |ps|
  {
    if |ps| > 0 {
      ImportCount(m, ps[..|ps| - 1], suspend, star, now);
      var p := ImportAll(m, ps[..|ps| - 1], suspend, star, now).0;
      ImportParsedEffect(p, ps[|ps| - 1], suspend, star, now);
    }
  }

  /** Starring twice gives the store back. */
  lemma StarToggledTwice(m: OMap<Card>, q: string)
    requires StoreValid(m)
    ensures StarToggled(StarToggled(m, q), q) == m
  {
    if q in m.entries {
      var c := m.entries[q];
      assert c.(isStarred := !c.isStarred).(isStarred := !!c.isStarred) == c;
      assert m.entries[q := c] == m.entries;
    }
  }

  /** A restored card is due at once, and restoring a suspended card is
      the same as restoring it directly. */
  lemma RestoreDue(m: OMap<Card>, q: string, now: int)
    requires StoreValid(m) && q in m.entries
    ensures IsDue(Restored(m, q, now).entries[q], now)
    ensures Restored(Suspended(m, q), q, now) == Restored(m, q, now)
  {
  }

  /** A suspended card is neither active nor due. */
  lemma SuspendedInactive(m: OMap<Card>, q: string, now: int)
    requires StoreValid(m) && q in m.entries
    ensures var c := Suspended(m, q).entries[q];
      !IsActive(c) && !IsDue(c, now)
  {
  }

  /** A review keeps the order of the questions and every other card. */
  lemma AfterReviewLocal(m: OMap<Card>, q: string, isCorrect: bool, s: SrsSettings, now: int)
    requires StoreValid(m)
    ensures var r := AfterReview(m, q, isCorrect, s, now);
      r.keys == m.keys && r.entries.Keys == m.entries.Keys
      && forall k :: k in m.entries && k != q ==> r.entries[k] == m.entries[k]
  {
  }

  // ---------------------------------------------------------------------
  // the store

  class CardStore {
    var cards: OMap<Card>
    var history: seq<HistoryEntry>

    ghost predicate Valid()
      reads this
    {
      StoreValid(cards)
    }

    constructor ()
      ensures Valid() && cards == Empty() && history == []
    {
      cards := Empty();
      history := [];
    }

    /** `load`: clears the map, then sets one card per row in row order. */
    method Load(rows: seq<Row>)
      modifies this
      ensures Valid() && cards == LoadRows(rows) && history == old(history)
    {
      cards := Empty();
      var i := 0;
      while i < |rows|
        invariant 0 <= i <= |rows|
        invariant cards == LoadRows(rows[..i]) && history == old(history)
      {
        var row := rows[i];
        assert rows[..i + 1][..i] == rows[..i];
        cards := Set(cards, row.question, CardOfRow(row));
        i := i + 1;
      }
      assert rows[..i] == rows;
    }

    /** `syncFromTextarea`: the trimmed word list, when non-empty, is
        applied line by line; every new card is due at `now`. */
    method SyncFromTextarea(wordList: string, now: int)
      requires Valid()
      modifies this
      ensures cards == SyncedText(old(cards), wordList, now)
      ensures Valid() && history == old(history)
    {
      var text := Trim(wordList);
      if text != "" {
        SyncLinesInPlace(Lines(text), now);
      }
    }

    /** The `forEach` over the lines of a sync. */
    method SyncLinesInPlace(lines: seq<string>, now: int)
      requires Valid()
      modifies this
      ensures cards == SyncAll(old(cards), ParseLines(lines), now)
      ensures Valid() && history == old(history)
    {
      var ps := ParseLines(lines);
      ghost var m := cards;
      var i := 0;
      while i < |lines|
        invariant 0 <= i <= |lines|
        invariant cards == SyncAll(m, ps[..i], now)
        invariant Valid() && history == old(history)
      {
        SyncAllStep(m, ps, i, now);
        SyncLineInPlace(ps[i], now);
        i := i + 1;
      }
      assert ps[..i] == ps;
    }

    /** The body of the sync loop for one line, once parsed. */
    method SyncLineInPlace(parsed: Option<seq<string>>, now: int)
      requires Valid() && (parsed.Some? ==> |parsed.value| >= 1)
      modifies this
      ensures cards == SyncParsed(old(cards), parsed, now)
      ensures Valid() && history == old(history)
    {
      if parsed.Some? {
        var parts := parsed.value;
        var question := parts[0];
        var card := if question in cards.entries then cards.entries[question].(answers := parts)
                    else NewCard(parts, now, false, false);
        cards := Set(cards, question, card);
      }
    }

    /** `importFromText`: the context `"suspended"` or `"starred"` sets
        that flag on every imported card; the result is the number of new
        questions. */
    method ImportFromText(text: string, importContext: string, now: int) returns (newCardsAdded: nat)
      requires Valid()
      modifies this
      ensures text == "" ==> cards == old(cards) && newCardsAdded == 0
      ensures text != "" ==>
        var r := ImportAll(old(cards), ParseLines(Lines(text)), importContext == "suspended", importContext == "starred", now);
        cards == r.0 && newCardsAdded == r.1
      ensures Valid() && history == old(history)
    {
      newCardsAdded := 0;
      var isSuspended := importContext == "suspended";
      var isStarred := importContext == "starred";
      if text != "" {
        newCardsAdded := ImportLinesInPlace(Lines(text), isSuspended, isStarred, now);
      }
    }

    /** The `forEach` over the lines of an import. */
    method ImportLinesInPlace(lines: seq<string>, isSuspended: bool, isStarred: bool, now: int) returns (newCardsAdded: nat)
      requires Valid()
      modifies this
      ensures (cards, newCardsAdded) == ImportAll(old(cards), ParseLines(lines), isSuspended, isStarred, now)
      ensures Valid() && history == old(history)
    {
      var ps := ParseLines(lines);
      ghost var m := cards;
      newCardsAdded := 0;
      var i := 0;
      while i < |lines|
        invariant 0 <= i <= |lines|
        invariant (cards, newCardsAdded) == ImportAll(m, ps[..i], isSuspended, isStarred, now)
        invariant Valid() && history == old(history)
      {
        newCardsAdded := ImportNext(m, ps, i, isSuspended, isStarred, now, newCardsAdded);
        i := i + 1;
      }
      assert ps[..i] == ps;
    }

    /** One turn of the import loop: line `i` is imported and counted. */
    method ImportNext(ghost m: OMap<Card>, ps: seq<Option<seq<string>>>, i: nat, isSuspended: bool, isStarred: bool,
                      now: int, count: nat) returns (count': nat)
      requires Valid() && StoreValid(m) && WellParsed(ps) && i < |ps|
      requires (cards, count) == ImportAll(m, ps[..i], isSuspended, isStarred, now)
      modifies this
      ensures (cards, count') == ImportAll(m, ps[..i + 1], isSuspended, isStarred, now)
      ensures Valid() && history == old(history)
    {
      ghost var before := cards;
      var added := ImportLineInPlace(ps[i], isSuspended, isStarred, now);
      ImportAllStep(m, ps, i, isSuspended, isStarred, now, before, count, cards, added);
      count' := count + if added then 1 else 0;
    }

    /** The body of the import loop for one line, once parsed; `added` says
        whether the question was new. */
    method ImportLineInPlace(parsed: Option<seq<string>>, isSuspended: bool, isStarred: bool, now: int) returns (added: bool)
      requires Valid() && (parsed.Some? ==> |parsed.value| >= 1)
      modifies this
      ensures (cards, added) == ImportParsed(old(cards), parsed, isSuspended, isStarred, now)
      ensures Valid() && history == old(history)
    {
      added := false;
      if parsed.Some? {
        var parts := parsed.value;
        var question := parts[0];
        if question !in cards.entries {
          added := true;
          cards := Set(cards, question, NewCard(parts, now, isSuspended, isStarred));
        } else {
          var existing := cards.entries[question];
          if (isSuspended && !existing.isSuspended) || (isStarred && !existing.isStarred) {
            if isSuspended {
              existing := existing.(isSuspended := true);
            }
            if isStarred {
              existing := existing.(isStarred := true);
            }
            cards := Set(cards, question, existing);
          }
        }
      }
    }

    /** `update`: records one long-term review of `q` at time `now`. */
    method Update(q: string, isCorrect: bool, settings: SrsSettings, now: int)
      requires Valid()
      modifies this
      ensures cards == AfterReview(old(cards), q, isCorrect, settings, now)
      ensures Valid() && history == old(history)
    {
      if q !in cards.entries {
        return;
      }
      var card := cards.entries[q];
      var repetitions, interval, totalMistakes := card.repetitions, card.interval, card.totalMistakes;
      if isCorrect {
        repetitions := repetitions + 1;
        if repetitions == 1 {
          interval := IntervalMinutes(settings.initialInterval);
        } else if repetitions == 2 {
          interval := IntervalMinutes(settings.secondInterval);
        } else {
          interval := Ceil(interval as real * card.efactor);
        }
      } else {
        repetitions := 0;
        interval := IntervalMinutes(settings.lapseInterval);
        totalMistakes := totalMistakes + 1;
      }
      assert interval == NextInterval(card, isCorrect, settings);
      var quality := if isCorrect then 5 else 1;
      var efactor := card.efactor + Sm2Delta(quality);
      if efactor < 1.3 {
        efactor := 1.3;
      }
      if !isCorrect && totalMistakes > 5 {
        var mistakePenalty := Min((totalMistakes - 5) as real * 0.02, 0.3);
        efactor := efactor - mistakePenalty;
        if efactor < 1.3 {
          efactor := 1.3;
        }
      }
      assert efactor == NewEase(card.efactor, isCorrect, totalMistakes);
      var reviewed := card.(repetitions := repetitions, interval := interval, efactor := efactor,
                            nextReviewDate := now + interval, totalMistakes := totalMistakes);
      assert reviewed == Reviewed(card, isCorrect, settings, now);
      cards := Set(cards, q, reviewed);
    }

    method Suspend(q: string)
      requires Valid()
      modifies this
      ensures cards == Suspended(old(cards), q)
      ensures Valid() && history == old(history)
    {
      if q in cards.entries {
        cards := Set(cards, q, cards.entries[q].(isSuspended := true));
      }
    }

    /** `restore`: unsuspends the card and makes it due now. */
    method Restore(q: string, now: int)
      requires Valid()
      modifies this
      ensures cards == Restored(old(cards), q, now)
      ensures Valid() && history == old(history)
    {
      if q in cards.entries {
        cards := Set(cards, q, cards.entries[q].(isSuspended := false, nextReviewDate := now));
      }
    }

    method ToggleStar(q: string)
      requires Valid()
      modifies this
      ensures cards == StarToggled(old(cards), q)
      ensures Valid() && history == old(history)
    {
      if q in cards.entries {
        var card := cards.entries[q];
        cards := Set(cards, q, card.(isStarred := !card.isStarred));
      }
    }

    /** `deleteCard`: removes the card and its history, and returns the word
        list without the lines that define it. An absent question changes
        nothing, the word list included. */
    method DeleteCard(q: string, wordList: string) returns (newWordList: string)
      requires Valid()
      modifies this
      ensures q !in old(cards).entries ==>
        cards == old(cards) && history == old(history) && newWordList == wordList
      ensures q in old(cards).entries ==>
        cards == Delete(old(cards), q) && history == Filter(old(history), NotAbout(q))
        && newWordList == DeleteLines(wordList, q)
      ensures Valid()
    {
      if q !in cards.entries {
        return wordList;
      }
      cards := Delete(cards, q);
      history := Filter(history, NotAbout(q));
      newWordList := DeleteLines(wordList, q);
    }

    /** `addReviewHistory`: appends one entry with the card's current
        interval and ease (an ease of 0 is recorded as 2.5). */
    method AddReviewHistory(q: string, isCorrect: bool, card: Card, now: int)
      modifies this
      ensures cards == old(cards)
      ensures history == old(history) + [Recorded(q, isCorrect, card, now)]
      ensures history[|history| - 1].efactorAtReview == if card.efactor == 0.0 then 2.5 else card.efactor
    {
      var efactorAtReview := if card.efactor == 0.0 then 2.5 else card.efactor;
      history := history + [HistoryEntry(q, isCorrect, now, card.interval, efactorAtReview)];
    }
  }
}
