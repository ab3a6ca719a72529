/** Export of the cards as a word list and the checks of a database import.
    The export picks cards by the tab of the card list that is active and
    writes one `question|answer|…` line per card; the import replaces the
    database only with a file that looks like SQLite and has a `cards`
    table. */
module FileOperations {
  import opened Wrappers
  import opened Seqs
  import opened Text
  import opened OrderedMap
  import opened WordList
  import opened Scheduler
  import opened CardManager
  import opened ReviewSession

  // ---------------------------------------------------------------------
  // export

  /** The cards the tab `filterType` selects: `suspended` and `starred`
      select by their flag, every other tab (`active` among them) selects
      the cards that are not suspended. */
  function TabSelects(filterType: string): Card -> bool {
    (c: Card) => if filterType == "suspended" then c.isSuspended
         else if filterType == "starred" then c.isStarred
         else !c.isSuspended
  }

  /** The cards `exportCards` writes, in the store's order. */
  function ExportSelection(m: OMap<Card>, filterType: string): seq<Card>
    requires OrderedMap.Valid(m)
  {
    Filter(Values(m), TabSelects(filterType))
  }

  /** One exported line: the question, a bar, and the alternates joined by
      bars, without spaces. */
  function ExportLine(c: Card): (line: string)
    ensures StartsWith(line, c.question + "|")
  {
    var line := c.question + "|" + Join(Alternates(c.answers), "|");
    assert line[..|c.question + "|"|] == c.question + "|";
    line
  }

  /** What `exportCards` writes, or `None` when no card is selected and it
      only shows an alert. */
  function ExportData(m: OMap<Card>, filterType: string): Option<string>
    requires OrderedMap.Valid(m)
  {
    var selected := ExportSelection(m, filterType);
    if |selected| == 0 then None
    else Some(Join(seq(|selected|, k requires 0 <= k < |selected| => ExportLine(selected[k])), "\n"))
  }

  /** The selection holds exactly the stored cards of its tab, each once
      per key, in the order of the store. */
  lemma ExportSelectionSelects(m: OMap<Card>, filterType: string)
    requires OrderedMap.Valid(m)
    ensures forall c :: c in ExportSelection(m, filterType) <==>
      c in m.entries.Values
      && (if filterType == "suspended" then c.isSuspended
          else if filterType == "starred" then c.isStarred
          else !c.isSuspended)
    ensures ExportSelection(m, filterType) == Filter(Values(m), TabSelects(filterType))
  {
    var vs := Values(m);
    forall c | c in m.entries.Values
      ensures c in vs
    {
      var k :| k in m.entries && m.entries[k] == c;
      var i :| 0 <= i < |m.keys| && m.keys[i] == k;
      assert vs[i] == c;
    }
    forall c | c in vs
      ensures c in m.entries.Values
    {
      var i :| 0 <= i < |vs| && vs[i] == c;
      assert m.keys[i] in m.entries;
    }
  }

  /** Every tab's selection is a subset of the store, and the suspended
      and active tabs split the store between them. */
  lemma ExportTabsPartition(m: OMap<Card>)
    requires OrderedMap.Valid(m)
    ensures |ExportSelection(m, "suspended")| + |ExportSelection(m, "active")| == |m.keys|
  {
    FilterComplement(Values(m), TabSelects("suspended"), TabSelects("active"));
  }

  /** `|filter(p)| + |filter(q)| == |s|` when `q` is the negation of `p`. */
  lemma {:induction false} FilterComplement<T>(s: seq<T>, p: T -> bool, q: T -> bool)
    requires forall x :: q(x) == !p(x)
    ensures |Filter(s, p)| + |Filter(s, q)| == |s|
    decreases |s|
  {
    if |s| > 0 {
      FilterComplement(s[..|s| - 1], p, q);
    }
  }

  /** No export exactly when the tab selects no card. */
  lemma ExportEmpty(m: OMap<Card>, filterType: string)
    requires OrderedMap.Valid(m)
    ensures ExportData(m, filterType).None? <==> forall c :: c in m.entries.Values ==> !TabSelects(filterType)(c)
  {
    ExportSelectionSelects(m, filterType);
    var selected := ExportSelection(m, filterType);
    if |selected| > 0 {
      assert selected[0] in selected;
    }
  }

  /** A line joined by bars has no line break when no part has one. */
  lemma {:induction false} JoinKeepsOut(xs: seq<string>, sep: string, ch: char)
    requires ch !in sep
    requires forall k :: 0 <= k < |xs| ==> ch !in xs[k]
    ensures ch !in Join(xs, sep)
    decreases |xs|
  {
    if |xs| > 1 {
      JoinKeepsOut(xs[1..], sep, ch);
    }
  }

  /** A card whose question and alternates are non-empty, trimmed, free of
      `|` and of line breaks, with at least one alternate and a question
      that does not start a comment: what the import reads back. */
  predicate Exportable(c: Card) {
    |c.answers| >= 2 && !StartsWith(c.question, "#")
    && c.question != "" && IsTrimmed(c.question) && '|' !in c.question && '\n' !in c.question
    && forall k :: 1 <= k < |c.answers| ==>
         c.answers[k] != "" && IsTrimmed(c.answers[k]) && '|' !in c.answers[k] && '\n' !in c.answers[k]
  }

  /** The exported line of such a card parses, under the import's rules,
      as the question followed by the alternates, and has no line break. */
  lemma ExportLineReadsBack(c: Card)
    requires Exportable(c)
    ensures ParseLine(ExportLine(c)) == Some([c.question] + Alternates(c.answers))
    ensures FirstField(ExportLine(c)) == c.question
    ensures '\n' !in ExportLine(c)
  {
    ExportLineParses(c);
    ExportLineSingle(c);
  }

  lemma ExportLineParses(c: Card)
    requires Exportable(c)
    ensures ParseLine(ExportLine(c)) == Some([c.question] + Alternates(c.answers))
    ensures FirstField(ExportLine(c)) == c.question
  {
    var xs := [c.question] + Alternates(c.answers);
    ExportLineJoins(c);
    ExportFieldsClean(c);
    ParseJoinedLine(xs, "", "");
  }

  lemma ExportLineSingle(c: Card)
    requires Exportable(c)
    ensures '\n' !in ExportLine(c)
  {
    var xs := [c.question] + Alternates(c.answers);
    ExportLineJoins(c);
    ExportFieldsClean(c);
    JoinKeepsOut(xs, "|", '\n');
  }

  /** The exported line is the question and the alternates joined by a
      bar with no padding. */
  lemma ExportLineJoins(c: Card)
    requires |c.answers| >= 2
    ensures ExportLine(c) == Join([c.question] + Alternates(c.answers), "" + "|" + "")
    ensures ExportLine(c) == Join([c.question] + Alternates(c.answers), "|")
  {
    var xs := [c.question] + Alternates(c.answers);
    assert xs[1..] == Alternates(c.answers);
    assert "" + "|" + "" == "|";
  }

  /** Every field of an exportable card's line is non-empty, trimmed and
      free of `|` and of line breaks. */
  lemma ExportFieldsClean(c: Card)
    requires Exportable(c)
    ensures var xs := [c.question] + Alternates(c.answers);
      forall k :: 0 <= k < |xs| ==> xs[k] != "" && IsTrimmed(xs[k]) && '|' !in xs[k] && '\n' !in xs[k]
  {
    var xs := [c.question] + Alternates(c.answers);
    forall k | 0 <= k < |xs| ensures xs[k] != "" && IsTrimmed(xs[k]) && '|' !in xs[k] && '\n' !in xs[k] {
      if k > 0 {
        assert xs[k] == c.answers[k];
      }
    }
  }

  /** The whole export reads back card by card: its lines are those of the
      selected cards, in order, and each parses as the card's question and
      alternates. */
  lemma ExportDataReadsBack(m: OMap<Card>, filterType: string)
    requires OrderedMap.Valid(m)
    requires forall c :: c in ExportSelection(m, filterType) ==> Exportable(c)
    requires |ExportSelection(m, filterType)| > 0
    ensures ExportData(m, filterType).Some?
    ensures var selected := ExportSelection(m, filterType);
      var lines := Lines(ExportData(m, filterType).value);
      && |lines| == |selected|
      && forall k :: 0 <= k < |lines| ==>
           ParseLine(lines[k]) == Some([selected[k].question] + Alternates(selected[k].answers))
  {
    var selected := ExportSelection(m, filterType);
    var out := seq(|selected|, k requires 0 <= k < |selected| => ExportLine(selected[k]));
    forall k | 0 <= k < |out|
      ensures '\n' !in out[k]
      ensures ParseLine(out[k]) == Some([selected[k].question] + Alternates(selected[k].answers))
    {
      assert selected[k] in selected;
      ExportLineReadsBack(selected[k]);
    }
    SplitJoin(out, '\n');
    assert "\n" == ['\n'];
  }

  // ---------------------------------------------------------------------
  // database import

  newtype byte = x: int | 0 <= x < 256

  /** `SQLite format 3` as ASCII bytes: the first fifteen bytes of every
      SQLite database file. */
  function SqliteMagic(): seq<byte> {
    [83, 81, 76, 105, 116, 101, 32, 102, 111, 114, 109, 97, 116, 32, 51]
  }

  /** The decoded first sixteen bytes start with `SQLite format 3`. As the
      magic is ASCII, that is the same as the file's first fifteen bytes
      being the magic. */
  predicate HasSqliteHeader(file: seq<byte>) {
    |SqliteMagic()| <= |file| && file[..|SqliteMagic()|] == SqliteMagic()
  }

  /** What the SQL engine reports for a file it could open: the names of
      its tables, the rows of its `cards` table and the rows of its
      `review_history` table (`None` when the file has no such table). */
  datatype OpenedDatabase = OpenedDatabase(tables: seq<string>, cardRows: seq<Row>,
                                           historyRows: Option<seq<HistoryEntry>>)

  /** The review history the page works with once `db` is the open
      database: its `review_history` rows, or the empty table the start-up
      creates when the file has none. */
  function HistoryOf(db: OpenedDatabase): seq<HistoryEntry> {
    if db.historyRows.Some? then db.historyRows.value else []
  }

  datatype ImportFailure = NotSqlite | Unreadable | MissingCardsTable

  datatype ImportOutcome = NoFile | Cancelled | Rejected(reason: ImportFailure) | Imported

  /** The open database of the page. */
  class DatabaseSlot {
    var db: Option<OpenedDatabase>

    constructor (db: Option<OpenedDatabase>)
      ensures this.db == db
    {
      this.db := db;
    }
  }

  /** `importDatabase`: no file or no confirmation does nothing; a file
      without the SQLite header, one the SQL engine cannot open (`engine` is `None`), or
      one without a `cards` table is rejected and the open database stays;
      otherwise the new database replaces it, the store is reloaded from its
      rows and the review history becomes its history. */
  method ImportDatabase(slot: DatabaseSlot, store: CardStore, file: Option<seq<byte>>, confirmed: bool,
                        engine: Option<OpenedDatabase>) returns (outcome: ImportOutcome)
    modifies slot, store
    ensures outcome.Imported? <==>
      file.Some? && confirmed && HasSqliteHeader(file.value) && engine.Some? && "cards" in engine.value.tables
    ensures outcome == NoFile <==> file.None?
    ensures outcome == Cancelled <==> file.Some? && !confirmed
    ensures outcome == Rejected(NotSqlite) <==> file.Some? && confirmed && !HasSqliteHeader(file.value)
    ensures !outcome.Imported? ==>
      slot.db == old(slot.db) && store.cards == old(store.cards) && store.history == old(store.history)
    ensures outcome.Imported? ==>
      slot.db == engine && store.cards == LoadRows(engine.value.cardRows) && store.history == HistoryOf(engine.value)
  {
    if file.None? {
      return NoFile;
    }
    if !confirmed {
      return Cancelled;
    }
    var bytes := file.value;
    var header := bytes[..if |bytes| < 16 then |bytes| else 16];
    if !(|SqliteMagic()| <= |header| && header[..|SqliteMagic()|] == SqliteMagic()) {
      assert !HasSqliteHeader(bytes);
      return Rejected(NotSqlite);
    }
    assert bytes[..|SqliteMagic()|] == header[..|SqliteMagic()|];
    if engine.None? {
      return Rejected(Unreadable);
    }
    var newDb := engine.value;
    if "cards" !in newDb.tables {
      return Rejected(MissingCardsTable);
    }
    slot.db := Some(newDb);
    store.Load(newDb.cardRows);
    store.history := HistoryOf(newDb);
    return Imported;
  }
}
