/** The start-up of the page: the built-in default settings, the merge of
    the settings record saved in the database over those defaults, and the
    choice of the language the page first appears in. */
module App {
  import opened Wrappers
  import opened Text
  import opened Settings

  // ---------------------------------------------------------------------
  // settings

  /** `state.defaultSrsSettings`: first review after a day, second after
      six days, a lapse after ten minutes, two correct answers in a row,
      two more after a mistake. */
  function DefaultSrsSettings(): (s: SrsSettings)
    ensures IntervalMinutes(s.initialInterval) == 1440
    ensures IntervalMinutes(s.secondInterval) == 6 * 1440
    ensures IntervalMinutes(s.lapseInterval) == 10
    ensures s.requiredStreak == 2 && s.penalty == 2
  {
    SrsSettings(IntervalSetting(1, "days"), IntervalSetting(6, "days"), IntervalSetting(10, "minutes"), 2, 2)
  }

  /** One interval of the saved JSON record: each key may be absent. */
  datatype SavedInterval = SavedInterval(value: Option<int>, unit: Option<string>)

  /** The saved JSON record as `JSON.parse` returns it; every key may be
      absent, and a missing row reads as the empty record. */
  datatype SavedRecord = SavedRecord(
    initialInterval: Option<SavedInterval>,
    secondInterval: Option<SavedInterval>,
    lapseInterval: Option<SavedInterval>,
    requiredStreak: Option<int>,
    penalty: Option<int>)

  /** `{}`: what `loadSettings` starts from when no row is stored. */
  function EmptyRecord(): SavedRecord {
    SavedRecord(None, None, None, None, None)
  }

  /** What `JSON.stringify(state.srsSettings)` writes: every key present. */
  function Written(s: SrsSettings): SavedRecord {
    SavedRecord(
      Some(SavedInterval(Some(s.initialInterval.value), Some(s.initialInterval.unit))),
      Some(SavedInterval(Some(s.secondInterval.value), Some(s.secondInterval.unit))),
      Some(SavedInterval(Some(s.lapseInterval.value), Some(s.lapseInterval.unit))),
      Some(s.requiredStreak),
      Some(s.penalty))
  }

  /** `{ ...defaultInterval, ...(saved || {}) }`: each key present in the
      saved interval wins, whatever its value, and every other key keeps
      the default. */
  function MergedInterval(d: IntervalSetting, saved: Option<SavedInterval>): (r: IntervalSetting)
    ensures saved.None? ==> r == d
    ensures saved.Some? && saved.value.value.Some? ==> r.value == saved.value.value.value
    ensures saved.Some? && saved.value.value.None? ==> r.value == d.value
    ensures saved.Some? && saved.value.unit.Some? ==> r.unit == saved.value.unit.value
    ensures saved.Some? && saved.value.unit.None? ==> r.unit == d.unit
  {
    match saved
    case None => d
    case Some(s) => IntervalSetting(s.value.GetOr(d.value), s.unit.GetOr(d.unit))
  }

  /** `loadSettings` as a value: intervals merged key by key, and the two
      counts taken with `||`, so that a saved 0 gives the default. */
  function Loaded(defaults: SrsSettings, saved: SavedRecord): SrsSettings {
    SrsSettings(
      MergedInterval(defaults.initialInterval, saved.initialInterval),
      MergedInterval(defaults.secondInterval, saved.secondInterval),
      MergedInterval(defaults.lapseInterval, saved.lapseInterval),
      OrDefault(saved.requiredStreak, defaults.requiredStreak),
      OrDefault(saved.penalty, defaults.penalty))
  }

  /** With nothing saved the settings are the defaults; with the built-in
      defaults that is 1 day, 6 days, 10 minutes, a streak of 2 and a
      penalty of 2. */
  lemma LoadedWithoutRecord(defaults: SrsSettings)
    ensures Loaded(defaults, EmptyRecord()) == defaults
    ensures var s := Loaded(DefaultSrsSettings(), EmptyRecord());
      && s.initialInterval == IntervalSetting(1, "days")
      && s.secondInterval == IntervalSetting(6, "days")
      && s.lapseInterval == IntervalSetting(10, "minutes")
      && s.requiredStreak == 2 && s.penalty == 2
  {
  }

  /** Each field on its own: an interval key present in the record wins
      even when it is 0, and a count falls back exactly when it is missing
      or 0. */
  lemma LoadedFields(defaults: SrsSettings, saved: SavedRecord)
    ensures var s := Loaded(defaults, saved);
      && (saved.initialInterval.Some? && saved.initialInterval.value.value.Some?
          ==> s.initialInterval.value == saved.initialInterval.value.value.value)
      && (saved.initialInterval.None? ==> s.initialInterval == defaults.initialInterval)
      && (saved.lapseInterval.Some? && saved.lapseInterval.value.unit.Some?
          ==> s.lapseInterval.unit == saved.lapseInterval.value.unit.value)
      && (s.requiredStreak == defaults.requiredStreak
          <== saved.requiredStreak.None? || saved.requiredStreak.value == 0)
      && (saved.requiredStreak.Some? && saved.requiredStreak.value != 0
          ==> s.requiredStreak == saved.requiredStreak.value)
      && (saved.penalty.Some? && saved.penalty.value != 0 ==> s.penalty == saved.penalty.value)
      && (saved.penalty.None? || saved.penalty.value == 0 ==> s.penalty == defaults.penalty)
  {
  }

  /** What a save writes, a later load reads back, as long as the two
      counts are not 0 (a save never stores 0 when the defaults are not 0). */
  lemma WrittenLoadsBack(defaults: SrsSettings, s: SrsSettings)
    requires s.requiredStreak != 0 && s.penalty != 0
    ensures Loaded(defaults, Written(s)) == s
  {
  }

  /** A stored count of 0 does not survive a reload: the default comes
      back instead. */
  lemma ZeroCountReloadsAsDefault(defaults: SrsSettings, s: SrsSettings)
    requires s.requiredStreak == 0
    ensures Loaded(defaults, Written(s)).requiredStreak == defaults.requiredStreak
  {
  }

  /** `loadSettings` builds a new record whose interval objects are new
      too, so that nothing it holds is shared with the defaults. */
  method LoadSettings(defaults: SettingsRecord, saved: SavedRecord) returns (srs: SettingsRecord)
    ensures fresh(srs) && fresh(srs.initialInterval) && fresh(srs.secondInterval) && fresh(srs.lapseInterval)
    ensures srs.Separate()
    ensures srs.Value() == Loaded(defaults.Value(), saved)
  {
    srs := new SettingsRecord(Loaded(defaults.Value(), saved));
  }

  // ---------------------------------------------------------------------
  // language

  /** `tag.split('-')[0]`: the part of a language tag before the first
      hyphen. */
  function BaseLanguage(tag: string): (b: string)
    ensures '-' !in b
  {
    Split(tag, '-')[0]
  }

  /** The base language is a prefix of the tag, and the whole tag when it
      has no hyphen. */
  lemma {:induction false} BaseLanguagePrefix(tag: string)
    ensures BaseLanguage(tag) <= tag
    ensures '-' !in tag ==> BaseLanguage(tag) == tag
    ensures '-' in tag ==> BaseLanguage(tag) + "-" <= tag
    decreases |tag|
  {
    if |tag| > 0 && tag[0] != '-' {
      BaseLanguagePrefix(tag[1..]);
      assert BaseLanguage(tag) == [tag[0]] + BaseLanguage(tag[1..]);
      assert tag == [tag[0]] + tag[1..];
      if '-' in tag {
        assert '-' in tag[1..];
      }
    }
  }

  /** The language of `init`: the saved choice when there is a translation
      for it, else the browser's full tag, else its base language, else
      English. An empty saved value counts as none, as in JavaScript. */
  function InitialLanguage(saved: Option<string>, navigatorLanguage: string, known: set<string>): (lang: string)
    ensures lang == "en" || lang in known
  {
    if saved.Some? && saved.value != "" && saved.value in known then saved.value
    else if navigatorLanguage in known then navigatorLanguage
    else if BaseLanguage(navigatorLanguage) in known then BaseLanguage(navigatorLanguage)
    else "en"
  }

  /** The order of preference: a known saved choice always wins; the
      browser's tag is used only without one; English is chosen exactly
      when none of the three is known; and whatever is chosen other than
      English is one of the three candidates. */
  lemma LanguagePreference(saved: Option<string>, navigatorLanguage: string, known: set<string>)
    ensures var lang := InitialLanguage(saved, navigatorLanguage, known);
      var savedKnown := saved.Some? && saved.value != "" && saved.value in known;
      && (savedKnown ==> lang == saved.value)
      && (!savedKnown && navigatorLanguage in known ==> lang == navigatorLanguage)
      && (savedKnown || navigatorLanguage in known || BaseLanguage(navigatorLanguage) in known ==> lang in known)
      && (!savedKnown && navigatorLanguage !in known && BaseLanguage(navigatorLanguage) !in known ==> lang == "en")
      && (lang != "en" ==> lang == saved.GetOr("") || lang == navigatorLanguage || lang == BaseLanguage(navigatorLanguage))
  {
  }
}
