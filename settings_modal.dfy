/** The settings modal: filling its inputs from the current settings,
    saving them back with the `|| default` fallback, and the reset button,
    which copies the defaults into the current settings before it saves. */
module SettingsModal {
  import opened Wrappers
  import opened Settings
  import opened GameFlow
  import App

  /** The eight inputs of the modal. A number input is read with
      `parseInt(text, 10)`: `None` stands for `NaN`. */
  datatype SettingsForm = SettingsForm(
    initialValue: Option<int>, initialUnit: string,
    secondValue: Option<int>, secondUnit: string,
    lapseValue: Option<int>, lapseUnit: string,
    requiredStreak: Option<int>,
    penalty: Option<int>)

  /** `populateSettingsModal`: every input shows the current setting. */
  function Populated(s: SrsSettings): SettingsForm {
    SettingsForm(
      Some(s.initialInterval.value), s.initialInterval.unit,
      Some(s.secondInterval.value), s.secondInterval.unit,
      Some(s.lapseInterval.value), s.lapseInterval.unit,
      Some(s.requiredStreak),
      Some(s.penalty))
  }

  /** The settings `saveSettings` writes from a form: the units as
      selected; each number as parsed, unless it is `NaN` or 0, in which
      case the default. */
  function FormSaved(defaults: SrsSettings, form: SettingsForm): (s: SrsSettings)
    ensures s.initialInterval.unit == form.initialUnit && s.secondInterval.unit == form.secondUnit
    ensures s.lapseInterval.unit == form.lapseUnit
    ensures s.initialInterval.value
      == if form.initialValue.Some? && form.initialValue.value != 0 then form.initialValue.value
         else defaults.initialInterval.value
    ensures s.secondInterval.value
      == if form.secondValue.Some? && form.secondValue.value != 0 then form.secondValue.value
         else defaults.secondInterval.value
    ensures s.lapseInterval.value
      == if form.lapseValue.Some? && form.lapseValue.value != 0 then form.lapseValue.value
         else defaults.lapseInterval.value
    ensures s.requiredStreak
      == if form.requiredStreak.Some? && form.requiredStreak.value != 0 then form.requiredStreak.value
         else defaults.requiredStreak
    ensures s.penalty
      == if form.penalty.Some? && form.penalty.value != 0 then form.penalty.value else defaults.penalty
  {
    SrsSettings(
      IntervalSetting(OrDefault(form.initialValue, defaults.initialInterval.value), form.initialUnit),
      IntervalSetting(OrDefault(form.secondValue, defaults.secondInterval.value), form.secondUnit),
      IntervalSetting(OrDefault(form.lapseValue, defaults.lapseInterval.value), form.lapseUnit),
      OrDefault(form.requiredStreak, defaults.requiredStreak),
      OrDefault(form.penalty, defaults.penalty))
  }

  /** No number of the settings is 0. */
  predicate NonZero(s: SrsSettings) {
    s.initialInterval.value != 0 && s.secondInterval.value != 0 && s.lapseInterval.value != 0
    && s.requiredStreak != 0 && s.penalty != 0
  }

  /** Every number of `s` is either not 0 or the default itself. */
  predicate KeptBySave(defaults: SrsSettings, s: SrsSettings) {
    (s.initialInterval.value != 0 || s.initialInterval.value == defaults.initialInterval.value)
    && (s.secondInterval.value != 0 || s.secondInterval.value == defaults.secondInterval.value)
    && (s.lapseInterval.value != 0 || s.lapseInterval.value == defaults.lapseInterval.value)
    && (s.requiredStreak != 0 || s.requiredStreak == defaults.requiredStreak)
    && (s.penalty != 0 || s.penalty == defaults.penalty)
  }

  /** Opening the modal and saving it untouched keeps the settings exactly
      when none of its numbers is a 0 that the fallback would replace; in
      particular it keeps the defaults themselves. */
  lemma PopulatedSavesBack(defaults: SrsSettings, s: SrsSettings)
    ensures FormSaved(defaults, Populated(s)) == s <==> KeptBySave(defaults, s)
    ensures FormSaved(defaults, Populated(defaults)) == defaults
  {
    if FormSaved(defaults, Populated(s)) == s {
      assert FormSaved(defaults, Populated(s)).requiredStreak == s.requiredStreak;
    }
  }

  /** With defaults that are not 0, a save never stores a 0, whatever is
      typed: an empty, non-numeric or zero input gives the default. */
  lemma SavedNonZero(defaults: SrsSettings, form: SettingsForm)
    requires NonZero(defaults)
    ensures NonZero(FormSaved(defaults, form))
    ensures form.requiredStreak.None? ==> FormSaved(defaults, form).requiredStreak == defaults.requiredStreak
    ensures form.requiredStreak == Some(0) ==> FormSaved(defaults, form).requiredStreak == defaults.requiredStreak
  {
  }

  /** A save is idempotent: saving the form of what a save stored stores
      the same again. */
  lemma SaveIdempotent(defaults: SrsSettings, form: SettingsForm)
    ensures var s := FormSaved(defaults, form);
      FormSaved(defaults, Populated(s)) == s
  {
    var s := FormSaved(defaults, form);
    assert KeptBySave(defaults, s);
    PopulatedSavesBack(defaults, s);
  }

  // ---------------------------------------------------------------------
  // the records behind the modal

  /** The interval boxes of the current settings and of the defaults:
      each record's three are distinct, and a box is shared between the
      two records, if at all, only in the same field. */
  predicate Aligned(srs: SettingsRecord, defaults: SettingsRecord)
    reads srs, defaults
  {
    srs != defaults && srs.Separate() && defaults.Separate()
    && srs.initialInterval != defaults.secondInterval && srs.initialInterval != defaults.lapseInterval
    && srs.secondInterval != defaults.initialInterval && srs.secondInterval != defaults.lapseInterval
    && srs.lapseInterval != defaults.initialInterval && srs.lapseInterval != defaults.secondInterval
  }

  /** No interval box is shared between the two records. */
  predicate Disjoint(srs: SettingsRecord, defaults: SettingsRecord)
    reads srs, defaults
  {
    Aligned(srs, defaults)
    && srs.initialInterval != defaults.initialInterval
    && srs.secondInterval != defaults.secondInterval
    && srs.lapseInterval != defaults.lapseInterval
  }

  /** Every interval box is shared, field by field: what `Object.assign`
      leaves behind. */
  predicate Shared(srs: SettingsRecord, defaults: SettingsRecord)
    reads srs, defaults
  {
    Aligned(srs, defaults)
    && srs.initialInterval == defaults.initialInterval
    && srs.secondInterval == defaults.secondInterval
    && srs.lapseInterval == defaults.lapseInterval
  }

  /** The defaults as seen after the current settings became `saved`: an
      interval the two records share reads as the saved one. */
  function SeenThrough(defaults: SrsSettings, saved: SrsSettings, initial: bool, second: bool, lapse: bool): (d: SrsSettings)
    ensures d.requiredStreak == defaults.requiredStreak && d.penalty == defaults.penalty
    ensures d.initialInterval == (if initial then saved.initialInterval else defaults.initialInterval)
    ensures d.secondInterval == (if second then saved.secondInterval else defaults.secondInterval)
    ensures d.lapseInterval == (if lapse then saved.lapseInterval else defaults.lapseInterval)
  {
    defaults.(
      initialInterval := if initial then saved.initialInterval else defaults.initialInterval,
      secondInterval := if second then saved.secondInterval else defaults.secondInterval,
      lapseInterval := if lapse then saved.lapseInterval else defaults.lapseInterval)
  }

  /** `saveSettings`, field by field into the current settings' objects.
      Each fallback is read just before its own field is written, so the
      current settings become `FormSaved` of the defaults as they were; an
      interval box shared with the defaults changes the defaults too. */
  method SaveSettings(st: State, form: SettingsForm)
    requires Aligned(st.srsSettings, st.defaultSrsSettings)
    modifies st.srsSettings, st.srsSettings.initialInterval, st.srsSettings.secondInterval, st.srsSettings.lapseInterval
    ensures st.srsSettings.initialInterval == old(st.srsSettings.initialInterval)
    ensures st.srsSettings.secondInterval == old(st.srsSettings.secondInterval)
    ensures st.srsSettings.lapseInterval == old(st.srsSettings.lapseInterval)
    ensures Aligned(st.srsSettings, st.defaultSrsSettings)
    ensures st.Settings() == FormSaved(old(st.defaultSrsSettings.Value()), form)
    ensures st.defaultSrsSettings.Value()
      == SeenThrough(old(st.defaultSrsSettings.Value()), st.Settings(),
                     st.srsSettings.initialInterval == st.defaultSrsSettings.initialInterval,
                     st.srsSettings.secondInterval == st.defaultSrsSettings.secondInterval,
                     st.srsSettings.lapseInterval == st.defaultSrsSettings.lapseInterval)
  {
    var srs, defaults := st.srsSettings, st.defaultSrsSettings;
    srs.initialInterval.value := OrDefault(form.initialValue, defaults.initialInterval.value);
    srs.initialInterval.unit := form.initialUnit;
    srs.secondInterval.value := OrDefault(form.secondValue, defaults.secondInterval.value);
    srs.secondInterval.unit := form.secondUnit;
    srs.lapseInterval.value := OrDefault(form.lapseValue, defaults.lapseInterval.value);
    srs.lapseInterval.unit := form.lapseUnit;
    srs.requiredStreak := OrDefault(form.requiredStreak, defaults.requiredStreak);
    srs.penalty := OrDefault(form.penalty, defaults.penalty);
  }

  /** The reset button as written: `Object.assign` copies the three
      interval references of the defaults, so afterwards the current
      settings share their boxes with the defaults; then the modal is
      filled and saved, which stores the defaults unchanged. */
  method ResetSettingsAsWritten(st: State)
    requires Aligned(st.srsSettings, st.defaultSrsSettings)
    modifies st.srsSettings, st.defaultSrsSettings.initialInterval, st.defaultSrsSettings.secondInterval,
             st.defaultSrsSettings.lapseInterval
    ensures Shared(st.srsSettings, st.defaultSrsSettings)
    ensures st.Settings() == old(st.defaultSrsSettings.Value())
    ensures st.defaultSrsSettings.Value() == old(st.defaultSrsSettings.Value())
  {
    var srs, defaults := st.srsSettings, st.defaultSrsSettings;
    srs.initialInterval := defaults.initialInterval;
    srs.secondInterval := defaults.secondInterval;
    srs.lapseInterval := defaults.lapseInterval;
    srs.requiredStreak := defaults.requiredStreak;
    srs.penalty := defaults.penalty;
    PopulatedSavesBack(defaults.Value(), srs.Value());
    SaveSettings(st, Populated(st.Settings()));
  }

  /** The reset button with the values copied instead of the references:
      the current settings keep their own boxes and hold the defaults. */
  method ResetSettings(st: State)
    requires Disjoint(st.srsSettings, st.defaultSrsSettings)
    modifies st.srsSettings, st.srsSettings.initialInterval, st.srsSettings.secondInterval, st.srsSettings.lapseInterval
    ensures st.srsSettings.initialInterval == old(st.srsSettings.initialInterval)
    ensures st.srsSettings.secondInterval == old(st.srsSettings.secondInterval)
    ensures st.srsSettings.lapseInterval == old(st.srsSettings.lapseInterval)
    ensures Disjoint(st.srsSettings, st.defaultSrsSettings)
    ensures st.Settings() == old(st.defaultSrsSettings.Value())
    ensures st.defaultSrsSettings.Value() == old(st.defaultSrsSettings.Value())
  {
    var srs, defaults := st.srsSettings, st.defaultSrsSettings;
    srs.initialInterval.value := defaults.initialInterval.value;
    srs.initialInterval.unit := defaults.initialInterval.unit;
    srs.secondInterval.value := defaults.secondInterval.value;
    srs.secondInterval.unit := defaults.secondInterval.unit;
    srs.lapseInterval.value := defaults.lapseInterval.value;
    srs.lapseInterval.unit := defaults.lapseInterval.unit;
    srs.requiredStreak := defaults.requiredStreak;
    srs.penalty := defaults.penalty;
    PopulatedSavesBack(defaults.Value(), srs.Value());
    SaveSettings(st, Populated(st.Settings()));
  }

  /** While no box is shared, saving never changes the defaults. */
  method SaveKeepsDefaults(st: State, form: SettingsForm)
    requires Disjoint(st.srsSettings, st.defaultSrsSettings)
    modifies st.srsSettings, st.srsSettings.initialInterval, st.srsSettings.secondInterval, st.srsSettings.lapseInterval
    ensures st.srsSettings.initialInterval == old(st.srsSettings.initialInterval)
    ensures st.srsSettings.secondInterval == old(st.srsSettings.secondInterval)
    ensures st.srsSettings.lapseInterval == old(st.srsSettings.lapseInterval)
    ensures Disjoint(st.srsSettings, st.defaultSrsSettings)
    ensures st.Settings() == FormSaved(old(st.defaultSrsSettings.Value()), form)
    ensures st.defaultSrsSettings.Value() == old(st.defaultSrsSettings.Value())
  {
    SaveSettings(st, form);
  }

  /** As written: reset, save a first interval of 3, then save with that
      input left empty. The empty input should fall back to the built-in
      1 day, but the first save wrote 3 into the shared default box, so
      the fallback is 3. */
  method ResetAliasingShown(st: State)
    requires Aligned(st.srsSettings, st.defaultSrsSettings)
    requires st.defaultSrsSettings.Value() == App.DefaultSrsSettings()
    modifies st.srsSettings, st.defaultSrsSettings.initialInterval, st.defaultSrsSettings.secondInterval,
             st.defaultSrsSettings.lapseInterval
    ensures st.Settings().initialInterval.value == 3
    ensures st.defaultSrsSettings.Value().initialInterval.value == 3
  {
    ResetSettingsAsWritten(st);
    SaveSettings(st, Populated(st.Settings()).(initialValue := Some(3)));
    SaveSettings(st, Populated(st.Settings()).(initialValue := None));
  }

  /** The same three steps with the corrected reset: the empty input falls
      back to the built-in 1 day, and the defaults never change. */
  method ResetCorrectedShown(st: State)
    requires Disjoint(st.srsSettings, st.defaultSrsSettings)
    requires st.defaultSrsSettings.Value() == App.DefaultSrsSettings()
    modifies st.srsSettings, st.srsSettings.initialInterval, st.srsSettings.secondInterval, st.srsSettings.lapseInterval
    ensures st.Settings().initialInterval.value == 1
    ensures st.defaultSrsSettings.Value() == App.DefaultSrsSettings()
  {
    ResetSettings(st);
    SaveKeepsDefaults(st, Populated(st.Settings()).(initialValue := Some(3)));
    SaveKeepsDefaults(st, Populated(st.Settings()).(initialValue := None));
  }
}
