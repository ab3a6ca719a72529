/** The spaced-repetition settings: three review intervals, each a number
    with a unit, the number of correct answers in a row a session asks for,
    and the penalty added to that number after a wrong answer. */
module Settings {
  import opened Wrappers

  /** `{ value, unit }`; the unit is free text from a drop-down, and only
      `"days"` and `"hours"` are treated specially. */
  datatype IntervalSetting = IntervalSetting(value: int, unit: string)

  datatype SrsSettings = SrsSettings(
    initialInterval: IntervalSetting,
    secondInterval: IntervalSetting,
    lapseInterval: IntervalSetting,
    requiredStreak: int,
    penalty: int)

  /** `getNextIntervalInMinutes`: days and hours are converted, any other
      unit is taken as minutes. The three cases are the conversion table
      itself; what they mean for a card shows in `App.DefaultSrsSettings`
      and `Scheduler.FirstReview`. */
  function IntervalMinutes(s: IntervalSetting): (m: int)
    ensures s.unit == "days" ==> m == s.value * 1440
    ensures s.unit == "hours" ==> m == s.value * 60
    ensures s.unit != "days" && s.unit != "hours" ==> m == s.value
  {
    if s.unit == "days" then s.value * 24 * 60
    else if s.unit == "hours" then s.value * 60
    else s.value
  }

  /** The three units agree with each other: a day is 24 hours and an hour
      is 60 minutes, whatever the value. */
  lemma UnitsAgree(v: int)
    ensures IntervalMinutes(IntervalSetting(v, "days")) == 24 * IntervalMinutes(IntervalSetting(v, "hours"))
    ensures IntervalMinutes(IntervalSetting(v, "hours")) == 60 * IntervalMinutes(IntervalSetting(v, "minutes"))
  {
  }

  /** `parseInt(text, 10) || fallback`: an input that does not parse
      (`None`, standing for `NaN`) or parses to 0 gives the fallback. */
  function OrDefault(parsed: Option<int>, fallback: int): (r: int)
    ensures r == fallback || (parsed.Some? && r == parsed.value)
    ensures r == fallback <==> parsed.None? || parsed.value == 0 || parsed.value == fallback
  {
    if parsed.None? || parsed.value == 0 then fallback else parsed.value
  }

  /** An interval setting whose boxes can be shared: the settings record of
      the page holds its three intervals by reference, and
      `Object.assign` copies those references. */
  class IntervalBox {
    var value: int
    var unit: string

    constructor (value: int, unit: string)
      ensures this.value == value && this.unit == unit
    {
      this.value := value;
      this.unit := unit;
    }

    function Setting(): (s: IntervalSetting)
      reads this
      ensures s.value == value && s.unit == unit
    {
      IntervalSetting(value, unit)
    }
  }

  /** A settings record as the page keeps it: an object whose interval
      fields are themselves objects. */
  class SettingsRecord {
    var initialInterval: IntervalBox
    var secondInterval: IntervalBox
    var lapseInterval: IntervalBox
    var requiredStreak: int
    var penalty: int

    /** A record with its own three fresh interval boxes. */
    constructor (s: SrsSettings)
      ensures Value() == s
      ensures fresh(initialInterval) && fresh(secondInterval) && fresh(lapseInterval)
      ensures Separate()
    {
      initialInterval := new IntervalBox(s.initialInterval.value, s.initialInterval.unit);
      secondInterval := new IntervalBox(s.secondInterval.value, s.secondInterval.unit);
      lapseInterval := new IntervalBox(s.lapseInterval.value, s.lapseInterval.unit);
      requiredStreak := s.requiredStreak;
      penalty := s.penalty;
    }

    /** The three interval boxes are distinct objects. */
    predicate Separate()
      reads this
    {
      initialInterval != secondInterval && initialInterval != lapseInterval
      && secondInterval != lapseInterval
    }

    /** The settings the record holds now, as a value. */
    function Value(): (s: SrsSettings)
      reads this, initialInterval, secondInterval, lapseInterval
      ensures s.requiredStreak == requiredStreak && s.penalty == penalty
      ensures s.initialInterval == IntervalSetting(initialInterval.value, initialInterval.unit)
      ensures s.secondInterval == IntervalSetting(secondInterval.value, secondInterval.unit)
      ensures s.lapseInterval == IntervalSetting(lapseInterval.value, lapseInterval.unit)
    {
      SrsSettings(initialInterval.Setting(), secondInterval.Setting(), lapseInterval.Setting(),
                  requiredStreak, penalty)
    }
  }
}
