/** The settings modal: a form over the settings record, saved with every number clamped to at least one. */
module SettingsModal {
  import opened JsText
  import opened AppProvider

  /**
   * The record `save` stores. Every number becomes `Math.max(1, n)`, so it is
   * at least one and a number already at least one is kept; `sound` is kept.
   * The record type holds exactly the five settings, so nothing else in the
   * form survives.
   */
  function Clamped(form: Settings): (r: Settings)
    ensures r.workMinutes >= 1 && r.shortBreakMinutes >= 1 && r.longBreakMinutes >= 1 && r.longBreakEvery >= 1
    ensures form.workMinutes >= 1 ==> r.workMinutes == form.workMinutes
    ensures form.shortBreakMinutes >= 1 ==> r.shortBreakMinutes == form.shortBreakMinutes
    ensures form.longBreakMinutes >= 1 ==> r.longBreakMinutes == form.longBreakMinutes
    ensures form.longBreakEvery >= 1 ==> r.longBreakEvery == form.longBreakEvery
    ensures form.workMinutes < 1 ==> r.workMinutes == 1
    ensures form.shortBreakMinutes < 1 ==> r.shortBreakMinutes == 1
    ensures form.longBreakMinutes < 1 ==> r.longBreakMinutes == 1
    ensures form.longBreakEvery < 1 ==> r.longBreakEvery == 1
    ensures r.sound == form.sound
  {
    Settings(AtLeastOne(form.workMinutes), AtLeastOne(form.shortBreakMinutes),
             AtLeastOne(form.longBreakMinutes), AtLeastOne(form.longBreakEvery), form.sound)
  }

  /** Valid settings are those every number of which is at least one. */
  predicate AllPositive(s: Settings) {
    s.workMinutes >= 1 && s.shortBreakMinutes >= 1 && s.longBreakMinutes >= 1 && s.longBreakEvery >= 1
  }

  /** Saving changes a form exactly when one of its numbers is below one; saving twice is saving once. */
  lemma ClampedFixedPoints(form: Settings)
    ensures Clamped(form) == form <==> AllPositive(form)
    ensures Clamped(Clamped(form)) == Clamped(form)
  {
  }

  /**
   * After a save the timer's own clamping is a no-op: every duration is
   * exactly the saved minutes times sixty, and the cadence divides by the
   * saved `longBreakEvery`.
   */
  lemma SavedSettingsDriveTimer(form: Settings, m: Mode, cycleCount: nat)
    ensures ModeDurationSec(Clamped(form), m) == MinutesFor(Clamped(form), m) * 60
    ensures NextBreak(cycleCount, Clamped(form).longBreakEvery) == Long
            <==> (cycleCount + 1) % Clamped(form).longBreakEvery == 0
  {
  }

  /** The four number inputs of the form. */
  datatype NumberField = WorkMinutes | ShortBreakMinutes | LongBreakMinutes | LongBreakEvery

  /** The modal's state: its form, started from the saved settings, and the provider it saves to. */
  class Modal {
    var form: Settings
    const app: App

    constructor (app: App)
      ensures this.app == app && form == app.settings
    {
      this.app := app;
      form := app.settings;
    }

    /** A number input's `onChange`: that field of the form takes the value. */
    method SetNumber(field: NumberField, v: int)
      modifies this`form
      ensures form == match field
                      case WorkMinutes => old(form).(workMinutes := v)
                      case ShortBreakMinutes => old(form).(shortBreakMinutes := v)
                      case LongBreakMinutes => old(form).(longBreakMinutes := v)
                      case LongBreakEvery => old(form).(longBreakEvery := v)
    {
      match field
      case WorkMinutes => form := form.(workMinutes := v);
      case ShortBreakMinutes => form := form.(shortBreakMinutes := v);
      case LongBreakMinutes => form := form.(longBreakMinutes := v);
      case LongBreakEvery => form := form.(longBreakEvery := v);
    }

    /** The sound checkbox's `onChange`. */
    method SetSound(checked: bool)
      modifies this`form
      ensures form == old(form).(sound := checked)
    {
      form := form.(sound := checked);
    }

    /** `close`: hide the modal; the rest of the ui slice is kept. */
    method Close()
      modifies app`ui
      ensures app.ui == old(app.ui).(showSettings := false)
    {
      app.ui := app.ui.(showSettings := false);
    }

    /** `save`: store the clamped form as the settings, then close. */
    method Save()
      modifies app`settings, app`ui
      ensures app.settings == Clamped(form) && AllPositive(app.settings)
      ensures app.ui == old(app.ui).(showSettings := false)
    {
      app.settings := Clamped(form);
      Close();
    }
  }
}
