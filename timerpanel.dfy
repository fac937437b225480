/** The timer panel: the clock face, the mode label and the one control button it shows. */
module TimerPanel {
  import opened Nullable
  import opened JsText
  import opened AppProvider

  /** The minutes field of a `formatTime` result: everything before the colon. */
  function MinutesField(r: string): string
    requires |r| >= 3
  {
    r[..|r| - 3]
  }

  /** The seconds field of a `formatTime` result: the two characters after the colon. */
  function SecondsField(r: string): string
    requires |r| >= 3
  {
    r[|r| - 2..]
  }

  /**
   * One field of the clock face: `n.toString().padStart(2, '0')`. It is all
   * digits, at least two of them, exactly two below one hundred, with a
   * leading zero only below ten, and it reads back as `n`.
   */
  function Field(n: nat): (f: string)
    ensures AllDigits(f) && |f| >= 2
    ensures n < 100 ==> |f| == 2
    ensures f[0] == '0' ==> n < 10
    ensures DecimalValue(f) == n
  {
    PadZerosKeepsValue(Decimal(n), 2);
    DecimalRoundTrip(n);
    PadStart(Decimal(n), 2, '0')
  }

  /**
   * `formatTime`: negative input counts as zero; the minutes field, then a
   * colon, then the seconds field, so the colon is third from the end. The
   * minutes are padded to two digits and no further: a leading zero only
   * below ten minutes.
   */
  function FormatTime(totalSeconds: int): (r: string)
    ensures |r| >= 5 && r[|r| - 3] == ':'
    ensures totalSeconds < 6000 ==> |r| == 5
    ensures MinutesField(r)[0] == '0' ==> totalSeconds < 600
  {
    var s := if totalSeconds < 0 then 0 else totalSeconds;
    var m, sec := Field(s / 60), Field(s % 60);
    assert |sec| == 2 && |m + ":" + sec| == |m| + 3;
    assert (m + ":" + sec)[|m|] == ':';
    FieldsOf(m, sec);
    m + ":" + sec
  }

  /**
   * Both fields are digits, and reading the clock face back as `mm * 60 + ss`
   * gives the seconds shown (zero for negative input), with the seconds field
   * below sixty.
   */
  lemma FormatTimeReadBack(totalSeconds: int)
    ensures var r := FormatTime(totalSeconds);
            var s := if totalSeconds < 0 then 0 else totalSeconds;
            && AllDigits(MinutesField(r)) && AllDigits(SecondsField(r))
            && DecimalValue(SecondsField(r)) < 60
            && DecimalValue(MinutesField(r)) * 60 + DecimalValue(SecondsField(r)) == s
  {
    var s := if totalSeconds < 0 then 0 else totalSeconds;
    var m, sec := Field(s / 60), Field(s % 60);
    assert FormatTime(totalSeconds) == m + ":" + sec;
    FieldsOf(m, sec);
  }

  lemma FieldsOf(m: string, sec: string)
    requires |sec| == 2
    ensures MinutesField(m + ":" + sec) == m && SecondsField(m + ":" + sec) == sec
  {
  }

  /** Distinct readings show distinct clock faces (for non-negative seconds). */
  lemma FormatTimeInjective(a: nat, b: nat)
    requires FormatTime(a) == FormatTime(b)
    ensures a == b
  {
    FormatTimeReadBack(a);
    FormatTimeReadBack(b);
  }

  /** `statusLabel`: work is "Focus", short is "Short Break", any other mode "Long Break". */
  function StatusLabel(m: Mode): (l: string)
    ensures l == "Focus" <==> m == Work
    ensures l == "Short Break" <==> m == Short
    ensures l == "Long Break" <==> m == Long
  {
    assert |"Focus"| == 5 && |"Short Break"| == 11 && |"Long Break"| == 10;
    match m
    case Work => "Focus"
    case Short => "Short Break"
    case Long => "Long Break"
  }

  /** The label tells the three modes apart. */
  lemma StatusLabelDistinct(m1: Mode, m2: Mode)
    requires StatusLabel(m1) == StatusLabel(m2)
    ensures m1 == m2
  {
  }

  /** The control button the panel shows: Start (maybe disabled, with its target), Resume or Pause. */
  datatype Control = StartButton(enabled: bool, target: Option<TaskId>) | ResumeButton | PauseButton

  /**
   * The button choice. The shown button is the one whose command does
   * something: Start exactly when the timer is stopped, enabled exactly when
   * the current task exists and aimed at it; Resume exactly when paused;
   * Pause exactly when running unpaused.
   */
  function ControlFor(timer: TimerState, tasks: seq<Task>): (c: Control)
    ensures c.StartButton? <==> !timer.isRunning
    ensures c.ResumeButton? <==> CanResume(timer)
    ensures c.PauseButton? <==> CanPause(timer)
    ensures c.StartButton? ==> (c.enabled <==> c.target.Some?)
    ensures c.StartButton? && c.target.Some? ==>
              timer.currentTaskId == c.target && FindTask(tasks, c.target.value).Some?
    ensures c.StartButton? && c.target.None? ==>
              timer.currentTaskId.None? || FindTask(tasks, timer.currentTaskId.value).None?
  {
    var current := CurrentTask(tasks, timer.currentTaskId);
    if !timer.isRunning then
      StartButton(current.Some?, if current.Some? then Some(current.value.id) else None)
    else if timer.isPaused then ResumeButton
    else PauseButton
  }
}
