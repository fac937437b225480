/** The task list view: status totals, the add and edit forms, progress bars and Start buttons. */
module TaskList {
  import opened Nullable
  import opened JsText
  import opened AppProvider

  datatype Totals = Totals(total: nat, pending: nat, inProgress: nat, completed: nat)

  /**
   * `totals`: the number of tasks and how many have each status; every task
   * has exactly one of the three statuses, so the counts add up to the total.
   */
  function TotalsOf(tasks: seq<Task>): (r: Totals)
    ensures r.total == |tasks|
    ensures r.pending == CountStatus(tasks, Pending) && r.inProgress == CountStatus(tasks, InProgress)
    ensures r.completed == CountStatus(tasks, Completed)
    ensures r.pending + r.inProgress + r.completed == r.total
  {
    TotalsPartition(tasks);
    Totals(|tasks|, CountStatus(tasks, Pending), CountStatus(tasks, InProgress), CountStatus(tasks, Completed))
  }

  /** The three status counts of a list add up to its length. */
  lemma {:induction false} TotalsPartition(tasks: seq<Task>)
    ensures CountStatus(tasks, Pending) + CountStatus(tasks, InProgress) + CountStatus(tasks, Completed) == |tasks|
  {
    if tasks != [] {
      TotalsPartition(tasks[1..]);
    }
  }

  /**
   * `ProgressBar`'s percentage `min(100, round(done / max(1, total) * 100))`,
   * computed exactly: `round(x)` is `floor(x + 1/2)`, and
   * `done * 100 / t + 1/2` is `(200 * done + t) / (2 * t)`.
   */
  function Progress(total: int, done: nat): (pct: nat)
    ensures pct <= 100
  {
    var t := AtLeastOne(total);
    var q := (200 * done + t) / (2 * t);
    if q < 100 then q else 100
  }

  /**
   * The bar is empty with nothing done, full once the sessions done reach the
   * estimate (an estimate below one counts as one), and otherwise the
   * percentage nearest to `100 * done / total`, capped at 100: it is 100
   * exactly when that ratio rounds to 100 or more.
   */
  lemma ProgressBounds(total: int, done: nat)
    ensures done == 0 ==> Progress(total, done) == 0
    ensures done >= AtLeastOne(total) ==> Progress(total, done) == 100
    ensures var t, pct := AtLeastOne(total), Progress(total, done);
            pct < 100 ==> pct * (2 * t) <= 200 * done + t < (pct + 1) * (2 * t)
    ensures var t, pct := AtLeastOne(total), Progress(total, done);
            pct == 100 ==> 100 * (2 * t) <= 200 * done + t
  {
    var t := AtLeastOne(total);
    var a := 200 * done + t;
    var q := a / (2 * t);
    DivBounds(a, 2 * t);
    if done == 0 && q >= 1 {
      MulMonotone(1, q, 2 * t);
    }
    if done >= t && q < 100 {
      MulMonotone(q + 1, 100, 2 * t);
    }
    if q >= 100 {
      MulMonotone(100, q, 2 * t);
    }
  }

  lemma DivBounds(a: nat, b: int)
    requires b >= 1
    ensures (a / b) * b <= a < (a / b + 1) * b
  {
  }

  /** More sessions done never shrink the bar. */
  lemma ProgressMonotone(total: int, d1: nat, d2: nat)
    requires d1 <= d2
    ensures Progress(total, d1) <= Progress(total, d2)
  {
    var t := AtLeastOne(total);
    var a1, a2 := 200 * d1 + t, 200 * d2 + t;
    DivMonotone(a1, a2, 2 * t);
  }

  lemma DivMonotone(a1: nat, a2: nat, b: int)
    requires a1 <= a2 && b >= 1
    ensures a1 / b <= a2 / b
  {
    DivBounds(a1, b);
    DivBounds(a2, b);
    if a1 / b > a2 / b {
      MulMonotone(a2 / b + 1, a1 / b, b);
    }
  }

  lemma MulMonotone(x: int, y: int, b: int)
    requires x <= y && b >= 1
    ensures x * b <= y * b
  {
  }

  /**
   * A task's Start button is disabled while a work interval runs for another
   * task; so an enabled Start during work never switches the interval's task.
   */
  function StartDisabled(timer: TimerState, id: TaskId): (d: bool)
    ensures !timer.isRunning || timer.mode != Work ==> !d
    ensures timer.currentTaskId == Some(id) ==> !d
  {
    timer.isRunning && timer.currentTaskId != Some(id) && timer.mode == Work
  }

  lemma EnabledStartKeepsWorkTask(timer: TimerState, id: TaskId)
    requires timer.isRunning && timer.mode == Work && !StartDisabled(timer, id)
    ensures timer.currentTaskId == Some(id)
  {
  }

  /** During a running work interval at most one task, the timed one, can be started. */
  lemma OneStartableDuringWork(timer: TimerState, a: TaskId, b: TaskId)
    requires timer.isRunning && timer.mode == Work
    requires !StartDisabled(timer, a) && !StartDisabled(timer, b)
    ensures a == b && timer.currentTaskId == Some(a)
  {
    EnabledStartKeepsWorkTask(timer, a);
    EnabledStartKeepsWorkTask(timer, b);
  }

  const EmptyForm := TaskForm("", "", 1)

  /** The view's local state: the add form, the task being edited and its form. */
  class TaskListView {
    var form: TaskForm
    var editingId: Option<TaskId>
    var editForm: TaskForm
    const app: App

    constructor (app: App)
      ensures this.app == app && form == EmptyForm && editingId == None && editForm == EmptyForm
    {
      this.app := app;
      form, editingId, editForm := EmptyForm, None, EmptyForm;
    }

    /** The add form's inputs: the form takes the typed title, description and estimate. */
    method SetForm(f: TaskForm)
      modifies this`form
      ensures form == f
    {
      form := f;
    }

    /**
     * `submit`: a title of nothing but white space adds nothing; otherwise the
     * form's task is prepended and the form is cleared.
     */
    method Submit(freshId: TaskId)
      modifies this`form, app`tasks
      ensures AllSpace(old(form).title) ==> form == old(form) && app.tasks == old(app.tasks)
      ensures !AllSpace(old(form).title) ==>
                app.tasks == [NewTask(old(form), freshId)] + old(app.tasks) && form == EmptyForm
    {
      TrimEmptyIffAllSpace(form.title);
      if Trim(form.title) == "" {
        return;
      }
      app.AddTask(form, freshId);
      form := EmptyForm;
    }

    /** `beginEdit`: edit this task, starting from its title, description and estimate. */
    method BeginEdit(t: Task)
      modifies this`editingId, this`editForm
      ensures editingId == Some(t.id)
      ensures editForm == TaskForm(t.title, t.description, t.estimate)
    {
      editingId := Some(t.id);
      editForm := TaskForm(t.title, t.description, t.estimate);
    }

    /** The edit form's inputs. */
    method SetEditForm(f: TaskForm)
      modifies this`editForm
      ensures editForm == f
    {
      editForm := f;
    }

    /**
     * `saveEdit`: a blank title keeps the editor open and changes nothing;
     * otherwise the task takes the edit form's fields (untrimmed, unclamped)
     * and editing ends.
     */
    method SaveEdit(id: TaskId)
      modifies this`editingId, app`tasks
      ensures AllSpace(editForm.title) ==> editingId == old(editingId) && app.tasks == old(app.tasks)
      ensures !AllSpace(editForm.title) ==>
                app.tasks == EditTasks(old(app.tasks), id, editForm) && editingId == None
    {
      TrimEmptyIffAllSpace(editForm.title);
      if Trim(editForm.title) == "" {
        return;
      }
      app.UpdateTask(id, editForm);
      editingId := None;
    }

    /** The editor's Cancel button. */
    method CancelEdit()
      modifies this`editingId
      ensures editingId == None
    {
      editingId := None;
    }
  }
}
