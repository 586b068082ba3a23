/**
 * The task side panel: a list of task records and a flag for the new-task form.
 * Each handler builds the next list from the current one (append, merge by id,
 * filter by id), stores it and hands it to the optional `onTaskUpdate` listener.
 * A task is a record of JSON-like fields; ids are compared with `===`, so a
 * task matches an id when its `id` field is that number.
 */
module TaskSidebar {

  import opened Wrappers
  import opened JsValues
  import Seqs

  type Task = map<string, Json>

  datatype State = State(tasks: seq<Task>, showNewTaskForm: bool)

  /** A handler's result: the next state, and the list passed to `onTaskUpdate` when there is a listener. */
  datatype Outcome = Outcome(state: State, notified: Option<seq<Task>>)

  /** The state on mounting: the given tasks and the form hidden. */
  function Initial(initialTasks: seq<Task>): (st: State)
    ensures st.tasks == initialTasks && !st.showNewTaskForm
  {
    State(initialTasks, false)
  }

  /** `task.id === taskId` for a numeric `taskId`. */
  predicate HasId(t: Task, id: real) {
    "id" in t && t["id"] == JNumber(id)
  }

  /** `{ id: Date.now(), ...taskData }`: a field of `taskData` named `id` wins over the clock. */
  function NewTask(taskData: Task, now: int): (t: Task)
    ensures t.Keys == taskData.Keys + {"id"}
    ensures forall k :: k in taskData ==> t[k] == taskData[k]
    ensures "id" !in taskData ==> HasId(t, now as real)
  {
    map["id" := JNumber(now as real)] + taskData
  }

  /** `{ ...task, ...updatedData }`. */
  function Merge(task: Task, updatedData: Task): (t: Task)
    ensures t.Keys == task.Keys + updatedData.Keys
    ensures forall k :: k in updatedData ==> t[k] == updatedData[k]
    ensures forall k :: k in task && k !in updatedData ==> t[k] == task[k]
  {
    task + updatedData
  }

  function Notify(st: State, hasListener: bool): (o: Outcome)
    ensures o.state == st
    ensures o.notified.Some? <==> hasListener
    ensures o.notified.Some? ==> o.notified.value == st.tasks
  {
    Outcome(st, if hasListener then Some(st.tasks) else None)
  }

  /** `handleAddTask`: append one new task, hide the form, notify. */
  function HandleAddTask(st: State, taskData: Task, now: int, hasListener: bool): (o: Outcome)
    ensures |o.state.tasks| == |st.tasks| + 1
    ensures o.state.tasks[..|st.tasks|] == st.tasks
    ensures o.state.tasks[|st.tasks|] == NewTask(taskData, now)
    ensures !o.state.showNewTaskForm
    ensures o.notified == (if hasListener then Some(o.state.tasks) else None)
  {
    var updatedTasks := st.tasks + [NewTask(taskData, now)];
    assert updatedTasks[..|st.tasks|] == st.tasks;
    Notify(State(updatedTasks, false), hasListener)
  }

  /** The `map` of `handleUpdateTask`: merge `updatedData` into every task with that id. */
  function UpdateAll(tasks: seq<Task>, taskId: real, updatedData: Task): (r: seq<Task>)
    ensures |r| == |tasks|
    ensures forall i :: 0 <= i < |tasks| && !HasId(tasks[i], taskId) ==> r[i] == tasks[i]
    ensures forall i :: 0 <= i < |tasks| && HasId(tasks[i], taskId) ==> r[i] == Merge(tasks[i], updatedData)
  {
    if tasks == [] then []
    else
      var head := if HasId(tasks[0], taskId) then Merge(tasks[0], updatedData) else tasks[0];
      [head] + UpdateAll(tasks[1..], taskId, updatedData)
  }

  /** `handleUpdateTask`: same length and order, the form flag untouched, notify. */
  function HandleUpdateTask(st: State, taskId: real, updatedData: Task, hasListener: bool): (o: Outcome)
    ensures o.state.tasks == UpdateAll(st.tasks, taskId, updatedData)
    ensures o.state.showNewTaskForm == st.showNewTaskForm
    ensures o.notified == (if hasListener then Some(o.state.tasks) else None)
  {
    Notify(State(UpdateAll(st.tasks, taskId, updatedData), st.showNewTaskForm), hasListener)
  }

  function Keeps(taskId: real): Task -> bool {
    (t: Task) => !HasId(t, taskId)
  }

  /** `handleDeleteTask`: keep the tasks whose id differs, the form flag untouched, notify. */
  function HandleDeleteTask(st: State, taskId: real, hasListener: bool): (o: Outcome)
    ensures o.state.tasks == Seqs.Filter(st.tasks, Keeps(taskId))
    ensures forall t :: t in o.state.tasks <==> t in st.tasks && !HasId(t, taskId)
    ensures o.state.showNewTaskForm == st.showNewTaskForm
    ensures o.notified == (if hasListener then Some(o.state.tasks) else None)
  {
    var kept := Seqs.Filter(st.tasks, Keeps(taskId));
    forall t
      ensures t in kept <==> t in st.tasks && !HasId(t, taskId)
    {
      Seqs.FilterMembership(st.tasks, Keeps(taskId), t);
    }
    Notify(State(kept, st.showNewTaskForm), hasListener)
  }

  /** The "+ add task" button shows the form; the tasks stay. */
  function OpenNewTaskForm(st: State): (r: State)
    ensures r.tasks == st.tasks && r.showNewTaskForm
  {
    st.(showNewTaskForm := true)
  }

  /** The form's cancel button hides it; the tasks stay. */
  function CancelNewTaskForm(st: State): (r: State)
    ensures r.tasks == st.tasks && !r.showNewTaskForm
  {
    st.(showNewTaskForm := false)
  }

  // ---------------------------------------------------------------------------
  // Properties of the handlers

  /** Deleting an id no task carries leaves the list as it is. */
  lemma DeleteAbsentId(st: State, taskId: real, hasListener: bool)
    requires forall t :: t in st.tasks ==> !HasId(t, taskId)
    ensures HandleDeleteTask(st, taskId, hasListener).state == st
  {
    Seqs.FilterAll(st.tasks, Keeps(taskId));
  }

  /** Deleting the same id twice is deleting it once. */
  lemma DeleteIdempotent(st: State, taskId: real, hasListener: bool)
    ensures var once := HandleDeleteTask(st, taskId, hasListener).state;
            HandleDeleteTask(once, taskId, hasListener).state == once
  {
    Seqs.FilterTwice(st.tasks, Keeps(taskId));
  }

  /** Deleting removes exactly the tasks with that id: the kept and the removed add up to the list. */
  lemma DeleteCount(st: State, taskId: real, hasListener: bool)
    ensures |HandleDeleteTask(st, taskId, hasListener).state.tasks| + Seqs.Count(st.tasks, (t: Task) => HasId(t, taskId)) == |st.tasks|
  {
    var removed := (t: Task) => HasId(t, taskId);
    Seqs.FilterCount(st.tasks, Keeps(taskId), removed);
  }

  /** Updating never changes which tasks carry the id when the update has no `id` field. */
  lemma {:induction false} UpdateKeepsIds(tasks: seq<Task>, taskId: real, updatedData: Task)
    requires "id" !in updatedData
    ensures Seqs.Filter(UpdateAll(tasks, taskId, updatedData), Keeps(taskId)) == Seqs.Filter(tasks, Keeps(taskId))
  {
    if tasks != [] {
      UpdateKeepsIds(tasks[1..], taskId, updatedData);
      var r := UpdateAll(tasks, taskId, updatedData);
      assert r[1..] == UpdateAll(tasks[1..], taskId, updatedData);
      assert Keeps(taskId)(r[0]) == Keeps(taskId)(tasks[0]);
    }
  }

  /** Deleting after an update without an `id` field is deleting straight away. */
  lemma DeleteAfterUpdate(st: State, taskId: real, updatedData: Task, hasListener: bool)
    requires "id" !in updatedData
    ensures var updated := HandleUpdateTask(st, taskId, updatedData, hasListener).state;
            HandleDeleteTask(updated, taskId, hasListener).state.tasks == HandleDeleteTask(st, taskId, hasListener).state.tasks
  {
    UpdateKeepsIds(st.tasks, taskId, updatedData);
  }

  /** An update for an id no task carries leaves the list as it is. */
  lemma {:induction false} UpdateAbsentId(tasks: seq<Task>, taskId: real, updatedData: Task)
    requires forall i :: 0 <= i < |tasks| ==> !HasId(tasks[i], taskId)
    ensures UpdateAll(tasks, taskId, updatedData) == tasks
  {
    var r := UpdateAll(tasks, taskId, updatedData);
    assert forall i :: 0 <= i < |tasks| ==> r[i] == tasks[i];
  }

  /**
   * Adding a task whose data has no `id`, at a clock value no task already
   * carries as its id, and then deleting that id, gives back the original list.
   */
  lemma AddThenDelete(st: State, taskData: Task, now: int, hasListener: bool)
    requires "id" !in taskData
    requires forall t :: t in st.tasks ==> !HasId(t, now as real)
    ensures var added := HandleAddTask(st, taskData, now, hasListener).state;
            HandleDeleteTask(added, now as real, hasListener).state.tasks == st.tasks
  {
    var newTask := NewTask(taskData, now);
    var added := HandleAddTask(st, taskData, now, hasListener).state;
    assert added.tasks == st.tasks + [newTask];
    Seqs.FilterAppend(st.tasks, [newTask], Keeps(now as real));
    Seqs.FilterAll(st.tasks, Keeps(now as real));
    assert Seqs.Filter([newTask], Keeps(now as real)) == [];
  }

  /** A task data record with its own `id` keeps that id: the clock value is overridden. */
  lemma SuppliedIdWins(st: State, taskData: Task, now: int, hasListener: bool)
    requires "id" in taskData
    ensures var added := HandleAddTask(st, taskData, now, hasListener).state;
            added.tasks[|st.tasks|]["id"] == taskData["id"]
  {
  }
}
