/** The task store of src/context/TaskContext.jsx: an ordered list of task
    records that each operation replaces by a filter or a map of the old
    list. */
module Tasks {
  import opened Common

  datatype Task = Task(
    id: TaskId,
    title: string,
    completed: bool,
    createdAt: Timestamp,
    pomodorosCompleted: int,
    pomodorosEstimated: int,
    notes: Option<string>,
    completedAt: Option<Timestamp>)

  /** A task list as the store keeps it: ids are unique, counters are not
      negative, and a task has a completion time exactly when it is done. */
  predicate WellFormed(ts: seq<Task>)
  {
    && (forall i, j :: 0 <= i < j < |ts| ==> ts[i].id != ts[j].id)
    && (forall i :: 0 <= i < |ts| ==> ts[i].pomodorosCompleted >= 0)
    && (forall i :: 0 <= i < |ts| ==> (ts[i].completed <==> ts[i].completedAt.Some?))
  }

  predicate HasId(ts: seq<Task>, id: TaskId)
  {
    exists i :: 0 <= i < |ts| && ts[i].id == id
  }

  /** Startup list: `saved` is None when nothing is stored or parsing fails. */
  function LoadTasks(saved: Option<seq<Task>>): (r: seq<Task>)
    ensures saved.None? ==> r == []
    ensures saved.Some? ==> r == saved.value
  {
    match saved
    case None => []
    case Some(ts) => ts
  }

  // ---------------------------------------------------------------------------
  // Filters

  /** What a `filter` call keeps. */
  datatype Criterion = Active | Done | OtherThan(id: TaskId)

  predicate Keeps(c: Criterion, t: Task)
  {
    match c
    case Active => !t.completed
    case Done => t.completed
    case OtherThan(id) => t.id != id
  }

  /** `ts.filter(...)`: the tasks `c` keeps, in their original order. */
  function Filter(ts: seq<Task>, c: Criterion): (r: seq<Task>)
    ensures |r| <= |ts|
    ensures forall t :: t in r ==> t in ts && Keeps(c, t)
    ensures forall i :: 0 <= i < |ts| && Keeps(c, ts[i]) ==> ts[i] in r
    ensures (forall i :: 0 <= i < |ts| ==> Keeps(c, ts[i])) ==> r == ts
    ensures multiset(r) <= multiset(ts)
    decreases |ts|
  {
    if ts == [] then []
    else
      assert ts == [ts[0]] + ts[1..];
      if Keeps(c, ts[0]) then [ts[0]] + Filter(ts[1..], c)
      else Filter(ts[1..], c)
  }

  /** Filtering commutes with concatenation, so it keeps relative order. */
  lemma {:induction false} FilterConcat(a: seq<Task>, b: seq<Task>, c: Criterion)
    ensures Filter(a + b, c) == Filter(a, c) + Filter(b, c)
    decreases |a|
  {
    if a == [] {
      assert a + b == b;
    } else {
      var ab := a + b;
      assert ab[0] == a[0] && ab[1..] == a[1..] + b;
      FilterConcat(a[1..], b, c);
      var rest := Filter(a[1..], c) + Filter(b, c);
      if Keeps(c, a[0]) {
        calc {
          Filter(ab, c);
          [a[0]] + Filter(ab[1..], c);
          [a[0]] + rest;
          ([a[0]] + Filter(a[1..], c)) + Filter(b, c);
        }
      } else {
        calc {
          Filter(ab, c);
          Filter(ab[1..], c);
        }
      }
    }
  }

  /** The active and the completed tasks split the list between them. */
  lemma {:induction false} ActiveDonePartition(ts: seq<Task>)
    ensures |Filter(ts, Active)| + |Filter(ts, Done)| == |ts|
    ensures multiset(Filter(ts, Active)) + multiset(Filter(ts, Done)) == multiset(ts)
    decreases |ts|
  {
    if ts != [] {
      ActiveDonePartition(ts[1..]);
      assert ts == [ts[0]] + ts[1..];
    }
  }

  /** `filteredTasks(filter)`: 'active' gives the open tasks, 'completed' the
      done ones, anything else the whole list. */
  function FilteredTasks(ts: seq<Task>, filter: string): (r: seq<Task>)
    ensures filter == "active" ==>
      (forall t :: t in r ==> t in ts && !t.completed) &&
      (forall i :: 0 <= i < |ts| && !ts[i].completed ==> ts[i] in r)
    ensures filter == "completed" ==>
      (forall t :: t in r ==> t in ts && t.completed) &&
      (forall i :: 0 <= i < |ts| && ts[i].completed ==> ts[i] in r)
    ensures filter != "active" && filter != "completed" ==> r == ts
  {
    if filter == "active" then Filter(ts, Active)
    else if filter == "completed" then Filter(ts, Done)
    else ts
  }

  /** The 'active' and 'completed' views together hold every task once. */
  lemma FilteredViewsPartition(ts: seq<Task>)
    ensures multiset(FilteredTasks(ts, "active")) + multiset(FilteredTasks(ts, "completed"))
            == multiset(FilteredTasks(ts, "all"))
  {
    ActiveDonePartition(ts);
  }

  // ---------------------------------------------------------------------------
  // Operations

  /** The record `addTask` builds. */
  function NewTask(id: TaskId, now: Timestamp, title: string, estimate: int,
                   notes: Option<string>): (t: Task)
    ensures t.id == id && t.title == title && t.pomodorosEstimated == estimate && t.notes == notes
    ensures !t.completed && t.completedAt.None? && t.pomodorosCompleted == 0 && t.createdAt == now
  {
    Task(id, title, false, now, 0, estimate, notes, None)
  }

  /** `addTask`: append one new, open task with no pomodoros; `id` comes from
      `uuidv4()` and `now` from `Date.now()`. */
  function AddTask(ts: seq<Task>, id: TaskId, now: Timestamp, title: string, estimate: int,
                   notes: Option<string>): (r: seq<Task>)
    ensures |r| == |ts| + 1 && r[..|ts|] == ts
    ensures r[|ts|] == NewTask(id, now, title, estimate, notes)
    ensures WellFormed(ts) && !HasId(ts, id) ==> WellFormed(r)
  {
    ts + [NewTask(id, now, title, estimate, notes)]
  }

  /** The fields an edit may pass to `updateTask`. */
  datatype TaskUpdate = TaskUpdate(
    title: Option<string>,
    pomodorosEstimated: Option<int>,
    notes: Option<string>)

  /** What a map step does to a task whose id matches. */
  datatype Change = Merge(update: TaskUpdate) | MarkCompleted(now: Timestamp) | Increment

  /** `{ ...task, ...updates }`, `{ ...task, completed: true, completedAt }`,
      `{ ...task, pomodorosCompleted: task.pomodorosCompleted + 1 }` */
  function Changed(t: Task, c: Change): (r: Task)
    ensures r.id == t.id && r.createdAt == t.createdAt
    ensures c.Merge? ==>
      && r.title == (if c.update.title.Some? then c.update.title.value else t.title)
      && r.pomodorosEstimated ==
         (if c.update.pomodorosEstimated.Some? then c.update.pomodorosEstimated.value else t.pomodorosEstimated)
      && r.notes == (if c.update.notes.Some? then c.update.notes else t.notes)
      && r.completed == t.completed && r.completedAt == t.completedAt
      && r.pomodorosCompleted == t.pomodorosCompleted
    ensures c.MarkCompleted? ==> r == t.(completed := true, completedAt := Some(c.now))
    ensures c.Increment? ==> r == t.(pomodorosCompleted := t.pomodorosCompleted + 1)
  {
    match c
    case Merge(u) =>
      t.(title := if u.title.Some? then u.title.value else t.title,
         pomodorosEstimated := if u.pomodorosEstimated.Some? then u.pomodorosEstimated.value else t.pomodorosEstimated,
         notes := if u.notes.Some? then u.notes else t.notes)
    case MarkCompleted(now) => t.(completed := true, completedAt := Some(now))
    case Increment => t.(pomodorosCompleted := t.pomodorosCompleted + 1)
  }

  /** `ts.map(task => task.id === id ? change(task) : task)` */
  function MapMatching(ts: seq<Task>, id: TaskId, c: Change): (r: seq<Task>)
    ensures |r| == |ts|
    ensures forall i :: 0 <= i < |ts| ==> r[i].id == ts[i].id
    ensures forall i :: 0 <= i < |ts| && ts[i].id != id ==> r[i] == ts[i]
    ensures forall i :: 0 <= i < |ts| && ts[i].id == id ==> r[i] == Changed(ts[i], c)
    ensures !HasId(ts, id) ==> r == ts
    ensures WellFormed(ts) ==> WellFormed(r)
  {
    seq(|ts|, i requires 0 <= i < |ts| => if ts[i].id == id then Changed(ts[i], c) else ts[i])
  }

  /** `updateTask(id, updates)`: the given fields replace those of the task
      with that id; id, completion state and creation time stay. */
  function UpdateTask(ts: seq<Task>, id: TaskId, u: TaskUpdate): (r: seq<Task>)
    ensures |r| == |ts|
    ensures forall i :: 0 <= i < |ts| && ts[i].id != id ==> r[i] == ts[i]
    ensures forall i :: 0 <= i < |ts| && ts[i].id == id ==>
              && r[i].title == (if u.title.Some? then u.title.value else ts[i].title)
              && r[i].pomodorosEstimated ==
                 (if u.pomodorosEstimated.Some? then u.pomodorosEstimated.value else ts[i].pomodorosEstimated)
              && r[i].notes == (if u.notes.Some? then u.notes else ts[i].notes)
              && r[i] == ts[i].(title := r[i].title, pomodorosEstimated := r[i].pomodorosEstimated,
                                notes := r[i].notes)
    ensures WellFormed(ts) ==> WellFormed(r)
  {
    MapMatching(ts, id, Merge(u))
  }

  /** `completeTask(id)`: no check that the task is still open. */
  function CompleteTask(ts: seq<Task>, id: TaskId, now: Timestamp): (r: seq<Task>)
    ensures |r| == |ts|
    ensures forall i :: 0 <= i < |ts| && ts[i].id != id ==> r[i] == ts[i]
    ensures forall i :: 0 <= i < |ts| && ts[i].id == id ==>
              r[i] == ts[i].(completed := true, completedAt := Some(now))
    ensures WellFormed(ts) ==> WellFormed(r)
  {
    MapMatching(ts, id, MarkCompleted(now))
  }

  /** `incrementPomodorosCompleted(id)`: no cap at the estimate. */
  function IncrementPomodoros(ts: seq<Task>, id: TaskId): (r: seq<Task>)
    ensures |r| == |ts|
    ensures forall i :: 0 <= i < |ts| && ts[i].id != id ==> r[i] == ts[i]
    ensures forall i :: 0 <= i < |ts| && ts[i].id == id ==>
              r[i] == ts[i].(pomodorosCompleted := ts[i].pomodorosCompleted + 1)
    ensures WellFormed(ts) ==> WellFormed(r)
  {
    MapMatching(ts, id, Increment)
  }

  /** `deleteTask(id)` */
  function DeleteTask(ts: seq<Task>, id: TaskId): (r: seq<Task>)
    ensures forall t :: t in r ==> t in ts && t.id != id
    ensures forall i :: 0 <= i < |ts| && ts[i].id != id ==> ts[i] in r
    ensures !HasId(ts, id) ==> r == ts
  {
    Filter(ts, OtherThan(id))
  }

  /** Deleting keeps a well-formed list well formed. */
  lemma {:induction false} DeletePreservesWellFormed(ts: seq<Task>, id: TaskId)
    requires WellFormed(ts)
    ensures WellFormed(DeleteTask(ts, id))
    decreases |ts|
  {
    if ts != [] {
      var rest := ts[1..];
      assert WellFormed(rest);
      DeletePreservesWellFormed(rest, id);
      var d := DeleteTask(rest, id);
      forall t | t in d ensures t.id != ts[0].id {
        var j :| 0 <= j < |rest| && rest[j] == t;
        assert ts[j + 1] == t;
      }
    }
  }

  /** Deleting removes the tasks with that id and keeps the others in order. */
  lemma DeleteKeepsOrder(a: seq<Task>, b: seq<Task>, id: TaskId)
    ensures DeleteTask(a + b, id) == DeleteTask(a, id) + DeleteTask(b, id)
  {
    FilterConcat(a, b, OtherThan(id));
  }

  // ---------------------------------------------------------------------------
  // Properties of the operations in a well-formed list

  /** With unique ids, an increment changes the one task with that id, by one. */
  lemma IncrementChangesOne(ts: seq<Task>, i: nat)
    requires WellFormed(ts) && i < |ts|
    ensures IncrementPomodoros(ts, ts[i].id)[i].pomodorosCompleted == ts[i].pomodorosCompleted + 1
    ensures forall j :: 0 <= j < |ts| && j != i ==> IncrementPomodoros(ts, ts[i].id)[j] == ts[j]
  {
  }

  /** A new task incremented three times has three pomodoros and is still open. */
  lemma AddThenIncrementThrice(ts: seq<Task>, id: TaskId, now: Timestamp, title: string,
                               estimate: int, notes: Option<string>)
    requires !HasId(ts, id)
    ensures var r := IncrementPomodoros(IncrementPomodoros(IncrementPomodoros(
                       AddTask(ts, id, now, title, estimate, notes), id), id), id);
            r[|ts|].pomodorosCompleted == 3 && !r[|ts|].completed && r[..|ts|] == ts
  {
    var a := AddTask(ts, id, now, title, estimate, notes);
    var r1 := IncrementPomodoros(a, id);
    var r2 := IncrementPomodoros(r1, id);
    var r3 := IncrementPomodoros(r2, id);
    assert r3[..|ts|] == ts;
  }

  /** The completion button of the task list: only an open task is completed. */
  function CompleteFromList(ts: seq<Task>, i: nat, now: Timestamp): (r: seq<Task>)
    requires i < |ts|
    ensures ts[i].completed ==> r == ts
    ensures !ts[i].completed ==> r == CompleteTask(ts, ts[i].id, now)
  {
    if !ts[i].completed then CompleteTask(ts, ts[i].id, now) else ts
  }

  /** Through the list's guard, a completed task keeps its completion time,
      and only the clicked task is completed. */
  lemma CompleteFromListKeepsDone(ts: seq<Task>, i: nat, now: Timestamp)
    requires WellFormed(ts) && i < |ts|
    ensures forall j :: 0 <= j < |ts| && j != i ==> CompleteFromList(ts, i, now)[j] == ts[j]
    ensures CompleteFromList(ts, i, now)[i].completed
    ensures ts[i].completed ==> CompleteFromList(ts, i, now)[i].completedAt == ts[i].completedAt
  {
  }

  /** Called directly, `completeTask` on a done task moves its completion time. */
  lemma CompleteTaskRestamps(t: Task, now: Timestamp)
    requires t.completed && t.completedAt != Some(now)
    ensures CompleteTask([t], t.id, now)[0].completedAt != t.completedAt
  {
  }

  // ---------------------------------------------------------------------------
  // The state cell

  /** The provider's `tasks` cell; every method overwrites it with the
      matching function of the previous list. */
  class TaskStore {
    var tasks: seq<Task>

    ghost predicate Valid()
      reads this
    {
      WellFormed(tasks)
    }

    constructor (saved: Option<seq<Task>>)
      ensures tasks == LoadTasks(saved)
      ensures saved.None? || WellFormed(saved.value) ==> Valid()
    {
      tasks := LoadTasks(saved);
    }

    /** Returns the record it appended. */
    method AddNewTask(id: TaskId, now: Timestamp, title: string, estimate: int,
                      notes: Option<string>) returns (t: Task)
      modifies this
      ensures t == NewTask(id, now, title, estimate, notes)
      ensures tasks == AddTask(old(tasks), id, now, title, estimate, notes)
      ensures old(Valid()) && !HasId(old(tasks), id) ==> Valid()
    {
      t := NewTask(id, now, title, estimate, notes);
      tasks := AddTask(tasks, id, now, title, estimate, notes);
    }

    method Update(id: TaskId, u: TaskUpdate)
      modifies this
      ensures tasks == UpdateTask(old(tasks), id, u)
      ensures old(Valid()) ==> Valid()
    {
      tasks := UpdateTask(tasks, id, u);
    }

    method Delete(id: TaskId)
      modifies this
      ensures tasks == DeleteTask(old(tasks), id)
      ensures old(Valid()) ==> Valid()
    {
      if Valid() {
        DeletePreservesWellFormed(tasks, id);
      }
      tasks := DeleteTask(tasks, id);
    }

    method Complete(id: TaskId, now: Timestamp)
      modifies this
      ensures tasks == CompleteTask(old(tasks), id, now)
      ensures old(Valid()) ==> Valid()
    {
      tasks := CompleteTask(tasks, id, now);
    }

    method IncrementPomodorosCompleted(id: TaskId)
      modifies this
      ensures tasks == IncrementPomodoros(old(tasks), id)
      ensures old(Valid()) ==> Valid()
    {
      tasks := IncrementPomodoros(tasks, id);
    }
  }
}
