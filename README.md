# Pomodoro timer and task tracker — a Dafny model

This project models the core of a single-user, browser-only Pomodoro
application:

- the **timer state machine** (`src/context/TimerContext.jsx`): one state
  record holding the mode (pomodoro, short break, long break), whether it is
  running, the seconds left, the number of completed focus sessions, the
  configured durations, the start time of the current interval, the
  append-only session history and the selected task id. Every operation
  replaces the record as a whole (`setState(prev => …)`);
- the **task store** (`src/context/TaskContext.jsx`): an ordered list of task
  records that every operation replaces by a `map` or a `filter` of the old
  list;
- the **statistics page** (`src/pages/Stats.jsx`): task counts and the focus
  and break totals of the history;
- the logic of the **timer view** (`src/components/Timer/PomodoroTimer.jsx`):
  the `mm:ss` text, the lookup of the selected task and the start/pause
  button, which is where a task is credited with a pomodoro.

Files and modules:

| file | module | models |
|---|---|---|
| `common.dfy` | `Common` | `Option`, timestamps, task ids, JavaScript truthiness of an id |
| `timer.dfy` | `Timer` | `TimerState`, its transition functions, the class `TimerStore` holding the state cell |
| `tasks.dfy` | `Tasks` | `Task`, the list operations, the class `TaskStore` holding the `tasks` cell |
| `stats.dfy` | `Stats` | the counts and totals, in integer seconds |
| `timer_view.dfy` | `TimerView` | decimal text and padding, `activeTask`, `handleStartPause` |

How the JavaScript is rendered:

- Each state updater is a pure function on the record (`Timer.Tick`,
  `Timer.Start`, …, `Tasks.AddTask`, `Tasks.MapMatching`, …). The two state
  cells are classes (`Timer.TimerStore`, `Tasks.TaskStore`) with one field
  each, whose methods assign the updater's result; each method's `ensures`
  says which function of the old state the new state is and that the store
  invariant is kept.
- The timer invariant `Timer.Inv` is: every duration is a whole number of
  minutes from 1 to 60, `1 <= timeLeft <= durations[mode]`, the session count
  is not negative, and a running timer has a start time. Every operation
  preserves it (each function's `ensures Inv(s) ==> Inv(r)`, and
  `Timer.RunKeepsInvariant` for any sequence of calls).
- `Date.now()` and `uuidv4()` are parameters. Timestamps are positive, so
  "set" and "truthy" coincide for them; for task ids, the empty string is
  falsy in JavaScript, and `Common.IdTruthy` models that.
- The per-second interval is not modelled as scheduling: `TimerStore.OnTick`
  is one firing of it, and `Timer.Ticks` is n firings.
- Rehydration is a function of an already parsed, optional snapshot
  (`None` = nothing stored, parse failure, or not an object).

Behaviour that follows the code rather than the written design:

- `setMode` in the context has no "not running" guard; the guard, and the
  "different mode" check, live in the mode selector
  (`src/components/Timer/TimerModeSelector.jsx:13-17`), modelled as
  `Timer.SelectMode` over `Timer.ChangeMode`.
- `setDuration` stops the timer and clears the start time even when it
  changes the duration of a mode that is not the current one.
- `completeTask` has no "already completed" check; called on a done task it
  moves the completion time (`Tasks.CompleteTaskRestamps`). The only caller
  guards it (`src/components/Tasks/TasksList.jsx:162`), modelled as
  `Tasks.CompleteFromList`.
- A task's `pomodorosCompleted` grows on every start or resume of a focus
  interval with a task selected, not when an interval completes
  (`TimerView.ResumeCreditsAgain`).
- `updateTask` merges whatever it is given; an edited title is not checked
  for being empty (the non-empty check exists only when adding a task, in
  `src/components/Tasks/AddTaskForm.jsx:15-19`), so the task invariant
  `Tasks.WellFormed` does not include a non-empty title.
- The `timeLeft || 1500` fallback on rehydration ignores the mode: a stored
  snapshot whose `timeLeft` is missing or zero comes back with 1500 seconds
  left, which breaks the timer invariant whenever the stored mode's
  configured duration (or its default, when durations are missing too) is
  below 1500 seconds. This is always the case for the default break lengths,
  and can also happen in focus mode with a shorter configured pomodoro
  (`Timer.RehydrateFallbackIgnoresMode`). A snapshot the application itself
  wrote never has this shape (`Timer.RehydratePersisted`).

## Model

| member | source | states |
|---|---|---|
| `Common.TruthyId` | src/context/TimerContext.jsx:63 | the task id logged with a session: present exactly when the id is truthy, and then unchanged |
| `Timer.Durations.Set` | src/context/TimerContext.jsx:168-171 | storing a duration for one mode changes that mode's entry only |
| `Timer.InitialStateInv` | src/context/TimerContext.jsx:31-40 | the default state is pomodoro, 1500 seconds, empty history, and satisfies the timer invariant |
| `Timer.Durations.Get` | src/context/TimerContext.jsx:62 | `durations[mode]` is one of the three configured lengths, and a whole number of minutes from 1 to 60 when all three are |
| `Timer.Persist` | src/context/TimerContext.jsx:43-45 | the written snapshot carries every field of the state: mode, running flag, time left, count, durations, start time, history and selected task |
| `Timer.Rehydrate` | src/context/TimerContext.jsx:12-41 | a loaded state is never running and has no start time; no snapshot gives the default state; a missing or zero time left becomes 1500; missing durations become the defaults; other fields come from the snapshot |
| `Timer.RehydratePersisted` | src/context/TimerContext.jsx:12-45 | reloading a persisted valid state gives the same state with `isRunning=false` and `startTime=null`, and it satisfies the invariant |
| `Timer.RehydrateFallbackIgnoresMode` | src/context/TimerContext.jsx:21 | a snapshot with a missing or zero `timeLeft` comes back with 1500 seconds left; the result keeps the invariant exactly when the durations are valid, the stored mode's duration (stored or default) is at least 1500 and the count is not negative; a break-mode snapshot without durations always breaks it |
| `Timer.NextMode` | src/context/TimerContext.jsx:77-85 | from pomodoro the count goes up by one and the next mode is a long break iff the new count is a multiple of 4, else a short break; from a break the next mode is pomodoro and the count is unchanged |
| `Timer.Skip` | src/context/TimerContext.jsx:141-162 | skip makes the next-mode transition, stops, clears the start time, restarts the countdown from the new mode's duration, leaves history unchanged and keeps the invariant |
| `Timer.CompletionRecord` | src/context/TimerContext.jsx:57-65 | the logged record has the current mode, the start time, end time `now`, the configured duration of the mode and the truthy task id |
| `Timer.Complete` | src/context/TimerContext.jsx:53-95 | completion is the skip transition plus exactly one appended record when a start time is set, and none otherwise; keeps the invariant |
| `Timer.Tick` | src/context/TimerContext.jsx:52-102 | with more than one second left a tick only decrements `timeLeft` by one; otherwise it completes; history only grows at its end, by at most one; keeps the invariant |
| `Timer.Start` | src/context/TimerContext.jsx:117-123 | start runs the timer, keeps an existing start time or takes `now`, and changes nothing else |
| `Timer.Pause` | src/context/TimerContext.jsx:125-130 | pause only clears `isRunning` |
| `Timer.Reset` | src/context/TimerContext.jsx:132-139 | reset sets the full duration of the current mode, stops, clears the start time, and keeps history, count, mode and durations |
| `Timer.DurationFromMinutes` | src/context/TimerContext.jsx:165 | the stored length is the minutes clamped to 1..60, times 60 |
| `Timer.ChangeDuration` | src/context/TimerContext.jsx:164-185 | setDuration stores the clamped length for that mode only, changes `timeLeft` only when that mode is current, always stops and clears the start time, keeps the invariant |
| `Timer.ChangeMode` | src/context/TimerContext.jsx:187-195 | setMode switches mode with a full countdown, stopped and with no start time, with no running guard |
| `Timer.SelectMode` | src/components/Timer/TimerModeSelector.jsx:13-17 | the selector leaves a running timer, or a click on the current mode, unchanged; otherwise it calls setMode |
| `Timer.ChangeCurrentTask` | src/context/TimerContext.jsx:197-202 | setCurrentTaskId changes only the selected id, running or not |
| `Timer.PauseThenStart` | src/context/TimerContext.jsx:117-130 | pausing a running timer and starting it again gives back exactly the same state: same time left, same start time |
| `Timer.Ticks` | src/context/TimerContext.jsx:51-103 | n firings of the interval keep the invariant, only extend the history at its end, and add at most n records |
| `Timer.CountDown` | src/context/TimerContext.jsx:98-101 | n ticks before the last second decrease `timeLeft` by exactly n and change nothing else |
| `Timer.RunOutCompletes` | src/context/TimerContext.jsx:53-101 | running the whole countdown is the same as one completion |
| `Timer.FirstPomodoroScenario` | src/context/TimerContext.jsx:31-101 | a fresh timer started and ticked 1500 times logs one 1500-second focus session and stops in a short break with one completed session |
| `Timer.CycleReturnsToFocus` | src/context/TimerContext.jsx:143-151 | after k focus/break pairs the timer is back in focus with k more completed sessions |
| `Timer.CycleBreakKind` | src/context/TimerContext.jsx:143-151 | the break after a focus interval is long exactly when the new completed count is a multiple of 4 |
| `Timer.FourPomodoros` | src/context/TimerContext.jsx:77-85 | from zero sessions the four breaks are short, short, short, long |
| `Timer.CompletionsIgnoreHistory` | src/context/TimerContext.jsx:53-95 | a run of completions reaches the same mode, count, countdown and flags whatever history it starts from |
| `Timer.CompletionsFollowSkips` | src/context/TimerContext.jsx:77-95 | n completions make the same mode, count and countdown transitions as n skips; only the history differs |
| `Timer.FourCompletions` | src/context/TimerContext.jsx:77-85 | from zero sessions the breaks after four completed focus intervals are short, short, short, long, and eight completions return to focus with four sessions |
| `Timer.RunKeepsInvariant` | src/context/TimerContext.jsx:52-202 | over any sequence of the context's calls the invariant holds, history is only extended at its end, and only ticks add records, one at most each |
| `Timer.TimerStore.constructor` | src/context/TimerContext.jsx:12-41 | the state cell starts as the rehydrated snapshot, valid when nothing is stored or when the snapshot is one the application persisted from a valid state |
| `Timer.TimerStore.OnTick` | src/context/TimerContext.jsx:51-103 | one interval firing replaces the state by its tick |
| `Timer.TimerStore.StartTimer` | src/context/TimerContext.jsx:117-123 | the state becomes its start transition |
| `Timer.TimerStore.PauseTimer` | src/context/TimerContext.jsx:125-130 | the state becomes its pause transition |
| `Timer.TimerStore.ResetTimer` | src/context/TimerContext.jsx:132-139 | the state becomes its reset transition |
| `Timer.TimerStore.SkipTimer` | src/context/TimerContext.jsx:141-162 | the state becomes its skip transition |
| `Timer.TimerStore.SetDuration` | src/context/TimerContext.jsx:164-185 | the state becomes its setDuration transition |
| `Timer.TimerStore.SetMode` | src/context/TimerContext.jsx:187-195 | the state becomes its setMode transition |
| `Timer.TimerStore.SetCurrentTaskId` | src/context/TimerContext.jsx:197-202 | the state becomes its setCurrentTaskId transition |
| `Tasks.LoadTasks` | src/context/TaskContext.jsx:7-18 | nothing stored or a parse failure gives the empty list; otherwise the stored list |
| `Tasks.Filter` | src/context/TaskContext.jsx:71-84 | a filter keeps exactly the tasks that meet the criterion, drawn from the list, with no task more often than in the list (a sub-multiset) |
| `Tasks.FilterConcat` | src/context/TaskContext.jsx:47-49 | filtering distributes over concatenation, so relative order is kept |
| `Tasks.ActiveDonePartition` | src/context/TaskContext.jsx:74-77 | the active and the completed tasks together are the whole list, as a multiset and in number |
| `Tasks.FilteredTasks` | src/context/TaskContext.jsx:71-84 | 'active' gives exactly the open tasks, 'completed' exactly the done ones, anything else the whole list |
| `Tasks.FilteredViewsPartition` | src/context/TaskContext.jsx:71-84 | the 'active' and 'completed' views together hold every task of the 'all' view once |
| `Tasks.NewTask` | src/context/TaskContext.jsx:25-33 | a new task has the given id, title, estimate and notes, is open, has no completion time and zero pomodoros |
| `Tasks.AddTask` | src/context/TaskContext.jsx:24-37 | addTask appends exactly one new task at the end and leaves the earlier tasks unchanged; with a fresh id the list stays well formed |
| `Tasks.Changed` | src/context/TaskContext.jsx:39-69 | a merge overwrites only the given title, estimate and notes; completion sets `completed` and `completedAt`; increment adds one to the counter; none touches id or creation time |
| `Tasks.MapMatching` | src/context/TaskContext.jsx:39-69 | update, complete and increment keep length, order and ids, change exactly the tasks with the given id, are no-ops when the id is absent, and keep the list well formed |
| `Tasks.UpdateTask` | src/context/TaskContext.jsx:39-45 | updateTask keeps the length, leaves tasks with another id unchanged, and on the task with that id replaces exactly the given title, estimate and notes; keeps the list well formed |
| `Tasks.CompleteTask` | src/context/TaskContext.jsx:51-59 | completeTask keeps the length, leaves tasks with another id unchanged, and marks the task with that id completed at `now`, changing nothing else of it; keeps the list well formed |
| `Tasks.IncrementPomodoros` | src/context/TaskContext.jsx:61-69 | the increment keeps the length, leaves tasks with another id unchanged, and adds one to the counter of the task with that id, changing nothing else of it; keeps the list well formed |
| `Tasks.DeleteTask` | src/context/TaskContext.jsx:47-49 | delete keeps exactly the tasks with another id and is a no-op when the id is absent |
| `Tasks.DeletePreservesWellFormed` | src/context/TaskContext.jsx:47-49 | deleting keeps ids unique and the completion fields consistent |
| `Tasks.DeleteKeepsOrder` | src/context/TaskContext.jsx:47-49 | deletion distributes over concatenation, so the remaining tasks keep their relative order |
| `Tasks.IncrementChangesOne` | src/context/TaskContext.jsx:61-69 | with unique ids an increment adds exactly one to that task's counter, with no cap, and leaves every other task unchanged |
| `Tasks.AddThenIncrementThrice` | src/context/TaskContext.jsx:24-69 | a task added and incremented three times has three pomodoros and is still open |
| `Tasks.CompleteFromList` | src/components/Tasks/TasksList.jsx:160-165 | the list's completion button changes nothing for a done task and calls completeTask for an open one |
| `Tasks.CompleteFromListKeepsDone` | src/components/Tasks/TasksList.jsx:160-165 | through the guard only the clicked task changes, it ends completed, and an already completed task keeps its completion time |
| `Tasks.CompleteTaskRestamps` | src/context/TaskContext.jsx:51-59 | completeTask itself has no guard: on a done task it replaces the completion time |
| `Tasks.TaskStore.constructor` | src/context/TaskContext.jsx:7-18 | the list cell starts as the loaded list, well formed when nothing is stored or the stored list is well formed |
| `Tasks.TaskStore.AddNewTask` | src/context/TaskContext.jsx:24-37 | the list becomes addTask's result and the new record is returned |
| `Tasks.TaskStore.Update` | src/context/TaskContext.jsx:39-45 | the list becomes updateTask's result, well formed if it was |
| `Tasks.TaskStore.Delete` | src/context/TaskContext.jsx:47-49 | the list becomes deleteTask's result, well formed if it was |
| `Tasks.TaskStore.Complete` | src/context/TaskContext.jsx:51-59 | the list becomes completeTask's result, well formed if it was |
| `Tasks.TaskStore.IncrementPomodorosCompleted` | src/context/TaskContext.jsx:61-69 | the list becomes the increment's result, well formed if it was |
| `Stats.TotalTasks` | src/pages/Stats.jsx:11 | the total is the number of open tasks plus the number of done tasks |
| `Stats.CompletedTasks` | src/pages/Stats.jsx:12 | the completed count never exceeds the total |
| `Stats.CompletedTasksCountsDone` | src/pages/Stats.jsx:11-12 | the completed count equals the number of positions holding a completed task |
| `Stats.ActiveTasks` | src/pages/Stats.jsx:11-13 | total minus completed is not negative and equals the number of open tasks |
| `Stats.TotalFocusTime` | src/pages/Stats.jsx:15-17 | the focus total is not negative when durations are not, and is zero when no entry is a pomodoro |
| `Stats.TotalBreakTime` | src/pages/Stats.jsx:19-21 | the break total is not negative when durations are not, and is zero when every entry is a pomodoro |
| `Stats.FocusPlusBreak` | src/pages/Stats.jsx:15-21 | focus time plus break time is the sum of all logged durations |
| `Stats.AppendSession` | src/pages/Stats.jsx:15-21 | appending one record raises exactly the total of its kind by its duration and leaves the other total unchanged |
| `Stats.CompletionAddsFocusTime` | src/pages/Stats.jsx:15-17 | a logged focus completion adds the configured focus length to the focus total and nothing to the break total |
| `TimerView.NatToString` | src/components/Timer/PomodoroTimer.jsx:28-29 | decimal text is a non-empty string of digits, one digit exactly below 10 |
| `TimerView.NatToStringValue` | src/components/Timer/PomodoroTimer.jsx:28-29 | reading the decimal text back gives the number |
| `TimerView.LeadingZeroValue` | src/components/Timer/PomodoroTimer.jsx:28-29 | a leading '0' added by padding does not change the value |
| `TimerView.IntToString` | src/components/Timer/PomodoroTimer.jsx:28-29 | `toString` of a non-negative integer is digits denoting it; of a negative one, a minus sign followed by digits denoting its magnitude |
| `TimerView.JsRem` | src/components/Timer/PomodoroTimer.jsx:29 | JavaScript's `%`: the remainder is smaller than the divisor in magnitude, has the sign of the dividend, and differs from it by a multiple of the divisor |
| `TimerView.PadStart2` | src/components/Timer/PomodoroTimer.jsx:28-29 | padding gives at least two characters, the original text at the end and '0's before it |
| `TimerView.MinutesText` | src/components/Timer/PomodoroTimer.jsx:28 | for a non-negative time the minutes text has at least two digits and denotes `floor(timeLeft/60)` |
| `TimerView.SecondsText` | src/components/Timer/PomodoroTimer.jsx:29 | for a non-negative time the seconds text has exactly two digits and denotes `timeLeft % 60`, below 60 |
| `TimerView.DisplayRoundTrip` | src/components/Timer/PomodoroTimer.jsx:28-29 | minutes times 60 plus seconds, as displayed, is the time left |
| `TimerView.NegativeDisplay` | src/components/Timer/PomodoroTimer.jsx:28-29 | with JavaScript's floor and remainder a negative time would show `-1:-5` for -5 |
| `TimerView.ActiveTask` | src/components/Timer/PomodoroTimer.jsx:26 | the shown task is the first task with the selected id; none when no id is selected or no task has it |
| `TimerView.DeletedTaskNotShown` | src/components/Timer/PomodoroTimer.jsx:26 | after deleting the selected task no task is shown for the id the timer still holds |
| `TimerView.StartPause` | src/components/Timer/PomodoroTimer.jsx:88-97 | while running the button only pauses; otherwise it starts, first crediting the selected task in pomodoro mode and changing no task in a break or with no task selected |
| `TimerView.StartCreditsSelectedTask` | src/components/Timer/PomodoroTimer.jsx:91-95 | a start in pomodoro mode adds one to the selected task's counter and to no other task |
| `TimerView.ResumeCreditsAgain` | src/components/Timer/PomodoroTimer.jsx:88-97 | start, pause, start credits the task twice while the timer returns to the state of the first start |
| `TimerView.HandleStartPause` | src/components/Timer/PomodoroTimer.jsx:88-97 | the two cells become the button's pure effect on the old timer state and task list |

## Left out

- Interval scheduling (`setInterval`, `clearInterval` and the effect keyed on
  `isRunning`): timing and single scheduling are not modelled; a tick is an
  explicit call, and the model does not require the timer to be running
  when it is called, as the updater does not check it.
- localStorage and JSON text: stored values enter as parsed snapshots
  (`Timer.Snapshot`, `Option<seq<Task>>`); the write effect is the pure
  `Timer.Persist` for the timer, and nothing for the task list, which is
  stored as it is.
- The completion sound, the browser notification and the permission
  request: foreign fire-and-forget calls with no effect on state.
- `Date.now()` and `uuidv4()`: parameters; the model assumes, where a
  property needs it, that a new id is not already in the list.
- The progress ring, which uses floating point and hard-coded default
  durations, and the division by 60 and rounding on the statistics page:
  the totals are kept in integer seconds.
- The time-edit controls of the timer view, which change no state.
- Dynamic typing: modes are a three-valued datatype, so a history entry with
  any other mode string, a `setDuration` key outside the three modes, and
  non-integer or NaN minutes cannot be expressed; snapshot fields other than
  `timeLeft` and `durations` are assumed present.
- The update argument of `updateTask` carries only the title, estimate and notes that the edit
  form passes; the source's spread would also overwrite any other field.
- The title trimming and non-empty check of the add-task form and the 1..60
  check of the settings form: caller-side checks, not modelled as members;
  the clamp in `Timer.DurationFromMinutes` covers the latter.
- Presentational files (navigation bar, pages, layout, styling) and the task
  selector, whose logic is the same filter and find as modelled here.
