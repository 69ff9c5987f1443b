/** The aggregates of src/pages/Stats.jsx, kept in integer seconds. */
module Stats {
  import Common
  import Timer
  import Tasks

  /** `tasks.length`: every task is either open or done. */
  function TotalTasks(ts: seq<Tasks.Task>): (n: nat)
    ensures n == |Tasks.Filter(ts, Tasks.Active)| + |Tasks.Filter(ts, Tasks.Done)|
  {
    Tasks.ActiveDonePartition(ts);
    |ts|
  }

  /** The positions of the done tasks: an independent account of what the
      completed count should be. */
  function DoneIndices(ts: seq<Tasks.Task>): set<nat>
  {
    set i: nat | i < |ts| && ts[i].completed
  }

  /** `tasks.filter(task => task.completed).length` */
  function CompletedTasks(ts: seq<Tasks.Task>): (n: nat)
    ensures n <= TotalTasks(ts)
  {
    |Tasks.Filter(ts, Tasks.Done)|
  }

  /** Adding a task at the end adds its position exactly when it is done. */
  lemma DoneIndicesSnoc(init: seq<Tasks.Task>, last: Tasks.Task)
    ensures |DoneIndices(init + [last])| == |DoneIndices(init)| + (if last.completed then 1 else 0)
  {
    var ts := init + [last];
    var before := DoneIndices(init);
    assert forall i: nat :: i < |init| ==> ts[i] == init[i];
    if last.completed {
      assert DoneIndices(ts) == before + {|init|};
      assert |init| !in before;
    } else {
      assert DoneIndices(ts) == before;
    }
  }

  /** The completed count is the number of tasks marked completed. */
  lemma {:induction false} CompletedTasksCountsDone(ts: seq<Tasks.Task>)
    ensures CompletedTasks(ts) == |DoneIndices(ts)|
    decreases |ts|
  {
    if ts == [] {
      assert DoneIndices(ts) == {};
    } else {
      var init, last := ts[..|ts| - 1], ts[|ts| - 1];
      assert ts == init + [last];
      CompletedTasksCountsDone(init);
      Tasks.FilterConcat(init, [last], Tasks.Done);
      assert |Tasks.Filter([last], Tasks.Done)| == (if last.completed then 1 else 0) by {
        assert [last][1..] == [];
      }
      DoneIndicesSnoc(init, last);
    }
  }

  /** `totalTasks - completedTasks` */
  function ActiveTasks(ts: seq<Tasks.Task>): (n: int)
    ensures n >= 0
    ensures n == |Tasks.Filter(ts, Tasks.Active)|
  {
    Tasks.ActiveDonePartition(ts);
    TotalTasks(ts) - CompletedTasks(ts)
  }

  /** Sum of the durations of the focus entries of the history. */
  function TotalFocusTime(h: seq<Timer.SessionRecord>): (total: int)
    ensures (forall i :: 0 <= i < |h| ==> h[i].duration >= 0) ==> total >= 0
    ensures (forall i :: 0 <= i < |h| ==> h[i].mode != Timer.Pomodoro) ==> total == 0
    decreases |h|
  {
    if h == [] then 0
    else (if h[0].mode == Timer.Pomodoro then h[0].duration else 0) + TotalFocusTime(h[1..])
  }

  /** Sum of the durations of the short- and long-break entries. */
  function TotalBreakTime(h: seq<Timer.SessionRecord>): (total: int)
    ensures (forall i :: 0 <= i < |h| ==> h[i].duration >= 0) ==> total >= 0
    ensures (forall i :: 0 <= i < |h| ==> h[i].mode == Timer.Pomodoro) ==> total == 0
    decreases |h|
  {
    if h == [] then 0
    else (if h[0].mode == Timer.ShortBreak || h[0].mode == Timer.LongBreak then h[0].duration else 0)
         + TotalBreakTime(h[1..])
  }

  /** Sum of all durations of the history. */
  function TotalDuration(h: seq<Timer.SessionRecord>): int
    decreases |h|
  {
    if h == [] then 0 else h[0].duration + TotalDuration(h[1..])
  }

  /** Every entry is in one of the three modes, so focus and break time
      together are all of the logged time. */
  lemma {:induction false} FocusPlusBreak(h: seq<Timer.SessionRecord>)
    ensures TotalFocusTime(h) + TotalBreakTime(h) == TotalDuration(h)
    decreases |h|
  {
    if h != [] {
      FocusPlusBreak(h[1..]);
    }
  }

  /** Appending a record raises exactly the total of its own kind, by its
      duration. */
  lemma {:induction false} AppendSession(h: seq<Timer.SessionRecord>, r: Timer.SessionRecord)
    ensures TotalFocusTime(h + [r]) ==
            TotalFocusTime(h) + (if r.mode == Timer.Pomodoro then r.duration else 0)
    ensures TotalBreakTime(h + [r]) ==
            TotalBreakTime(h) + (if r.mode == Timer.Pomodoro then 0 else r.duration)
    decreases |h|
  {
    if h == [] {
      assert h + [r] == [r];
      assert [r][1..] == [];
    } else {
      assert (h + [r])[0] == h[0] && (h + [r])[1..] == h[1..] + [r];
      AppendSession(h[1..], r);
    }
  }

  /** A logged completion of a focus interval adds the configured focus
      length to the focus total and nothing to the break total. */
  lemma CompletionAddsFocusTime(s: Timer.TimerState, now: Common.Timestamp)
    requires s.mode == Timer.Pomodoro && s.startTime.Some?
    ensures TotalFocusTime(Timer.Complete(s, now).sessionHistory) ==
            TotalFocusTime(s.sessionHistory) + s.durations.pomodoro
    ensures TotalBreakTime(Timer.Complete(s, now).sessionHistory) == TotalBreakTime(s.sessionHistory)
  {
    AppendSession(s.sessionHistory, Timer.CompletionRecord(s, now));
  }
}
