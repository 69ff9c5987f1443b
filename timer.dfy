/** The countdown engine of src/context/TimerContext.jsx: one state record that
    every timer operation replaces as a whole. Each operation is a pure
    transition function on `TimerState`; `TimerStore` holds the single state
    cell and applies them. */
module Timer {
  import opened Common

  datatype Mode = Pomodoro | ShortBreak | LongBreak

  /** Configured interval length of each mode, in seconds. */
  datatype Durations = Durations(pomodoro: int, shortBreak: int, longBreak: int)
  {
    /** `durations[mode]` */
    function Get(m: Mode): (seconds: int)
      ensures seconds == pomodoro || seconds == shortBreak || seconds == longBreak
      ensures ValidDuration(pomodoro) && ValidDuration(shortBreak) && ValidDuration(longBreak) ==>
              ValidDuration(seconds)
    {
      match m
      case Pomodoro => pomodoro
      case ShortBreak => shortBreak
      case LongBreak => longBreak
    }

    /** `{ ...durations, [mode]: seconds }` */
    function Set(m: Mode, seconds: int): (d: Durations)
      ensures d.Get(m) == seconds
      ensures forall other :: other != m ==> d.Get(other) == Get(other)
    {
      match m
      case Pomodoro => this.(pomodoro := seconds)
      case ShortBreak => this.(shortBreak := seconds)
      case LongBreak => this.(longBreak := seconds)
    }
  }

  const DefaultDurations := Durations(25 * 60, 5 * 60, 15 * 60)

  /** One finished interval, as logged in `sessionHistory`. */
  datatype SessionRecord = SessionRecord(
    mode: Mode,
    startTime: Timestamp,
    endTime: Timestamp,
    duration: int,
    taskId: Option<TaskId>)

  datatype TimerState = TimerState(
    mode: Mode,
    isRunning: bool,
    timeLeft: int,
    sessionsCompleted: int,
    durations: Durations,
    startTime: Option<Timestamp>,
    sessionHistory: seq<SessionRecord>,
    currentTaskId: Option<TaskId>)

  /** A duration the settings can produce: whole minutes from 1 to 60. */
  predicate ValidDuration(seconds: int)
  {
    60 <= seconds <= 3600 && seconds % 60 == 0
  }

  predicate ValidDurations(d: Durations)
  {
    forall m :: ValidDuration(d.Get(m))
  }

  /** The invariant every timer operation keeps: the countdown stays within
      the current mode's interval, and a running timer always has a start. */
  predicate Inv(s: TimerState)
  {
    && ValidDurations(s.durations)
    && 1 <= s.timeLeft <= s.durations.Get(s.mode)
    && s.sessionsCompleted >= 0
    && (s.isRunning ==> s.startTime.Some?)
  }

  /** The state with no saved snapshot. */
  const InitialState := TimerState(Pomodoro, false, DefaultDurations.pomodoro, 0,
                                   DefaultDurations, None, [], None)

  lemma InitialStateInv()
    ensures Inv(InitialState)
    ensures InitialState.timeLeft == 1500 && InitialState.sessionHistory == []
  {
  }

  // ---------------------------------------------------------------------------
  // Persistence: the snapshot written on every change and read back at startup

  /** A stored timer snapshot after parsing. `timeLeft` and `durations` may be
      missing (None); the other fields are spread back as they were stored. */
  datatype Snapshot = Snapshot(
    mode: Mode,
    isRunning: bool,
    timeLeft: Option<int>,
    sessionsCompleted: int,
    durations: Option<Durations>,
    startTime: Option<Timestamp>,
    sessionHistory: seq<SessionRecord>,
    currentTaskId: Option<TaskId>)

  /** The snapshot the persistence effect writes for state `s`. */
  function Persist(s: TimerState): (snap: Snapshot)
    ensures snap.timeLeft == Some(s.timeLeft) && snap.durations == Some(s.durations)
    ensures snap.mode == s.mode && snap.sessionHistory == s.sessionHistory
    ensures snap.sessionsCompleted == s.sessionsCompleted && snap.currentTaskId == s.currentTaskId
    ensures snap.isRunning == s.isRunning && snap.startTime == s.startTime
  {
    Snapshot(s.mode, s.isRunning, Some(s.timeLeft), s.sessionsCompleted, Some(s.durations),
             s.startTime, s.sessionHistory, s.currentTaskId)
  }

  /** Startup state: `saved` is None when nothing is stored, the stored text
      does not parse, or it is not an object. */
  function Rehydrate(saved: Option<Snapshot>): (r: TimerState)
    ensures !r.isRunning && r.startTime.None?
    ensures saved.None? ==> r == InitialState
    ensures saved.Some? ==>
      && r.mode == saved.value.mode
      && r.sessionsCompleted == saved.value.sessionsCompleted
      && r.sessionHistory == saved.value.sessionHistory
      && r.currentTaskId == saved.value.currentTaskId
    ensures saved.Some? && (saved.value.timeLeft.None? || saved.value.timeLeft == Some(0)) ==>
      r.timeLeft == 1500
    ensures saved.Some? && saved.value.timeLeft.Some? && saved.value.timeLeft.value != 0 ==>
      r.timeLeft == saved.value.timeLeft.value
    ensures saved.Some? ==>
      r.durations == if saved.value.durations.Some? then saved.value.durations.value else DefaultDurations
  {
    match saved
    case None => InitialState
    case Some(p) =>
      TimerState(
        p.mode,
        false,
        if p.timeLeft.Some? && p.timeLeft.value != 0 then p.timeLeft.value else DefaultDurations.pomodoro,
        p.sessionsCompleted,
        if p.durations.Some? then p.durations.value else DefaultDurations,
        None,
        p.sessionHistory,
        p.currentTaskId)
  }

  /** Reloading what was persisted gives back the same state, stopped and
      with no start time: a reload never resumes a countdown. */
  lemma RehydratePersisted(s: TimerState)
    requires Inv(s)
    ensures Rehydrate(Some(Persist(s))) == s.(isRunning := false, startTime := None)
    ensures Inv(Rehydrate(Some(Persist(s))))
  {
  }

  /** The `timeLeft` fallback ignores the mode: a snapshot without a usable
      `timeLeft` comes back with 1500 seconds left, which keeps the invariant
      exactly when the stored mode's configured duration (or its default) is
      at least 1500; the default break lengths are below it. */
  lemma RehydrateFallbackIgnoresMode(p: Snapshot)
    requires p.timeLeft.None? || p.timeLeft == Some(0)
    ensures Rehydrate(Some(p)).timeLeft == 1500
    ensures var d := if p.durations.Some? then p.durations.value else DefaultDurations;
            Inv(Rehydrate(Some(p))) <==>
              ValidDurations(d) && d.Get(p.mode) >= 1500 && p.sessionsCompleted >= 0
    ensures p.durations.None? && p.mode != Pomodoro ==> !Inv(Rehydrate(Some(p)))
  {
  }

  // ---------------------------------------------------------------------------
  // Mode cycle

  /** The mode after the current interval and the new completed-focus count:
      every fourth focus interval is followed by a long break. */
  function NextMode(m: Mode, sessions: int): (r: (Mode, int))
    ensures m == Pomodoro ==> r.1 == sessions + 1 && r.0 != Pomodoro
    ensures m == Pomodoro ==> (r.0 == LongBreak <==> r.1 % 4 == 0)
    ensures m != Pomodoro ==> r == (Pomodoro, sessions)
  {
    if m == Pomodoro then
      var next := sessions + 1;
      (if next % 4 == 0 then LongBreak else ShortBreak, next)
    else
      (Pomodoro, sessions)
  }

  /** `skipTimer`: abandon the interval and move to the next mode, stopped,
      with a full countdown; history is not touched. */
  function Skip(s: TimerState): (r: TimerState)
    ensures (r.mode, r.sessionsCompleted) == NextMode(s.mode, s.sessionsCompleted)
    ensures r.timeLeft == s.durations.Get(r.mode) && !r.isRunning && r.startTime.None?
    ensures r.durations == s.durations && r.sessionHistory == s.sessionHistory
    ensures r.currentTaskId == s.currentTaskId
    ensures Inv(s) ==> Inv(r)
  {
    var (next, count) := NextMode(s.mode, s.sessionsCompleted);
    s.(isRunning := false, timeLeft := s.durations.Get(next), mode := next,
       sessionsCompleted := count, startTime := None)
  }

  /** The history record a completion at time `now` logs. */
  function CompletionRecord(s: TimerState, now: Timestamp): (rec: SessionRecord)
    requires s.startTime.Some?
    ensures rec.mode == s.mode && rec.startTime == s.startTime.value && rec.endTime == now
    ensures rec.duration == s.durations.Get(s.mode)
    ensures rec.taskId == TruthyId(s.currentTaskId)
  {
    SessionRecord(s.mode, s.startTime.value, now, s.durations.Get(s.mode), TruthyId(s.currentTaskId))
  }

  /** Completion of the interval: log it when it was started, then make the
      same transition as `Skip`. */
  function Complete(s: TimerState, now: Timestamp): (r: TimerState)
    ensures r == Skip(s).(sessionHistory := r.sessionHistory)
    ensures s.startTime.Some? ==> r.sessionHistory == s.sessionHistory + [CompletionRecord(s, now)]
    ensures s.startTime.None? ==> r.sessionHistory == s.sessionHistory
    ensures Inv(s) ==> Inv(r)
  {
    var history := if s.startTime.Some? then s.sessionHistory + [CompletionRecord(s, now)]
                   else s.sessionHistory;
    Skip(s).(sessionHistory := history)
  }

  /** The per-second interval callback. */
  function Tick(s: TimerState, now: Timestamp): (r: TimerState)
    ensures s.timeLeft > 1 ==> r == s.(timeLeft := s.timeLeft - 1)
    ensures s.timeLeft <= 1 ==> r == Complete(s, now)
    ensures s.sessionHistory <= r.sessionHistory
    ensures |r.sessionHistory| <= |s.sessionHistory| + 1
    ensures Inv(s) ==> Inv(r)
  {
    if s.timeLeft <= 1 then Complete(s, now) else s.(timeLeft := s.timeLeft - 1)
  }

  // ---------------------------------------------------------------------------
  // User operations

  /** `startTimer`: run, keeping the start time of an interval that was
      paused. */
  function Start(s: TimerState, now: Timestamp): (r: TimerState)
    ensures r.isRunning
    ensures s.startTime.Some? ==> r.startTime == s.startTime
    ensures s.startTime.None? ==> r.startTime == Some(now)
    ensures r == s.(isRunning := true, startTime := r.startTime)
    ensures Inv(s) ==> Inv(r)
  {
    s.(isRunning := true, startTime := if s.startTime.Some? then s.startTime else Some(now))
  }

  /** `pauseTimer`: stop, keeping the countdown and the start time. */
  function Pause(s: TimerState): (r: TimerState)
    ensures !r.isRunning
    ensures r.timeLeft == s.timeLeft && r.startTime == s.startTime
    ensures r.(isRunning := s.isRunning) == s
    ensures Inv(s) ==> Inv(r)
  {
    s.(isRunning := false)
  }

  /** `resetTimer`: stop and restore the full interval of the current mode. */
  function Reset(s: TimerState): (r: TimerState)
    ensures r.timeLeft == s.durations.Get(s.mode) && !r.isRunning && r.startTime.None?
    ensures r.mode == s.mode && r.sessionHistory == s.sessionHistory
    ensures r.sessionsCompleted == s.sessionsCompleted
    ensures r.durations == s.durations && r.currentTaskId == s.currentTaskId
    ensures Inv(s) ==> Inv(r)
  {
    s.(isRunning := false, timeLeft := s.durations.Get(s.mode), startTime := None)
  }

  /** `Math.max(1, Math.min(60, minutes)) * 60` */
  function DurationFromMinutes(minutes: int): (seconds: int)
    ensures ValidDuration(seconds)
    ensures 1 <= minutes <= 60 ==> seconds == minutes * 60
    ensures minutes < 1 ==> seconds == 60
    ensures minutes > 60 ==> seconds == 3600
  {
    var clamped := if minutes > 60 then 60 else if minutes < 1 then 1 else minutes;
    clamped * 60
  }

  /** `setDuration(mode, minutes)`: store the clamped length for `m` only;
      restart the countdown only when `m` is the current mode; always stop. */
  function ChangeDuration(s: TimerState, m: Mode, minutes: int): (r: TimerState)
    ensures r.durations.Get(m) == DurationFromMinutes(minutes)
    ensures forall other :: other != m ==> r.durations.Get(other) == s.durations.Get(other)
    ensures m == s.mode ==> r.timeLeft == DurationFromMinutes(minutes)
    ensures m != s.mode ==> r.timeLeft == s.timeLeft
    ensures !r.isRunning && r.startTime.None?
    ensures r.mode == s.mode && r.sessionsCompleted == s.sessionsCompleted
    ensures r.sessionHistory == s.sessionHistory && r.currentTaskId == s.currentTaskId
    ensures Inv(s) ==> Inv(r)
  {
    var seconds := DurationFromMinutes(minutes);
    s.(durations := s.durations.Set(m, seconds),
       timeLeft := if m == s.mode then seconds else s.timeLeft,
       isRunning := false,
       startTime := None)
  }

  /** `setMode(mode)` as the context implements it: no running guard. */
  function ChangeMode(s: TimerState, m: Mode): (r: TimerState)
    ensures r.mode == m && r.timeLeft == s.durations.Get(m)
    ensures !r.isRunning && r.startTime.None?
    ensures r.durations == s.durations && r.sessionsCompleted == s.sessionsCompleted
    ensures r.sessionHistory == s.sessionHistory && r.currentTaskId == s.currentTaskId
    ensures Inv(s) ==> Inv(r)
  {
    s.(mode := m, timeLeft := s.durations.Get(m), isRunning := false, startTime := None)
  }

  /** The mode selector's click handler: switch only to a different mode and
      only while stopped. */
  function SelectMode(s: TimerState, m: Mode): (r: TimerState)
    ensures s.isRunning || s.mode == m ==> r == s
    ensures !s.isRunning && s.mode != m ==> r == ChangeMode(s, m)
    ensures Inv(s) ==> Inv(r)
  {
    if s.mode != m && !s.isRunning then ChangeMode(s, m) else s
  }

  /** `setCurrentTaskId(id)`: allowed at any time, running or not. */
  function ChangeCurrentTask(s: TimerState, id: Option<TaskId>): (r: TimerState)
    ensures r.currentTaskId == id
    ensures r.(currentTaskId := s.currentTaskId) == s
    ensures Inv(s) ==> Inv(r)
  {
    s.(currentTaskId := id)
  }

  // ---------------------------------------------------------------------------
  // Properties over several operations

  /** Pausing a running timer and starting it again gives back exactly the
      state it had: no time lost or gained, the original start kept. */
  lemma PauseThenStart(s: TimerState, now: Timestamp)
    requires Inv(s) && s.isRunning
    ensures Start(Pause(s), now) == s
  {
  }

  /** n firings of the interval, one after another, all at clock reading
      `now`; the history only grows at its end, by at most one record a tick. */
  function Ticks(s: TimerState, n: nat, now: Timestamp): (r: TimerState)
    ensures Inv(s) ==> Inv(r)
    ensures s.sessionHistory <= r.sessionHistory
    ensures |r.sessionHistory| <= |s.sessionHistory| + n
  {
    if n == 0 then s else Tick(Ticks(s, n - 1, now), now)
  }

  /** Before the last second, each tick only counts down. */
  lemma {:induction false} CountDown(s: TimerState, n: nat, now: Timestamp)
    requires n < s.timeLeft
    ensures Ticks(s, n, now) == s.(timeLeft := s.timeLeft - n)
  {
    if n > 0 {
      CountDown(s, n - 1, now);
    }
  }

  /** Letting the whole countdown run out is the same as one completion. */
  lemma {:induction false} RunOutCompletes(s: TimerState, now: Timestamp)
    requires s.timeLeft >= 1
    ensures Ticks(s, s.timeLeft as nat, now) == Complete(s, now)
  {
    CountDown(s, s.timeLeft as nat - 1, now);
  }

  /** A fresh timer started at `t0` and ticked 1500 times logs one focus
      session of 1500 seconds and stops in a short break. */
  lemma FirstPomodoroScenario(t0: Timestamp, now: Timestamp)
    ensures Ticks(Start(InitialState, t0), 1500, now).sessionHistory
            == [SessionRecord(Pomodoro, t0, now, 1500, None)]
    ensures Ticks(Start(InitialState, t0), 1500, now).mode == ShortBreak
    ensures !Ticks(Start(InitialState, t0), 1500, now).isRunning
    ensures Ticks(Start(InitialState, t0), 1500, now).sessionsCompleted == 1
  {
    RunOutCompletes(Start(InitialState, t0), now);
  }

  /** n skips one after another. */
  function Skips(s: TimerState, n: nat): TimerState
    decreases n
  {
    if n == 0 then s else Skips(Skip(s), n - 1)
  }

  /** A focus interval and the break after it bring the timer back to focus
      with one more completed session. */
  lemma {:induction false} CycleReturnsToFocus(s: TimerState, k: nat)
    requires s.mode == Pomodoro
    ensures Skips(s, 2 * k).mode == Pomodoro
    ensures Skips(s, 2 * k).sessionsCompleted == s.sessionsCompleted + k
    decreases k
  {
    if k > 0 {
      assert Skips(s, 2 * k) == Skips(Skip(Skip(s)), 2 * (k - 1));
      CycleReturnsToFocus(Skip(Skip(s)), k - 1);
    }
  }

  /** The break after the (k+1)-th focus interval is long exactly when the
      completed count becomes a multiple of four. */
  lemma {:induction false} CycleBreakKind(s: TimerState, k: nat)
    requires s.mode == Pomodoro
    ensures Skips(s, 2 * k + 1).mode ==
            if (s.sessionsCompleted + k + 1) % 4 == 0 then LongBreak else ShortBreak
    decreases k
  {
    if k > 0 {
      assert Skips(s, 2 * k + 1) == Skips(Skip(Skip(s)), 2 * (k - 1) + 1);
      CycleBreakKind(Skip(Skip(s)), k - 1);
    }
  }

  /** From zero completed sessions the four breaks are short, short, short,
      long; completion makes the same transitions as skipping. */
  lemma FourPomodoros(s: TimerState)
    requires s.mode == Pomodoro && s.sessionsCompleted == 0
    ensures Skips(s, 1).mode == ShortBreak
    ensures Skips(s, 3).mode == ShortBreak
    ensures Skips(s, 5).mode == ShortBreak
    ensures Skips(s, 7).mode == LongBreak
    ensures Skips(s, 8).mode == Pomodoro && Skips(s, 8).sessionsCompleted == 4
  {
    CycleBreakKind(s, 0);
    CycleBreakKind(s, 1);
    CycleBreakKind(s, 2);
    CycleBreakKind(s, 3);
    CycleReturnsToFocus(s, 4);
  }

  /** n completions one after another, all at clock reading `now`. */
  function Completions(s: TimerState, n: nat, now: Timestamp): TimerState
    decreases n
  {
    if n == 0 then s else Completions(Complete(s, now), n - 1, now)
  }

  /** Completions depend on the history only through what they append. */
  lemma {:induction false} CompletionsIgnoreHistory(s: TimerState, n: nat, now: Timestamp,
                                                    h: seq<SessionRecord>)
    ensures Completions(s.(sessionHistory := h), n, now).(sessionHistory := []) ==
            Completions(s, n, now).(sessionHistory := [])
    decreases n
  {
    if n > 0 {
      var h' := Complete(s.(sessionHistory := h), now).sessionHistory;
      assert Complete(s.(sessionHistory := h), now) == Complete(s, now).(sessionHistory := h');
      CompletionsIgnoreHistory(Complete(s, now), n - 1, now, h');
    }
  }

  /** Completions make the same transitions as skips and differ from them
      only in the history they log. */
  lemma {:induction false} CompletionsFollowSkips(s: TimerState, n: nat, now: Timestamp)
    ensures Completions(s, n, now).(sessionHistory := []) == Skips(s, n).(sessionHistory := [])
    decreases n
  {
    if n > 0 {
      var h := Complete(s, now).sessionHistory;
      assert Complete(s, now) == Skip(s).(sessionHistory := h);
      CompletionsIgnoreHistory(Skip(s), n - 1, now, h);
      CompletionsFollowSkips(Skip(s), n - 1, now);
    }
  }

  /** The mode cycle as completions drive it: from zero completed sessions
      the four breaks after completed focus intervals are short, short,
      short, long, and the eighth completion returns to focus with four
      sessions. */
  lemma FourCompletions(s: TimerState, now: Timestamp)
    requires s.mode == Pomodoro && s.sessionsCompleted == 0
    ensures Completions(s, 1, now).mode == ShortBreak
    ensures Completions(s, 3, now).mode == ShortBreak
    ensures Completions(s, 5, now).mode == ShortBreak
    ensures Completions(s, 7, now).mode == LongBreak
    ensures Completions(s, 8, now).mode == Pomodoro && Completions(s, 8, now).sessionsCompleted == 4
  {
    FourPomodoros(s);
    CompletionsFollowSkips(s, 1, now);
    CompletionsFollowSkips(s, 3, now);
    CompletionsFollowSkips(s, 5, now);
    CompletionsFollowSkips(s, 7, now);
    CompletionsFollowSkips(s, 8, now);
  }

  /** Every call the context accepts, with its injected clock reading. */
  datatype Intent =
    | DoTick(tickNow: Timestamp)
    | DoStart(startNow: Timestamp)
    | DoPause
    | DoReset
    | DoSkip
    | DoSetDuration(durationMode: Mode, minutes: int)
    | DoSetMode(newMode: Mode)
    | DoSetCurrentTaskId(taskId: Option<TaskId>)

  function Apply(s: TimerState, i: Intent): TimerState
  {
    match i
    case DoTick(now) => Tick(s, now)
    case DoStart(now) => Start(s, now)
    case DoPause => Pause(s)
    case DoReset => Reset(s)
    case DoSkip => Skip(s)
    case DoSetDuration(m, minutes) => ChangeDuration(s, m, minutes)
    case DoSetMode(m) => ChangeMode(s, m)
    case DoSetCurrentTaskId(id) => ChangeCurrentTask(s, id)
  }

  function Run(s: TimerState, intents: seq<Intent>): TimerState
    decreases |intents|
  {
    if intents == [] then s else Run(Apply(s, intents[0]), intents[1..])
  }

  function TickCount(intents: seq<Intent>): nat
  {
    if intents == [] then 0 else (if intents[0].DoTick? then 1 else 0) + TickCount(intents[1..])
  }

  /** Over any sequence of calls the invariant holds, the history only grows
      at its end, and only ticks add to it, one record at most each. */
  lemma {:induction false} RunKeepsInvariant(s: TimerState, intents: seq<Intent>)
    requires Inv(s)
    ensures Inv(Run(s, intents))
    ensures s.sessionHistory <= Run(s, intents).sessionHistory
    ensures |Run(s, intents).sessionHistory| <= |s.sessionHistory| + TickCount(intents)
    decreases |intents|
  {
    if intents != [] {
      RunKeepsInvariant(Apply(s, intents[0]), intents[1..]);
    }
  }

  // ---------------------------------------------------------------------------
  // The state cell

  /** The provider's single state cell; every method replaces it with the
      matching transition of the previous state. */
  class TimerStore {
    var state: TimerState

    ghost predicate Valid()
      reads this
    {
      Inv(state)
    }

    /** The lazy initializer of the state cell. */
    constructor (saved: Option<Snapshot>)
      ensures state == Rehydrate(saved)
      ensures saved.None? ==> Valid()
      ensures forall s :: saved == Some(Persist(s)) && Inv(s) ==> Valid()
    {
      state := Rehydrate(saved);
      forall s | saved == Some(Persist(s)) && Inv(s) ensures Inv(Rehydrate(saved)) {
        RehydratePersisted(s);
      }
    }

    /** One firing of the one-second interval. */
    method OnTick(now: Timestamp)
      modifies this
      ensures state == Tick(old(state), now)
      ensures old(Valid()) ==> Valid()
    {
      state := Tick(state, now);
    }

    method StartTimer(now: Timestamp)
      modifies this
      ensures state == Start(old(state), now)
      ensures old(Valid()) ==> Valid()
    {
      state := Start(state, now);
    }

    method PauseTimer()
      modifies this
      ensures state == Pause(old(state))
      ensures old(Valid()) ==> Valid()
    {
      state := Pause(state);
    }

    method ResetTimer()
      modifies this
      ensures state == Reset(old(state))
      ensures old(Valid()) ==> Valid()
    {
      state := Reset(state);
    }

    method SkipTimer()
      modifies this
      ensures state == Skip(old(state))
      ensures old(Valid()) ==> Valid()
    {
      state := Skip(state);
    }

    method SetDuration(m: Mode, minutes: int)
      modifies this
      ensures state == ChangeDuration(old(state), m, minutes)
      ensures old(Valid()) ==> Valid()
    {
      state := ChangeDuration(state, m, minutes);
    }

    method SetMode(m: Mode)
      modifies this
      ensures state == ChangeMode(old(state), m)
      ensures old(Valid()) ==> Valid()
    {
      state := ChangeMode(state, m);
    }

    method SetCurrentTaskId(id: Option<TaskId>)
      modifies this
      ensures state == ChangeCurrentTask(old(state), id)
      ensures old(Valid()) ==> Valid()
    {
      state := ChangeCurrentTask(state, id);
    }
  }
}
