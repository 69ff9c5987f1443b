/** The logic inside src/components/Timer/PomodoroTimer.jsx: the mm:ss text,
    the lookup of the selected task, and the start/pause button, which is
    where a task is credited with a pomodoro. */
module TimerView {
  import opened Common
  import Timer
  import Tasks

  // ---------------------------------------------------------------------------
  // Decimal text

  function DigitChar(d: nat): (c: char)
    requires d < 10
    ensures '0' <= c <= '9'
  {
    "0123456789"[d]
  }

  function DigitValue(c: char): nat
  {
    if '0' <= c <= '9' then (c as int - '0' as int) as nat else 0
  }

  predicate AllDigits(s: string)
  {
    forall i :: 0 <= i < |s| ==> '0' <= s[i] <= '9'
  }

  /** The number a string of decimal digits denotes. */
  function DigitsValue(s: string): nat
    decreases |s|
  {
    if s == [] then 0 else 10 * DigitsValue(s[..|s| - 1]) + DigitValue(s[|s| - 1])
  }

  /** `n.toString()` for a non-negative integer. */
  function NatToString(n: nat): (s: string)
    ensures |s| >= 1 && AllDigits(s)
    ensures n < 10 <==> |s| == 1
    decreases n
  {
    if n < 10 then [DigitChar(n)] else NatToString(n / 10) + [DigitChar(n % 10)]
  }

  /** Reading back the decimal text of `n` gives `n`. */
  lemma {:induction false} NatToStringValue(n: nat)
    ensures DigitsValue(NatToString(n)) == n
    decreases n
  {
    var s := NatToString(n);
    if n < 10 {
      assert s[..0] == [];
    } else {
      NatToStringValue(n / 10);
      assert s[..|s| - 1] == NatToString(n / 10);
    }
  }

  /** A leading '0' does not change the value. */
  lemma {:induction false} LeadingZeroValue(s: string)
    ensures DigitsValue("0" + s) == DigitsValue(s)
    decreases |s|
  {
    if s != [] {
      var t := "0" + s;
      assert t[..|t| - 1] == "0" + s[..|s| - 1];
      LeadingZeroValue(s[..|s| - 1]);
    } else {
      assert ("0" + s)[..0] == [];
    }
  }

  /** `i.toString()` for any integer: negative numbers get a minus sign. */
  function IntToString(i: int): (r: string)
    ensures i >= 0 ==> |r| >= 1 && AllDigits(r) && DigitsValue(r) == i
    ensures i < 0 ==> |r| >= 2 && r[0] == '-' && AllDigits(r[1..]) && DigitsValue(r[1..]) == -i
  {
    if i < 0 then
      NatToStringValue(-i);
      assert ("-" + NatToString(-i))[1..] == NatToString(-i);
      "-" + NatToString(-i)
    else
      NatToStringValue(i);
      NatToString(i)
  }

  /** `s.padStart(2, '0')` */
  function PadStart2(s: string): (r: string)
    ensures |r| == if |s| >= 2 then |s| else 2
    ensures |s| >= 2 ==> r == s
    ensures |s| < 2 ==> r[2 - |s|..] == s && forall i :: 0 <= i < 2 - |s| ==> r[i] == '0'
  {
    if |s| == 0 then "00" else if |s| == 1 then "0" + s else s
  }

  /** JavaScript's `%`: the remainder takes the sign of the dividend. */
  function JsRem(a: int, b: int): (r: int)
    requires b > 0
    ensures -b < r < b
    ensures a >= 0 ==> r >= 0
    ensures a < 0 ==> r <= 0
    ensures (a - r) % b == 0
  {
    var n := if a >= 0 then a else -a;
    var q, m := n / b, n % b;
    assert n == b * q + m && 0 <= m < b;
    var r := if a >= 0 then m else -m;
    var k := if a >= 0 then q else -q;
    assert a - r == b * k;
    MultipleRem(b, k);
    r
  }

  /** A multiple of `b` leaves no remainder. */
  lemma MultipleRem(b: int, k: int)
    requires b > 0
    ensures (b * k) % b == 0
  {
    var x := b * k;
    var d := k - x / b;
    assert b * d == x % b;
  }

  /** `Math.floor(timeLeft / 60).toString().padStart(2, '0')`; Dafny's `/`
      by a positive divisor is floor division. */
  function MinutesText(timeLeft: int): (r: string)
    ensures timeLeft >= 0 ==> |r| >= 2 && AllDigits(r) && DigitsValue(r) == timeLeft / 60
  {
    var r := PadStart2(IntToString(timeLeft / 60));
    if timeLeft >= 0 then
      var digits := NatToString(timeLeft / 60);
      NatToStringValue(timeLeft / 60);
      LeadingZeroValue(digits);
      r
    else r
  }

  /** `(timeLeft % 60).toString().padStart(2, '0')` */
  function SecondsText(timeLeft: int): (r: string)
    ensures timeLeft >= 0 ==> |r| == 2 && AllDigits(r) && DigitsValue(r) == timeLeft % 60 < 60
  {
    var r := PadStart2(IntToString(JsRem(timeLeft, 60)));
    if timeLeft >= 0 then
      var digits := NatToString(timeLeft % 60);
      NatToStringValue(timeLeft % 60);
      LeadingZeroValue(digits);
      r
    else r
  }

  /** The two displayed parts give back the remaining time. */
  lemma DisplayRoundTrip(timeLeft: nat)
    ensures DigitsValue(MinutesText(timeLeft)) * 60 + DigitsValue(SecondsText(timeLeft)) == timeLeft
  {
  }

  /** A negative count, which the timer invariant excludes, would show a
      minus sign in both parts. */
  lemma NegativeDisplay()
    ensures MinutesText(-5) == "-1" && SecondsText(-5) == "-5"
  {
    assert NatToString(1) == "1" && NatToString(5) == "5";
  }

  // ---------------------------------------------------------------------------
  // The selected task

  /** `tasks.find(task => task.id === currentTaskId)`; a null id matches no task. */
  function ActiveTask(ts: seq<Tasks.Task>, currentTaskId: Option<TaskId>): (r: Option<Tasks.Task>)
    ensures r.Some? ==> r.value in ts && currentTaskId == Some(r.value.id)
    ensures r.None? <==> currentTaskId.None? || !Tasks.HasId(ts, currentTaskId.value)
    ensures r.Some? ==> exists k :: 0 <= k < |ts| && ts[k] == r.value &&
                          forall j :: 0 <= j < k ==> Some(ts[j].id) != currentTaskId
    decreases |ts|
  {
    if ts == [] then None
    else if Some(ts[0].id) == currentTaskId then Some(ts[0])
    else
      var r := ActiveTask(ts[1..], currentTaskId);
      assert r.Some? ==> forall j :: 1 <= j < |ts| ==> ts[j] == ts[1..][j - 1];
      assert currentTaskId.Some? && Tasks.HasId(ts[1..], currentTaskId.value) ==>
             Tasks.HasId(ts, currentTaskId.value) by {
        if currentTaskId.Some? && Tasks.HasId(ts[1..], currentTaskId.value) {
          var k :| 0 <= k < |ts[1..]| && ts[1..][k].id == currentTaskId.value;
          assert ts[k + 1].id == currentTaskId.value;
        }
      }
      assert currentTaskId.Some? && Tasks.HasId(ts, currentTaskId.value) ==>
             Tasks.HasId(ts[1..], currentTaskId.value) by {
        if currentTaskId.Some? && Tasks.HasId(ts, currentTaskId.value) {
          var k :| 0 <= k < |ts| && ts[k].id == currentTaskId.value;
          assert k != 0;
          assert ts[1..][k - 1].id == currentTaskId.value;
        }
      }
      r
  }

  /** Deleting the selected task leaves its id in the timer but shows no
      task. */
  lemma DeletedTaskNotShown(ts: seq<Tasks.Task>, s: Timer.TimerState)
    requires s.currentTaskId.Some?
    ensures ActiveTask(Tasks.DeleteTask(ts, s.currentTaskId.value), s.currentTaskId).None?
  {
  }

  // ---------------------------------------------------------------------------
  // The start/pause button

  /** `handleStartPause` on the timer state and the task list: pause a
      running timer; otherwise credit the selected task when in focus mode,
      then start. */
  function StartPause(s: Timer.TimerState, ts: seq<Tasks.Task>, now: Timestamp)
    : (r: (Timer.TimerState, seq<Tasks.Task>))
    ensures s.isRunning ==> r == (Timer.Pause(s), ts)
    ensures !s.isRunning ==> r.0 == Timer.Start(s, now)
    ensures !s.isRunning && s.mode == Timer.Pomodoro && IdTruthy(s.currentTaskId) ==>
              r.1 == Tasks.IncrementPomodoros(ts, s.currentTaskId.value)
    ensures s.mode != Timer.Pomodoro || !IdTruthy(s.currentTaskId) ==> r.1 == ts
  {
    if s.isRunning then (Timer.Pause(s), ts)
    else
      var credited := if s.mode == Timer.Pomodoro && IdTruthy(s.currentTaskId)
                      then Tasks.IncrementPomodoros(ts, s.currentTaskId.value) else ts;
      (Timer.Start(s, now), credited)
  }

  /** Starting a focus interval with a task selected adds one pomodoro to
      that task and to no other. */
  lemma StartCreditsSelectedTask(s: Timer.TimerState, ts: seq<Tasks.Task>, now: Timestamp, i: nat)
    requires Tasks.WellFormed(ts) && i < |ts| && ts[i].id != ""
    requires !s.isRunning && s.mode == Timer.Pomodoro && s.currentTaskId == Some(ts[i].id)
    ensures StartPause(s, ts, now).1[i].pomodorosCompleted == ts[i].pomodorosCompleted + 1
    ensures forall j :: 0 <= j < |ts| && j != i ==> StartPause(s, ts, now).1[j] == ts[j]
  {
    Tasks.IncrementChangesOne(ts, i);
  }

  /** The credit is given on every start, so pausing and resuming a focus
      interval credits the task a second time while the timer comes back to
      the very state it had. */
  lemma ResumeCreditsAgain(s: Timer.TimerState, ts: seq<Tasks.Task>, i: nat,
                           t1: Timestamp, t2: Timestamp, t3: Timestamp)
    requires Timer.Inv(s) && Tasks.WellFormed(ts) && i < |ts| && ts[i].id != ""
    requires !s.isRunning && s.mode == Timer.Pomodoro && s.currentTaskId == Some(ts[i].id)
    ensures var first := StartPause(s, ts, t1);
            var paused := StartPause(first.0, first.1, t2);
            var resumed := StartPause(paused.0, paused.1, t3);
            && resumed.0 == first.0
            && resumed.1[i].pomodorosCompleted == ts[i].pomodorosCompleted + 2
  {
    var first := StartPause(s, ts, t1);
    StartCreditsSelectedTask(s, ts, t1, i);
    var paused := StartPause(first.0, first.1, t2);
    Timer.PauseThenStart(first.0, t3);
    assert Tasks.WellFormed(first.1);
    StartCreditsSelectedTask(paused.0, paused.1, t3, i);
  }

  /** `handleStartPause` on the two state cells. */
  method HandleStartPause(timer: Timer.TimerStore, store: Tasks.TaskStore, now: Timestamp)
    modifies timer, store
    ensures (timer.state, store.tasks) == StartPause(old(timer.state), old(store.tasks), now)
  {
    if timer.state.isRunning {
      timer.PauseTimer();
    } else {
      if timer.state.mode == Timer.Pomodoro && IdTruthy(timer.state.currentTaskId) {
        store.IncrementPomodorosCompleted(timer.state.currentTaskId.value);
      }
      timer.StartTimer(now);
    }
  }
}
