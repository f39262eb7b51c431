/** The wrapper around POSIX timers: what its calls program into the kernel's timer, and what the
    callback does at each expiration.  The kernel is ideal: it expires a timer exactly when it is
    due, and the callback takes no time. */
module TimerLib {
  const ULONG := 0x1_0000_0000_0000_0000
  const UINT32 := 0x1_0000_0000
  const NANOS := 1_000_000_000
  const NANOS_PER_MS := 1_000_000

  datatype Timespec = Timespec(sec: nat, nsec: nat)

  const ZERO := Timespec(0, 0)

  /** `timespec_to_millisec`, in an unsigned long. */
  function TimespecToMillisec(ts: Timespec): nat {
    (ts.sec * 1000 % ULONG + ts.nsec / NANOS_PER_MS) % ULONG
  }

  function Nanos(ts: Timespec): nat {
    ts.sec * NANOS + ts.nsec
  }

  /** What `timer_fill_itimerspec` writes. */
  function Filled(msec: nat): Timespec {
    Timespec(msec / 1000, msec % 1000 * NANOS_PER_MS)
  }

  /** The kernel accepts the value, it is that many milliseconds, and reading it back is exact. */
  lemma FilledOk(msec: nat)
    ensures Filled(msec).nsec < NANOS && Nanos(Filled(msec)) == msec * NANOS_PER_MS
    ensures msec < ULONG ==> TimespecToMillisec(Filled(msec)) == msec
    ensures Filled(msec) == ZERO <==> msec == 0
  {
    assert msec == msec / 1000 * 1000 + msec % 1000;
    if msec < ULONG {
      assert msec / 1000 * 1000 < ULONG && msec % 1000 * NANOS_PER_MS / NANOS_PER_MS == msec % 1000;
    }
  }

  datatype State = INIT | DELETED | PAUSED | CANCELLED | RESUMED | RUNNING

  /** The kernel's timer; it expires at `due`, on its clock in nanoseconds. */
  datatype Kernel = Disarmed | Armed(due: nat, interval: Timespec)

  /** `calls` counts how often the user's callback ran. */
  datatype Timer = Timer(expTimer: nat, secExpTimer: nat, threshold: nat, exponential: bool,
                         timeRemaining: nat, counter: nat, value: Timespec, interval: Timespec, backOff: nat,
                         state: State, kernel: Kernel, calls: nat)

  /** The C types of the fields, and times that the kernel accepts. */
  predicate TimerOk(t: Timer) {
    && t.expTimer < ULONG && t.secExpTimer < ULONG && t.threshold < UINT32
    && t.timeRemaining < ULONG && t.counter < UINT32 && t.backOff < ULONG
    && t.value.nsec < NANOS && t.interval.nsec < NANOS
    && (t.kernel.Armed? ==> t.kernel.interval.nsec < NANOS)
  }

  /** `timer_settime`. */
  function SetTime(now: nat, value: Timespec, interval: Timespec): Kernel {
    if value == ZERO then Disarmed else Armed(now + Nanos(value), interval)
  }

  function Resurrect(t: Timer, now: nat): Timer {
    t.(kernel := SetTime(now, t.value, t.interval))
  }

  function Setup(expTimer: nat, secExpTimer: nat, threshold: nat, exponential: bool): Timer {
    Timer(expTimer, secExpTimer, threshold, exponential, 0, 0, Filled(expTimer),
          if exponential then Filled(0) else Filled(secExpTimer),
          if exponential then TimespecToMillisec(Filled(expTimer)) else 0, INIT, Disarmed, 0)
  }

  function Start(t: Timer, now: nat): Timer {
    Resurrect(t, now).(state := RUNNING)
  }

  function Cancel(t: Timer, now: nat): Timer {
    if t.state.INIT? || t.state.DELETED? then t
    else Resurrect(t.(value := Filled(0), interval := Filled(0), timeRemaining := 0, counter := 0),
        now).(state := CANCELLED)
  }

  function Reschedule(t: Timer, now: nat, exp: nat, sec: nat): Timer
    requires !t.state.DELETED?
  {
    var t' := if t.state.CANCELLED? then t else Cancel(t, now);
    Resurrect(t'.(counter := t.counter, value := Filled(exp), interval := Filled(if t.exponential then 0 else sec),
                  backOff := if t.exponential then exp else t.backOff, timeRemaining := 0), now).(state := RUNNING)
  }

  /** `timer_gettime`. */
  function Remaining(k: Kernel, now: nat): Timespec {
    if k.Disarmed? || k.due < now then ZERO
    else Timespec((k.due - now) / NANOS, (k.due - now) % NANOS)
  }

  function RemainingMillisec(t: Timer, now: nat): nat {
    if t.state.DELETED? || t.state.CANCELLED? then ULONG - 1 else TimespecToMillisec(Remaining(t.kernel, now))
  }

  function Pause(t: Timer, now: nat): Timer {
    if t.state.PAUSED? then t
    else Resurrect(t.(timeRemaining := RemainingMillisec(t, now), value := Filled(0), interval := Filled(0)),
        now).(state := PAUSED)
  }

  function Resume(t: Timer, now: nat): Timer {
    Resurrect(t.(value := Filled(if t.timeRemaining != 0 then t.timeRemaining else t.expTimer),
        interval := Filled(t.secExpTimer),
                 timeRemaining := 0), now).(state := RESUMED)
  }

  /** `timer_callback_wrapper`, when the user's callback does not touch the timer. */
  function Wrapper(t: Timer, now: nat): Timer
    requires !t.state.DELETED?
  {
    var c := t.(counter := (t.counter + 1) % UINT32);
    if c.threshold != 0 && c.counter > c.threshold then Cancel(c, now)
    else
      var u := c.(calls := c.calls + 1);
      if u.exponential then Reschedule(u.(backOff := u.backOff * 2 % ULONG), now, u.backOff * 2 % ULONG, 0)
      else if u.state.RESUMED? then Reschedule(u, now, u.expTimer, u.secExpTimer)
      else u
  }

  function Restart(t: Timer, now: nat): Timer
    requires !t.state.DELETED?
  {
    Resurrect(Cancel(t, now).(value := Filled(t.expTimer),
                              interval := if t.exponential then Filled(0) else Filled(t.secExpTimer),
                              counter := 0, timeRemaining := 0, backOff := t.expTimer), now).(state := RUNNING)
  }

  /** One expiration: the kernel reloads its timer, then the wrapper runs. */
  function Expire(t: Timer): Timer
    requires t.kernel.Armed? && !t.state.DELETED?
  {
    var now := t.kernel.due;
    Wrapper(t.(kernel := SetTime(now, t.kernel.interval, t.kernel.interval)), now)
  }

  /** The next `n` expirations, as far as there are that many. */
  function Expirations(t: Timer, n: nat): (r: Timer)
    requires !t.state.DELETED?
    ensures !r.state.DELETED?
    decreases n
  {
    if n == 0 then t
    else
      var u := Expirations(t, n - 1);
      if u.kernel.Armed? then Expire(u) else u
  }

  // ---- the assertion in the callback

  datatype Call =
    | StartTimer | CancelTimer | PauseTimer | ResumeTimer | RestartTimer
    | RescheduleTimer(exp: nat, sec: nat) | Expiration

  datatype Outcome = Failed | Done(timer: Timer)

  /** One call, or one expiration; an assertion of the library that does not hold fails it. */
  function Step(t: Timer, call: Call, now: nat): (r: Outcome)
    requires !t.state.DELETED?
    ensures r.Done? ==> !r.timer.state.DELETED?
  {
    match call
    case StartTimer => Done(Start(t, now))
    case CancelTimer => Done(Cancel(t, now))
    case PauseTimer => Done(Pause(t, now))
    case ResumeTimer =>
      if !t.state.PAUSED? || (t.timeRemaining == 0 && t.expTimer == 0) then Failed else Done(Resume(t, now))
    case RestartTimer => Done(Restart(t, now))
    case RescheduleTimer(exp, sec) => Done(Reschedule(t, now, exp, sec))
    case Expiration =>
      if t.kernel.Disarmed? then Done(t)
      else if t.exponential && t.backOff == 0
          && (t.threshold == 0 || (t.counter + 1) % UINT32 <= t.threshold) then Failed
      else Done(Expire(t))
  }

  /** What is programmed, or armed, has a back-off time to go with it. */
  predicate BackOffReady(t: Timer) {
    t.exponential && (t.value != ZERO || t.kernel.Armed?) ==> t.backOff != 0
  }

  predicate CallOk(call: Call) {
    call.RescheduleTimer? ==> call.exp < ULONG && call.sec < ULONG
  }

  /** Resuming is the one call that can arm a timer whose back-off time has wrapped around to zero;
      after every other call the assertion in the callback is safe. */
  lemma StepReady(t: Timer, call: Call, now: nat)
    requires TimerOk(t) && !t.state.DELETED? && BackOffReady(t) && CallOk(call)
    ensures call.Expiration? ==> Step(t, call, now).Done?
    ensures var r := Step(t, call, now);
            r.Done? ==>
              && TimerOk(r.timer)
              && (BackOffReady(r.timer) <==> !(call.ResumeTimer? && t.exponential && t.backOff == 0))
  {
    hide Filled;
    FilledOk(0);
    FilledOk(t.expTimer);
    FilledOk(t.secExpTimer);
    FilledOk(t.timeRemaining);
    FilledOk(t.backOff * 2 % ULONG);
    if call.RescheduleTimer? {
      FilledOk(call.exp);
      FilledOk(call.sec);
    }
  }

  function Calls(t: Timer, calls: seq<(Call, nat)>): Outcome
    requires !t.state.DELETED?
    decreases |calls|
  {
    if calls == [] then Done(t)
    else
      var r := Step(t, calls[0].0, calls[0].1);
      if r.Failed? then Failed else Calls(r.timer, calls[1..])
  }

  /** A resume that the library's assertions allow, of a timer whose back-off time has not wrapped
      around to zero. */
  predicate GoodResume(t: Timer) {
    t.state.PAUSED? && (t.timeRemaining != 0 || t.expTimer != 0) && (t.exponential ==> t.backOff != 0)
  }

  /** Every resume of the run is a good one when its turn comes. */
  predicate GoodCalls(t: Timer, calls: seq<(Call, nat)>)
    requires !t.state.DELETED?
    decreases |calls|
  {
    calls == [] ||
    (&& CallOk(calls[0].0) && (calls[0].0.ResumeTimer? ==> GoodResume(t))
     && var r := Step(t, calls[0].0, calls[0].1); (r.Done? ==> GoodCalls(r.timer, calls[1..])))
  }

  /** In no run of calls and expirations in which the resumes are good ones does any assertion fail,
      and every time programmed is one that the kernel accepts. */
  lemma {:induction false} RunsAreSafe(t: Timer, calls: seq<(Call, nat)>)
    requires TimerOk(t) && !t.state.DELETED? && BackOffReady(t) && GoodCalls(t, calls)
    ensures var r := Calls(t, calls); r.Done? && TimerOk(r.timer) && BackOffReady(r.timer)
    decreases |calls|
  {
    hide TimerOk, BackOffReady, Expire;
    if calls != [] {
      StepReady(t, calls[0].0, calls[0].1);
      RunsAreSafe(Step(t, calls[0].0, calls[0].1).timer, calls[1..]);
    }
  }

  /** The next expiration finds the threshold passed, and cancels the timer before the assertion. */
  predicate ThresholdPassed(t: Timer) {
    t.threshold != 0 && (t.counter + 1) % UINT32 > t.threshold
  }

  /** The other resumes are not safe: one that is not allowed fails at once, and after one with the
      back-off time at zero the next expiration fails, exactly unless the threshold is passed. */
  lemma BadResumeFails(t: Timer, now: nat, later: nat)
    requires TimerOk(t) && !t.state.DELETED? && !GoodResume(t)
    ensures !t.state.PAUSED? || (t.timeRemaining == 0 && t.expTimer == 0) ==> Step(t, ResumeTimer, now).Failed?
    ensures t.state.PAUSED? && (t.timeRemaining != 0 || t.expTimer != 0) ==>
              && Step(t, ResumeTimer, now).Done?
              && (Step(Step(t, ResumeTimer, now).timer, Expiration, later).Failed? <==> !ThresholdPassed(t))
  {
    hide Filled;
    FilledOk(t.timeRemaining);
    FilledOk(t.expTimer);
  }

  /** With a resume it can fail: the first expiration doubles 2^63 milliseconds to zero, and the
      timer that is then paused and resumed runs into the callback's assertion. */
  lemma ResumeAfterOverflowFails(now: nat)
    ensures Calls(Setup(ULONG / 2, 0, 0, true),
        [(StartTimer, now), (Expiration, now), (PauseTimer, now), (ResumeTimer, now), (Expiration, now)]).Failed?
  {
    hide Filled;
    FilledOk(ULONG / 2);
    FilledOk(0);
    var t := Setup(ULONG / 2, 0, 0, true);
    var t1 := Start(t, now);
    assert t1.backOff == ULONG / 2 && t1.kernel.Armed?;
    var t2 := Expire(t1);
    assert t2.backOff == 0 && t2.kernel.Disarmed? && t2.counter == 1;
    var t3 := Pause(t2, now);
    assert t3.timeRemaining == 0 && t3.state.PAUSED?;
    var t4 := Resume(t3, now);
    assert t4.kernel.Armed? && t4.backOff == 0 && Step(t4, Expiration, now).Failed?;
    var c1, c2, c3, c4, c5 := (StartTimer, now), (Expiration, now), (PauseTimer, now), (ResumeTimer, now),
        (Expiration, now);
    assert [c1, c2, c3, c4, c5][1..] == [c2, c3, c4, c5] && [c2, c3, c4, c5][1..] == [c3, c4, c5];
    assert [c3, c4, c5][1..] == [c4, c5] && [c4, c5][1..] == [c5];
    assert Calls(t4, [c5]).Failed?;
    assert Calls(t2, [c3, c4, c5]) == Calls(t3, [c4, c5]) == Calls(t4, [c5]);
  }
}
