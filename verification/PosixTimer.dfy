/** The timer object: the fields of the program, changed as the model says. */
module PosixTimers {
  import opened TimerLib

  class PosixTimer {
    const expTimer: nat
    const secExpTimer: nat
    const threshold: nat
    const exponentialBackoff: bool
    var timeRemaining: nat
    var invocationCounter: nat
    var itValue: Timespec
    var itInterval: Timespec
    var expBackOffTime: nat
    var timerState: State
    var posixTimer: Kernel
    ghost var calls: nat

    ghost function Value(): Timer
      reads this
    {
      Timer(expTimer, secExpTimer, threshold, exponentialBackoff, timeRemaining, invocationCounter, itValue, itInterval,
            expBackOffTime, timerState, posixTimer, calls)
    }

    ghost predicate Valid()
      reads this
    {
      TimerOk(Value())
    }

    /** `timer_fill_itimerspec`. */
    static method TimerFillItimerspec(msec: nat) returns (ts: Timespec)
      ensures ts == Filled(msec) && ts.nsec < NANOS && Nanos(ts) == msec * NANOS_PER_MS
    {
      FilledOk(msec);
      ts := ZERO;
      if msec == 0 {
        return;
      }
      var sec := msec / 1000;
      ts := ts.(sec := sec);
      var remainingMsec := msec % 1000;
      ts := ts.(nsec := remainingMsec * 1000000);
    }

    /** `setup_timer`. */
    constructor (expTimer: nat, secExpTimer: nat, threshold: nat, exponentialBackoff: bool)
      requires expTimer < ULONG && secExpTimer < ULONG && threshold < UINT32
      ensures Valid() && Value() == Setup(expTimer, secExpTimer, threshold, exponentialBackoff) && BackOffReady(Value())
    {
      this.expTimer, this.secExpTimer, this.threshold, this.exponentialBackoff := expTimer, secExpTimer, threshold,
          exponentialBackoff;
      timeRemaining, invocationCounter, timerState, expBackOffTime, posixTimer, calls := 0, 0, INIT, 0, Disarmed, 0;
      itValue, itInterval := ZERO, ZERO;
      new;
      itValue := TimerFillItimerspec(expTimer);
      if !exponentialBackoff {
        itInterval := TimerFillItimerspec(secExpTimer);
        expBackOffTime := 0;
      } else {
        expBackOffTime := TimespecToMillisec(itValue);
        itInterval := TimerFillItimerspec(0);
      }
    }

    /** `resurrect_timer`: the kernel must accept the times. */
    method ResurrectTimer(now: nat)
      requires itValue.nsec < NANOS && itInterval.nsec < NANOS
      modifies this`posixTimer
      ensures Value() == Resurrect(old(Value()), now)
    {
      posixTimer := SetTime(now, itValue, itInterval);
    }

    method StartTimer(now: nat)
      requires Valid()
      modifies this
      ensures Valid() && Value() == Start(old(Value()), now)
    {
      ResurrectTimer(now);
      timerState := RUNNING;
    }

    method CancelTimer(now: nat)
      requires Valid()
      modifies this
      ensures Valid() && Value() == Cancel(old(Value()), now)
    {
      if timerState.INIT? || timerState.DELETED? {
        return;
      }
      itValue := TimerFillItimerspec(0);
      itInterval := TimerFillItimerspec(0);
      timeRemaining := 0;
      invocationCounter := 0;
      ResurrectTimer(now);
      timerState := CANCELLED;
    }

    method RescheduleTimer(now: nat, expTi: nat, secExpTi: nat)
      requires Valid() && !timerState.DELETED? && expTi < ULONG && secExpTi < ULONG
      modifies this
      ensures Valid() && Value() == Reschedule(old(Value()), now, expTi, secExpTi)
    {
      var counter := invocationCounter;
      if !timerState.CANCELLED? {
        CancelTimer(now);
      }
      invocationCounter := counter;
      itValue := TimerFillItimerspec(expTi);
      if !exponentialBackoff {
        itInterval := TimerFillItimerspec(secExpTi);
      } else {
        itInterval := TimerFillItimerspec(0);
        expBackOffTime := expTi;
      }
      timeRemaining := 0;
      ResurrectTimer(now);
      timerState := RUNNING;
    }

    method PauseTimer(now: nat)
      requires Valid()
      modifies this
      ensures Valid() && Value() == Pause(old(Value()), now)
    {
      if timerState.PAUSED? {
        return;
      }
      var left := TimerGetTimeRemaining(now);
      timeRemaining := left;
      itValue := TimerFillItimerspec(0);
      itInterval := TimerFillItimerspec(0);
      ResurrectTimer(now);
      timerState := PAUSED;
    }

    /** `timer_get_time_remaining_in_mill_sec`. */
    method TimerGetTimeRemaining(now: nat) returns (msec: nat)
      ensures msec == RemainingMillisec(Value(), now) && msec < ULONG
    {
      if timerState.DELETED? || timerState.CANCELLED? {
        return ULONG - 1;
      }
      var remaining := Remaining(posixTimer, now);
      msec := TimespecToMillisec(remaining);
    }

    /** Both assertions of `resume_timer` are demanded of the caller. */
    method ResumeTimer(now: nat)
      requires Valid() && timerState.PAUSED? && (timeRemaining != 0 || expTimer != 0)
      modifies this
      ensures Valid() && Value() == Resume(old(Value()), now)
    {
      FilledOk(if timeRemaining != 0 then timeRemaining else expTimer);
      if timeRemaining != 0 {
        itValue := TimerFillItimerspec(timeRemaining);
      } else {
        itValue := TimerFillItimerspec(expTimer);
      }
      itInterval := TimerFillItimerspec(secExpTimer);
      if itValue.sec == 0 && itValue.nsec == 0 {
        assert false;
      }
      timeRemaining := 0;
      ResurrectTimer(now);
      timerState := RESUMED;
    }

    method RestartTimer(now: nat)
      requires Valid() && !timerState.DELETED?
      modifies this
      ensures Valid() && Value() == Restart(old(Value()), now)
    {
      CancelTimer(now);
      itValue := TimerFillItimerspec(expTimer);
      if !exponentialBackoff {
        itInterval := TimerFillItimerspec(secExpTimer);
      } else {
        itInterval := TimerFillItimerspec(0);
      }
      invocationCounter := 0;
      timeRemaining := 0;
      expBackOffTime := expTimer;
      ResurrectTimer(now);
      timerState := RUNNING;
    }

    /** `timer_callback_wrapper`: its assertion holds whenever the kernel calls it. */
    method TimerCallbackWrapper(now: nat)
      requires Valid() && !timerState.DELETED?
      requires exponentialBackoff && !ThresholdPassed(Value()) ==> expBackOffTime != 0
      modifies this
      ensures Valid() && Value() == Wrapper(old(Value()), now)
    {
      invocationCounter := (invocationCounter + 1) % UINT32;
      if threshold != 0 && invocationCounter > threshold {
        CancelTimer(now);
        return;
      }
      calls := calls + 1;
      if exponentialBackoff {
        assert expBackOffTime != 0;
        expBackOffTime := expBackOffTime * 2 % ULONG;
        RescheduleTimer(now, expBackOffTime, 0);
      } else if timerState.RESUMED? {
        RescheduleTimer(now, expTimer, secExpTimer);
      }
    }

    /** The kernel's part of an expiration, then the callback. */
    method OnExpiration()
      requires Valid() && !timerState.DELETED? && BackOffReady(Value()) && posixTimer.Armed?
      modifies this
      ensures Valid() && Value() == Expire(old(Value())) && BackOffReady(Value())
    {
      StepReady(Value(), Expiration, posixTimer.due);
      var now := posixTimer.due;
      posixTimer := SetTime(now, posixTimer.interval, posixTimer.interval);
      TimerCallbackWrapper(now);
    }
  }
}
