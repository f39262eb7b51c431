/** When the timers expire and how often they call back: exponential back-off, thresholds, periodic
    timers, pauses. */
module TimerLibLaws {
  import opened Arithmetic
  import opened TimerLib

  // ---- exponential back-off

  function Exp2(n: nat): (r: nat)
    ensures r >= 1
  {
    if n == 0 then 1 else 2 * Exp2(n - 1)
  }

  lemma {:induction false} Exp2Grows(m: nat, n: nat)
    requires m <= n
    ensures Exp2(m) <= Exp2(n)
    decreases n
  {
    if m < n {
      Exp2Grows(m, n - 1);
    }
  }

  lemma BackOffGrows(exp: nat, m: nat, n: nat)
    requires m <= n
    ensures exp * Exp2(m) <= exp * Exp2(n)
  {
    Exp2Grows(m, n);
  }

  function Started(exp: nat, sec: nat, threshold: nat, exponential: bool, now: nat): (t: Timer)
    ensures !t.state.DELETED?
  {
    Start(Setup(exp, sec, threshold, exponential), now)
  }

  /** The state behind the `j`-th expiration, with `p` milliseconds of back-off. */
  predicate BackedOff(t: Timer, j: nat, p: nat, due: nat) {
    && t.exponential && t.state.RUNNING? && t.counter == j == t.calls && t.backOff == p
    && t.kernel == Armed(due, ZERO)
  }

  lemma BackOffStep(t: Timer, j: nat, p: nat, due: nat)
    requires BackedOff(t, j, p, due) && 0 < p < ULONG && j + 1 < UINT32 && (t.threshold == 0 || j < t.threshold)
    ensures 2 * p < ULONG ==> BackedOff(Expire(t), j + 1, 2 * p, due + 2 * p * NANOS_PER_MS)
    ensures 2 * p >= ULONG ==> Expire(t).kernel != Armed(due + 2 * p * NANOS_PER_MS, ZERO)
    ensures Expire(t).threshold == t.threshold
  {
    hide Filled;
    FilledOk(2 * p % ULONG);
    FilledOk(0);
  }

  function BackOffDue(exp: nat, now: nat, n: nat): nat {
    now + exp * (Exp2(n) - 1) * NANOS_PER_MS
  }

  lemma BackOffDueNext(exp: nat, now: nat, n: nat)
    ensures exp * Exp2(n + 1) == 2 * (exp * Exp2(n))
    ensures BackOffDue(exp, now, n + 2) == BackOffDue(exp, now, n + 1) + 2 * (exp * Exp2(n)) * NANOS_PER_MS
  {
    assert Exp2(n + 2) == 2 * Exp2(n + 1) == 4 * Exp2(n);
    assert exp * (Exp2(n + 2) - 1) == exp * (Exp2(n + 1) - 1) + 2 * (exp * Exp2(n));
  }

  lemma {:induction false} Backing(exp: nat, sec: nat, threshold: nat, now: nat, j: nat)
    requires 0 < exp && exp * Exp2(j) < ULONG && (threshold == 0 || j <= threshold)
    ensures j < 64
    ensures BackedOff(Expirations(Started(exp, sec, threshold, true, now), j), j, exp * Exp2(j),
        BackOffDue(exp, now, j + 1))
    ensures Expirations(Started(exp, sec, threshold, true, now), j).threshold == threshold
    decreases j
  {
    hide Expire, Started, BackOffDue, Exp2;
    if j == 0 {
      BackingStarts(exp, sec, threshold, now);
    } else {
      BackOffDueNext(exp, now, j - 1);
      Backing(exp, sec, threshold, now, j - 1);
      BackOffStep(Expirations(Started(exp, sec, threshold, true, now), j - 1), j - 1, exp * Exp2(j - 1),
          BackOffDue(exp, now, j));
      Doublings(exp, j);
    }
  }

  lemma BackingStarts(exp: nat, sec: nat, threshold: nat, now: nat)
    requires 0 < exp && exp * Exp2(0) < ULONG
    ensures BackedOff(Started(exp, sec, threshold, true, now), 0, exp * Exp2(0), BackOffDue(exp, now, 1))
    ensures Started(exp, sec, threshold, true, now).threshold == threshold
  {
    hide Filled;
    FilledOk(exp);
    FilledOk(0);
    assert Exp2(1) == 2;
  }

  lemma Exp2Of64()
    ensures Exp2(64) == ULONG
  {
    assert Exp2(8) == 256;
    assert Exp2(16) == 0x1_0000;
    assert Exp2(24) == 0x100_0000;
    assert Exp2(32) == UINT32;
    assert Exp2(40) == 0x100_0000_0000;
    assert Exp2(48) == 0x1_0000_0000_0000;
    assert Exp2(56) == 0x100_0000_0000_0000;
  }

  lemma Doublings(exp: nat, j: nat)
    requires 0 < exp && exp * Exp2(j) < ULONG
    ensures j < 64
  {
    hide Exp2;
    Exp2Of64();
    if j >= 64 {
      Exp2Grows(64, j);
    }
  }

  /** The `n`-th expiration comes at `exp * (2^n - 1)` milliseconds. */
  predicate ExpiresOnTime(exp: nat, sec: nat, threshold: nat, now: nat, n: nat)
    requires n >= 1
  {
    Expirations(Started(exp, sec, threshold, true, now), n - 1).kernel == Armed(BackOffDue(exp, now, n), ZERO)
  }

  lemma {:induction false} OverflowBreaks(exp: nat, sec: nat, threshold: nat, now: nat, n: nat) returns (m: nat)
    requires n >= 1 && 0 < exp < ULONG <= exp * Exp2(n - 1) && (threshold == 0 || n <= threshold + 1)
    ensures 1 <= m <= n && !ExpiresOnTime(exp, sec, threshold, now, m)
    decreases n
  {
    hide Expire, Started, BackOffDue, Exp2;
    ExpZero();
    assert n >= 2;
    if exp * Exp2(n - 2) < ULONG {
      m := n;
      Backing(exp, sec, threshold, now, n - 2);
      BackOffDueNext(exp, now, n - 2);
      BackOffStep(Expirations(Started(exp, sec, threshold, true, now), n - 2), n - 2, exp * Exp2(n - 2),
          BackOffDue(exp, now, n - 1));
    } else {
      m := OverflowBreaks(exp, sec, threshold, now, n - 1);
    }
  }

  lemma ExpZero()
    ensures Exp2(0) == 1
  {}

  /** The first `n` expirations come at `exp`, `3 * exp`, `7 * exp`, ... milliseconds after the start,
      exactly as long as the back-off time fits an unsigned long. */
  lemma BackOffTimes(exp: nat, sec: nat, threshold: nat, now: nat, n: nat)
    requires 0 < exp < ULONG && n >= 1 && (threshold == 0 || n <= threshold + 1)
    ensures (forall m: nat | 1 <= m <= n :: ExpiresOnTime(exp, sec, threshold, now, m)) <==> exp * Exp2(n - 1) < ULONG
  {
    hide Started, BackOffDue, Exp2;
    if exp * Exp2(n - 1) < ULONG {
      forall m: nat | 1 <= m <= n ensures ExpiresOnTime(exp, sec, threshold, now, m) {
        BackOffGrows(exp, m - 1, n - 1);
        Backing(exp, sec, threshold, now, m - 1);
      }
    } else {
      var m := OverflowBreaks(exp, sec, threshold, now, n);
    }
  }

  // ---- the threshold

  /** The timer ran out of its callbacks. */
  predicate Finished(t: Timer, threshold: nat) {
    t.state.CANCELLED? && t.kernel.Disarmed? && t.counter == 0 && t.calls == threshold
  }

  lemma {:induction false} StaysDisarmed(t: Timer, n: nat)
    requires t.kernel.Disarmed? && !t.state.DELETED?
    ensures Expirations(t, n) == t
    decreases n
  {
    if n != 0 {
      StaysDisarmed(t, n - 1);
    }
  }

  lemma {:induction false} ExpirationsSplit(t: Timer, m: nat, n: nat)
    requires !t.state.DELETED?
    ensures Expirations(t, m + n) == Expirations(Expirations(t, m), n)
    decreases n
  {
    if n != 0 {
      ExpirationsSplit(t, m, n - 1);
    }
  }

  lemma OneTooMany(t: Timer)
    requires t.kernel.Armed? && (t.state.RUNNING? || t.state.RESUMED?)
    requires t.counter == t.threshold == t.calls && 0 < t.threshold < UINT32 - 1
    ensures Finished(Expire(t), t.threshold)
  {
    FilledOk(0);
  }

  lemma AfterThreshold(t: Timer, threshold: nat, n: nat)
    requires !t.state.DELETED? && 0 < threshold < UINT32 - 1 && n > threshold
    requires var u := Expirations(t, threshold);
             u.kernel.Armed? && u.state.RUNNING? && u.counter == u.threshold == u.calls == threshold
    ensures Finished(Expirations(t, n), threshold)
  {
    hide Expire;
    OneTooMany(Expirations(t, threshold));
    assert Finished(Expirations(t, threshold + 1), threshold);
    ExpirationsSplit(t, threshold + 1, n - threshold - 1);
    StaysDisarmed(Expirations(t, threshold + 1), n - threshold - 1);
  }

  /** The back-off time after `j` doublings, in an unsigned long. */
  function Wrapped(exp: nat, j: nat): nat {
    exp * Exp2(j) % ULONG
  }

  lemma WrappedNext(exp: nat, j: nat)
    ensures Wrapped(exp, j + 1) == Wrapped(exp, j) * 2 % ULONG
  {
    assert exp * Exp2(j + 1) == 2 * (exp * Exp2(j));
    DoubleWraps(exp * Exp2(j));
  }

  lemma DoubleWraps(p: nat)
    ensures 2 * p % ULONG == p % ULONG * 2 % ULONG
  {
    var q, r := p / ULONG, p % ULONG;
    if 2 * r < ULONG {
      DivMod(2 * p, ULONG, 2 * q, 2 * r);
    } else {
      DivMod(2 * p, ULONG, 2 * q + 1, 2 * r - ULONG);
    }
  }

  lemma {:induction false} WrappedStaysZero(exp: nat, j: nat, n: nat)
    requires j <= n && Wrapped(exp, j) == 0
    ensures Wrapped(exp, n) == 0
    decreases n - j
  {
    hide Wrapped;
    if j < n {
      WrappedNext(exp, j);
      WrappedStaysZero(exp, j + 1, n);
    }
  }

  lemma WrappedAt64(exp: nat)
    ensures Wrapped(exp, 64) == 0
  {
    Exp2Of64();
    assert exp * ULONG % ULONG == 0;
  }

  /** Behind `j` expirations, and still waiting for the next one. */
  predicate Doubling(t: Timer, j: nat, p: nat) {
    && t.exponential && t.state.RUNNING? && t.counter == j == t.calls && t.backOff == p
    && t.kernel.Armed? && t.kernel.interval == ZERO
  }

  /** Run dry: the back-off time has become zero, and nothing will ever happen again. */
  predicate RunDry(t: Timer, j: nat) {
    t.exponential && t.state.RUNNING? && t.calls == j && t.kernel.Disarmed?
  }

  lemma DoublingStep(t: Timer, j: nat, p: nat)
    requires Doubling(t, j, p) && p < ULONG && j < t.threshold < UINT32
    ensures var q := p * 2 % ULONG;
            if q != 0 then Doubling(Expire(t), j + 1, q) else RunDry(Expire(t), j + 1)
    ensures Expire(t).threshold == t.threshold
  {
    hide Filled;
    FilledOk(p * 2 % ULONG);
    FilledOk(0);
  }

  lemma DoublingStarts(exp: nat, sec: nat, threshold: nat, now: nat)
    requires 0 < exp < ULONG
    ensures Wrapped(exp, 0) == exp && Doubling(Started(exp, sec, threshold, true, now), 0, exp)
    ensures Started(exp, sec, threshold, true, now).threshold == threshold
  {
    hide Filled;
    FilledOk(exp);
    FilledOk(0);
  }

  lemma {:induction false} DoublingGoesOn(exp: nat, sec: nat, threshold: nat, now: nat, j: nat)
    requires 0 < exp < ULONG && j <= threshold < UINT32 && Wrapped(exp, j) != 0
    ensures var t := Expirations(Started(exp, sec, threshold, true, now), j);
            Doubling(t, j, Wrapped(exp, j)) && t.threshold == threshold
    decreases j
  {
    hide Started, Expire, Wrapped;
    if j == 0 {
      DoublingStarts(exp, sec, threshold, now);
    } else {
      WrappedNext(exp, j - 1);
      DoublingGoesOn(exp, sec, threshold, now, j - 1);
      WrappedRange(exp, j - 1);
      DoublingStep(Expirations(Started(exp, sec, threshold, true, now), j - 1), j - 1, Wrapped(exp, j - 1));
    }
  }

  lemma WrappedRange(exp: nat, j: nat)
    ensures Wrapped(exp, j) < ULONG
  {}

  /** Once the back-off time has wrapped around to zero the timer stays disarmed, and running. */
  lemma {:induction false} DoublingRunsDry(exp: nat, sec: nat, threshold: nat, now: nat, j: nat, n: nat)
    requires 0 < exp < ULONG && j <= threshold < UINT32 && Wrapped(exp, j) == 0 && n >= j
    ensures exists m: nat | m <= j :: RunDry(Expirations(Started(exp, sec, threshold, true, now), n), m)
    decreases j
  {
    hide Started, Expire, Wrapped;
    var t0 := Started(exp, sec, threshold, true, now);
    DoublingStarts(exp, sec, threshold, now);
    if Wrapped(exp, j - 1) == 0 {
      DoublingRunsDry(exp, sec, threshold, now, j - 1, n);
    } else {
      WrappedNext(exp, j - 1);
      DoublingGoesOn(exp, sec, threshold, now, j - 1);
      WrappedRange(exp, j - 1);
      DoublingStep(Expirations(t0, j - 1), j - 1, Wrapped(exp, j - 1));
      assert RunDry(Expirations(t0, j), j);
      ExpirationsSplit(t0, j, n - j);
      StaysDisarmed(Expirations(t0, j), n - j);
    }
  }

  /** What a threshold is for, at the `n`-th expiration: `min(n, threshold)` callbacks, and a
      cancelled timer exactly when there was one expiration more. */
  predicate CountedOut(exp: nat, sec: nat, threshold: nat, now: nat, n: nat) {
    var t := Expirations(Started(exp, sec, threshold, true, now), n);
    t.calls == (if n <= threshold then n else threshold) && (n > threshold <==> Finished(t, threshold))
  }

  /** A backing-off timer with a threshold calls back at each of the first `threshold` expirations
      and is cancelled by the next one, exactly unless its back-off time has wrapped around to zero
      by then. */
  lemma BackOffThreshold(exp: nat, sec: nat, threshold: nat, now: nat)
    requires 0 < exp < ULONG && 0 < threshold < UINT32
    ensures (forall n: nat :: CountedOut(exp, sec, threshold, now, n)) <==> exp * Exp2(threshold) % ULONG != 0
  {
    hide Started, Expire, Exp2;
    assert Wrapped(exp, threshold) == exp * Exp2(threshold) % ULONG;
    if Wrapped(exp, threshold) != 0 {
      forall n: nat ensures CountedOut(exp, sec, threshold, now, n) {
        CountsOut(exp, sec, threshold, now, n);
      }
    } else {
      DoublingRunsDry(exp, sec, threshold, now, threshold, threshold + 1);
      assert !CountedOut(exp, sec, threshold, now, threshold + 1);
    }
  }

  lemma CountsOut(exp: nat, sec: nat, threshold: nat, now: nat, n: nat)
    requires 0 < exp < ULONG && 0 < threshold < UINT32 && Wrapped(exp, threshold) != 0
    ensures CountedOut(exp, sec, threshold, now, n)
  {
    hide Started, Expirations, Wrapped;
    WrappedAt64(exp);
    if threshold >= 64 {
      WrappedStaysZero(exp, 64, threshold);
    }
    var t0 := Started(exp, sec, threshold, true, now);
    if n <= threshold {
      if Wrapped(exp, n) == 0 {
        WrappedStaysZero(exp, n, threshold);
      }
      DoublingGoesOn(exp, sec, threshold, now, n);
    } else {
      DoublingGoesOn(exp, sec, threshold, now, threshold);
      AfterThreshold(t0, threshold, n);
    }
  }

  /** No threshold of 64 or more ever cancels a timer that starts at 1 ms: it stays running for
      ever, disarmed. */
  lemma LargeThresholdNeverCancels(sec: nat, threshold: nat, now: nat, n: nat)
    requires 64 <= threshold < UINT32 && n >= 64
    ensures var t := Expirations(Started(1, sec, threshold, true, now), n);
            t.state.RUNNING? && t.kernel.Disarmed? && !Finished(t, threshold)
  {
    hide Started, Expirations;
    WrappedAt64(1);
    DoublingRunsDry(1, sec, threshold, now, 64, n);
  }

  // ---- periodic timers

  predicate Ticking(t: Timer, j: nat, due: nat) {
    && !t.exponential && t.state.RUNNING? && t.counter == j % UINT32 && t.calls == j
    && t.kernel == Armed(due, t.interval)
  }

  function PeriodicDue(exp: nat, sec: nat, now: nat, j: nat): nat {
    now + (exp + j * sec) * NANOS_PER_MS
  }

  lemma PeriodicDueNext(exp: nat, sec: nat, now: nat, j: nat)
    ensures PeriodicDue(exp, sec, now, j + 1) == PeriodicDue(exp, sec, now, j) + sec * NANOS_PER_MS
  {
    assert (j + 1) * sec == j * sec + sec;
  }

  lemma TickOn(t: Timer, j: nat, due: nat, sec: nat)
    requires Ticking(t, j, due) && t.interval == Filled(sec) && 0 < sec < ULONG && t.threshold < UINT32
    requires t.threshold == 0 || j < t.threshold || t.threshold == UINT32 - 1
    ensures Ticking(Expire(t), j + 1, due + sec * NANOS_PER_MS)
    ensures Expire(t).threshold == t.threshold && Expire(t).interval == t.interval
  {
    hide Filled;
    FilledOk(sec);
    assert (j + 1) % UINT32 == (j % UINT32 + 1) % UINT32;
  }

  lemma PeriodicStarts(exp: nat, sec: nat, threshold: nat, now: nat)
    requires 0 < exp < ULONG && 0 < sec < ULONG
    ensures var t := Started(exp, sec, threshold, false, now);
            t.threshold == threshold && t.interval == Filled(sec) && Ticking(t, 0, PeriodicDue(exp, sec, now, 0))
  {
    hide Filled;
    FilledOk(exp);
    FilledOk(sec);
  }

  lemma {:induction false} Periodic(exp: nat, sec: nat, threshold: nat, now: nat, j: nat)
    requires 0 < exp < ULONG && 0 < sec < ULONG && threshold < UINT32
    requires threshold == 0 || j <= threshold || threshold == UINT32 - 1
    ensures var t := Expirations(Started(exp, sec, threshold, false, now), j);
            t.threshold == threshold && t.interval == Filled(sec) && Ticking(t, j, PeriodicDue(exp, sec, now, j))
    decreases j
  {
    hide Started, Expire, Ticking, PeriodicDue, Filled;
    if j == 0 {
      PeriodicStarts(exp, sec, threshold, now);
    } else {
      Periodic(exp, sec, threshold, now, j - 1);
      var t := Expirations(Started(exp, sec, threshold, false, now), j - 1);
      TickOn(t, j - 1, PeriodicDue(exp, sec, now, j - 1), sec);
      PeriodicDueNext(exp, sec, now, j - 1);
      TickingArmed(t, j - 1, PeriodicDue(exp, sec, now, j - 1));
    }
  }

  lemma TickingArmed(t: Timer, j: nat, due: nat)
    requires Ticking(t, j, due)
    ensures t.kernel.Armed?
  {}

  /** A periodic timer with a threshold stops after that many callbacks, exactly unless the
      threshold is the largest unsigned int: then the counter wraps around before it gets past it. */
  lemma PeriodicThreshold(exp: nat, sec: nat, threshold: nat, now: nat, n: nat)
    requires 0 < exp < ULONG && 0 < sec < ULONG && 0 < threshold < UINT32
    ensures var t := Expirations(Started(exp, sec, threshold, false, now), n);
            && (n <= threshold ==> t.calls == n && t.kernel == Armed(PeriodicDue(exp, sec, now, n), Filled(sec)))
            && (n > threshold ==> (Finished(t, threshold) <==> threshold != UINT32 - 1))
  {
    hide Filled, Expirations, Started;
    if n <= threshold || threshold == UINT32 - 1 {
      Periodic(exp, sec, threshold, now, n);
    } else {
      Periodic(exp, sec, threshold, now, threshold);
      AfterThreshold(Started(exp, sec, threshold, false, now), threshold, n);
    }
  }

  // ---- pausing

  /** Pausing and resuming shifts the next expiration by the length of the pause, exactly when what
      was left is a whole number of milliseconds. */
  lemma PauseKeepsTheRest(t: Timer, paused: nat, resumed: nat)
    requires t.kernel.Armed? && paused < t.kernel.due && t.kernel.due - paused < ULONG * NANOS_PER_MS
    requires !t.state.PAUSED? && !t.state.DELETED? && !t.state.CANCELLED?
    ensures var r := Resume(Pause(t, paused), resumed).kernel;
            (r.Armed? && r.due == resumed + (t.kernel.due - paused)) <==> (t.kernel.due - paused) % NANOS_PER_MS == 0
  {
    hide Filled;
    var left := t.kernel.due - paused;
    FilledOk(left / NANOS_PER_MS);
    FilledOk(t.expTimer);
    FilledOk(0);
  }

  /** What the timer waits for when it is resumed. */
  function Rest(t: Timer): nat {
    if t.timeRemaining != 0 then t.timeRemaining else t.expTimer
  }

  lemma ResumedOnce(t: Timer, now: nat)
    requires TimerOk(t) && t.state.PAUSED? && !t.exponential && Rest(t) != 0 && t.expTimer != 0
    requires t.threshold == 0 || t.counter < t.threshold
    ensures var r, due := Resume(t, now), now + Rest(t) * NANOS_PER_MS;
            && r.kernel.Armed? && r.kernel.due == due && r.calls == t.calls
            && Resumed(Expire(r), t, 1, due + t.expTimer * NANOS_PER_MS)
  {
    hide Filled;
    FilledOk(t.timeRemaining);
    FilledOk(t.expTimer);
    FilledOk(t.secExpTimer);
    FilledOk(0);
  }

  /** `n` expirations behind the resume of `t`, with the second interval in force. */
  predicate Resumed(r: Timer, t: Timer, n: nat, due: nat) {
    && !r.exponential && r.state.RUNNING? && r.threshold == t.threshold && r.calls == t.calls + n
    && r.counter == (t.counter + n) % UINT32
    && r.interval == Filled(t.secExpTimer) && r.kernel == Armed(due, r.interval)
  }

  lemma ResumedTick(r: Timer, t: Timer, n: nat, due: nat)
    requires TimerOk(t) && Resumed(r, t, n, due) && t.secExpTimer != 0
    requires t.threshold == 0 || t.counter + n < t.threshold
    ensures Resumed(Expire(r), t, n + 1, due + t.secExpTimer * NANOS_PER_MS)
  {
    hide Filled;
    FilledOk(t.secExpTimer);
    assert (t.counter + n + 1) % UINT32 == ((t.counter + n) % UINT32 + 1) % UINT32;
  }

  function ResumedDue(t: Timer, now: nat, n: nat): nat
    requires n >= 1
  {
    now + (Rest(t) + t.expTimer + (n - 1) * t.secExpTimer) * NANOS_PER_MS
  }

  lemma ResumedDueNext(t: Timer, now: nat, n: nat)
    requires n >= 1
    ensures ResumedDue(t, now, 1) == now + Rest(t) * NANOS_PER_MS + t.expTimer * NANOS_PER_MS
    ensures ResumedDue(t, now, n + 1) == ResumedDue(t, now, n) + t.secExpTimer * NANOS_PER_MS
  {
    assert n * t.secExpTimer == (n - 1) * t.secExpTimer + t.secExpTimer;
  }

  /** After a resume the timer expires when the rest is over, then after the first interval, and
      from there on after the second one for ever, or until its threshold. */
  lemma {:induction false} ResumedSchedule(t: Timer, now: nat, n: nat)
    requires TimerOk(t) && t.state.PAUSED? && !t.exponential && Rest(t) != 0 && t.expTimer != 0 && t.secExpTimer != 0
    requires t.threshold == 0 || t.counter + n <= t.threshold
    ensures var r := Expirations(Resume(t, now), n);
            && r.calls == t.calls + n && r.kernel.Armed?
            && r.kernel.due == (if n == 0 then now + Rest(t) * NANOS_PER_MS else ResumedDue(t, now, n))
            && (n >= 1 ==> Resumed(r, t, n, ResumedDue(t, now, n)))
    decreases n
  {
    hide Expire, Filled, ResumedDue;
    if n == 0 {
      hide Filled;
      FilledOk(Rest(t));
    } else {
      ResumedSchedule(t, now, n - 1);
      var u := Expirations(Resume(t, now), n - 1);
      if n == 1 {
        ResumedOnce(t, now);
        ResumedDueNext(t, now, 1);
      } else {
        ResumedTick(u, t, n - 1, ResumedDue(t, now, n - 1));
        ResumedDueNext(t, now, n - 1);
      }
    }
  }

  // ---- the other calls

  /** The same timer but for how often it has called back in all, and the back-off time if it does not
      back off. */
  predicate LikeFresh(r: Timer, f: Timer, calls: nat) {
    r == f.(calls := f.calls + calls, backOff := r.backOff) && (f.exponential ==> r.backOff == f.backOff)
  }

  lemma ExpireAlike(r: Timer, f: Timer, calls: nat)
    requires LikeFresh(r, f, calls) && f.kernel.Armed? && !f.state.DELETED?
    ensures LikeFresh(Expire(r), Expire(f), calls)
  {
    hide Filled;
  }

  /** Restarting is starting over, whatever the timer was doing: from the restart on it expires when a
      new timer would, for any number of expirations, and counts and calls back as a new one. */
  lemma {:induction false} RestartStartsOver(t: Timer, now: nat, n: nat)
    requires TimerOk(t) && !t.state.DELETED?
    ensures var r, f := Expirations(Restart(t, now), n),
                        Expirations(Started(t.expTimer, t.secExpTimer, t.threshold, t.exponential, now), n);
            LikeFresh(r, f, t.calls)
    ensures n == 0 ==>
              && Restart(t, now).counter == 0 && Restart(t, now).state == RUNNING
              && Restart(t, now).kernel ==
                 (if t.expTimer == 0 then Disarmed
                  else Armed(now + t.expTimer * NANOS_PER_MS, Filled(if t.exponential then 0 else t.secExpTimer)))
    decreases n
  {
    hide Expire;
    FilledOk(t.expTimer);
    if n > 0 {
      RestartStartsOver(t, now, n - 1);
      var f := Expirations(Started(t.expTimer, t.secExpTimer, t.threshold, t.exponential, now), n - 1);
      if f.kernel.Armed? {
        ExpireAlike(Expirations(Restart(t, now), n - 1), f, t.calls);
      }
    }
  }

  /** Rescheduling arms the timer anew, whatever it was doing, keeps its count, and makes the first
      interval the back-off time of a timer that backs off. */
  lemma RescheduleArms(t: Timer, now: nat, exp: nat, sec: nat)
    requires TimerOk(t) && !t.state.DELETED? && exp < ULONG && sec < ULONG
    ensures var r := Reschedule(t, now, exp, sec);
            && r.kernel == (if exp == 0 then Disarmed
                            else Armed(now + exp * NANOS_PER_MS, Filled(if t.exponential then 0 else sec)))
            && r.counter == t.counter && r.calls == t.calls && r.state == RUNNING && r.timeRemaining == 0
            && r.backOff == (if t.exponential then exp else t.backOff)
            && r.expTimer == t.expTimer && r.secExpTimer == t.secExpTimer && r.threshold == t.threshold
            && r.exponential == t.exponential
  {
    FilledOk(exp);
  }

  lemma {:induction false} DisarmedStays(t: Timer, n: nat)
    requires t.kernel.Disarmed? && !t.state.DELETED?
    ensures Expirations(t, n) == t
    decreases n
  {
    if n > 0 {
      DisarmedStays(t, n - 1);
    }
  }

  /** A timer that is cancelled never expires; cancelling does nothing before the start. */
  lemma CancelledNeverExpires(t: Timer, now: nat, n: nat)
    requires !t.state.DELETED?
    ensures t.state.INIT? ==> Cancel(t, now) == t
    ensures !t.state.INIT? ==>
              && Expirations(Cancel(t, now), n) == Cancel(t, now) && Cancel(t, now).kernel.Disarmed?
              && Cancel(t, now).counter == 0 && Cancel(t, now).timeRemaining == 0 && Cancel(t, now).state == CANCELLED
              && Cancel(t, now).calls == t.calls && Cancel(t, now).backOff == t.backOff
  {
    if !t.state.INIT? {
      DisarmedStays(Cancel(t, now), n);
    }
  }

  /** A paused timer never expires, and remembers the whole milliseconds that were left, as
      far as they fit an unsigned long. */
  lemma PausedNeverExpires(t: Timer, now: nat, n: nat)
    requires t.state.INIT? || t.state.RUNNING? || t.state.RESUMED?
    ensures var p := Pause(t, now);
            && Expirations(p, n) == p && p.kernel.Disarmed? && p.state == PAUSED && p.counter == t.counter
            && p.timeRemaining == (if t.kernel.Disarmed? || t.kernel.due < now then 0
                                   else (t.kernel.due - now) / NANOS_PER_MS % ULONG)
            && Pause(p, now) == p
  {
    DisarmedStays(Pause(t, now), n);
    if t.kernel.Armed? && now <= t.kernel.due {
      MillisecondsLeft(t.kernel.due - now);
    }
  }

  /** A resumed timer waits for what was left, or if that was nothing for its first interval, and its
      kernel timer would go on with the second one. */
  lemma ResumeArms(t: Timer, now: nat)
    requires TimerOk(t) && t.state.PAUSED? && Rest(t) != 0
    ensures var r := Resume(t, now);
            && r.kernel == Armed(now + Rest(t) * NANOS_PER_MS, r.interval)
            && Nanos(r.interval) == t.secExpTimer * NANOS_PER_MS
            && r.state == RESUMED && r.timeRemaining == 0 && r.counter == t.counter && r.calls == t.calls
  {
    FilledOk(Rest(t));
    FilledOk(t.secExpTimer);
  }

  /** What the library tells of the time left: all ones for a timer cancelled or deleted, whole
      milliseconds for one that is armed. */
  lemma TimeLeft(t: Timer, now: nat)
    ensures RemainingMillisec(t, now) ==
            if t.state.CANCELLED? || t.state.DELETED? then 0xFFFF_FFFF_FFFF_FFFF
            else if t.kernel.Disarmed? || t.kernel.due < now then 0
            else (t.kernel.due - now) / NANOS_PER_MS % ULONG
  {
    if t.kernel.Armed? && now <= t.kernel.due {
      MillisecondsLeft(t.kernel.due - now);
    }
  }

  lemma MillisecondsLeft(left: nat)
    ensures TimespecToMillisec(Timespec(left / NANOS, left % NANOS)) == left / NANOS_PER_MS % ULONG
  {
    var a, b := left / NANOS * 1000, left % NANOS / NANOS_PER_MS;
    assert a + b == left / NANOS_PER_MS;
    var q := (a % ULONG + b) / ULONG;
    DivMod(a + b, ULONG, a / ULONG + q, (a % ULONG + b) % ULONG);
  }
}
