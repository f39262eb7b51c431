/** When elements fire, over whole runs: first on the flat schedule, then for the wheel. */
module TimingLaws {
  import opened Arithmetic
  import opened Sequences
  import opened TimerApi
  import opened Layouts
  import opened WheelModel
  import opened FlatSchedule
  import opened WheelRefinement

  function Firings(ids: seq<nat>, at: nat): (r: seq<Firing>)
    ensures |r| == |ids| && forall i | 0 <= i < |ids| :: r[i] == Firing(ids[i], at)
  {
    seq(|ids|, i requires 0 <= i < |ids| => Firing(ids[i], at))
  }

  ghost function Count(trace: seq<Firing>, id: nat, at: nat): nat {
    multiset(trace)[Firing(id, at)]
  }

  // ---- one tick

  lemma {:induction false} FireAllTrace(f: Flat, app: App, ids: seq<nat>, from: nat)
    requires FlatOkFrom(f, from) && from <= f.now + 1
    requires forall id | id in ids :: id in f.core.info && LegalInterval(f.core.tickMs, f.core.info[id].interval)
    ensures FireAllF(f, app, ids).core.trace == f.core.trace + Firings(ids, f.now)
    ensures forall x | x in f.core.pending :: x in FireAllF(f, app, ids).core.pending
    decreases |ids|
  {
    hide Firings, Callback;
    if ids != [] {
      FireOneOkF(f, app, ids[0], from);
      CallbackOk(f.core, app, ids[0], f.now);
      CallbackPending(f.core, app, ids[0], f.now);
      FireAllTrace(FireOneF(f, app, ids[0]), app, ids[1..], from);
      assert Firings(ids, f.now) == [Firing(ids[0], f.now)] + Firings(ids[1..], f.now);
    }
  }

  lemma {:induction false} PostAllPending(c: Core, rs: seq<Request>)
    ensures forall x | x in c.pending :: x in PostAll(c, rs).pending
    decreases |rs|
  {
    if rs != [] {
      PostAllPending(if Allowed(c, rs[0]) then Post(c, rs[0]) else c, rs[1..]);
    }
  }

  lemma CallbackPending(c: Core, app: App, id: nat, at: nat)
    ensures forall x | x in c.pending :: x in Callback(c, app, id, at).pending
  {
    var trace := c.trace + [Firing(id, at)];
    PostAllPending(c.(trace := trace), app(trace));
  }

  lemma DueNextOk(f: Flat)
    requires FlatOk(f)
    ensures NoDup(DueNext(f))
    ensures forall x :: x in DueNext(f) <==> x in f.agenda.order && f.agenda.due[x] == f.now + 1
    ensures forall x | x in DueNext(f) :: x in f.core.info && LegalInterval(f.core.tickMs, f.core.info[x].interval)
    ensures FlatOkFrom(f.(now := f.now + 1), f.now + 1)
  {
    AtDueNoDup(f.agenda.order, f.agenda.due, f.now + 1);
  }

  /** A tick fires the elements due at it, once each, and nothing else. */
  lemma TickTrace(f: Flat, app: App)
    requires FlatOk(f)
    ensures DoTickF(f, app).core.trace == f.core.trace + Firings(DueNext(f), f.now + 1)
    ensures DoTickF(f, app).now == f.now + 1
    ensures NoDup(DueNext(f))
    ensures forall x :: x in DueNext(f) <==> x in f.agenda.order && f.agenda.due[x] == f.now + 1
  {
    hide FlatOkFrom, DueNext;
    DueNextOk(f);
    FiredOkF(f, app);
    FireAllTrace(f.(now := f.now + 1), app, DueNext(f), f.now + 1);
    DrainOkF(FiredF(f, app), f.now + 2);
  }

  /** Adoption: after the drain, a deleted element is gone; one created or rescheduled is due
      its new interval from now, whatever it was doing before; the others are as they were. */
  lemma {:induction false} DrainMoves(f: Flat, x: nat)
    requires FlatOkFrom(f, f.now + 1)
    ensures var f' := DrainF(f);
            if x in f.core.pending then
              var i := f.core.info[x];
              if i.op.Delete? then x !in f'.core.info && x !in f'.agenda.order
              else
                && x in f'.core.info && f'.core.info[x] == Info(Scheduled, i.newInterval, i.newInterval, i.recurring)
                && x in f'.agenda.order && x in f'.agenda.due
                   && f'.agenda.due[x] == f.now + Ticks(f.core.tickMs, i.newInterval)
            else
              && (x in f'.core.info <==> x in f.core.info)
              && (x in f.core.info ==> f'.core.info[x] == f.core.info[x])
              && (x in f'.agenda.order <==> x in f.agenda.order)
              && (x in f.agenda.order ==> x in f'.agenda.due && f'.agenda.due[x] == f.agenda.due[x])
    decreases |f.core.pending|
  {
    hide BookedOk;
    DrainOkF(f, f.now + 1);
    if f.core.pending != [] {
      AdoptOk(f.core);
      AdoptOneOkF(f, f.now + 1);
      DrainMoves(AdoptOneF(f), x);
      assert f.core.pending[0] !in f.core.pending[1..];
    }
  }

  /** One tick seen from an element with no request adopted about it in that tick. */
  lemma TickUntouched(f: Flat, app: App, x: nat)
    requires FlatOk(f) && x in f.core.info && x !in FiredF(f, app).core.pending
    ensures var f' := DoTickF(f, app);
            && x in f'.core.info && x !in f'.core.pending
            && f'.core.info[x].interval == f.core.info[x].interval
               && f'.core.info[x].recurring == f.core.info[x].recurring
            && f'.core.tickMs == f.core.tickMs
            && if x in f.agenda.order && f.agenda.due[x] == f.now + 1 then
                 if f.core.info[x].recurring then
                   x in f'.agenda.order && x in f'.agenda.due
                       && f'.agenda.due[x] == f.now + 1 + Ticks(f.core.tickMs, f.core.info[x].interval)
                 else x !in f'.agenda.order
               else
                 && (x in f'.agenda.order <==> x in f.agenda.order)
                 && (x in f.agenda.order ==> x in f'.agenda.due && f'.agenda.due[x] == f.agenda.due[x])
  {
    hide AgendaOk, BookedOk, CoreOk;
    FiredOkF(f, app);
    FiredMoves(f, app, x);
    DrainMoves(FiredF(f, app), x);
    DrainTickMs(FiredF(f, app));
    DrainOkF(FiredF(f, app), f.now + 2);
  }

  lemma {:induction false} DrainTickMs(f: Flat)
    requires FlatOkFrom(f, f.now + 1)
    ensures DrainF(f).core.tickMs == f.core.tickMs && DrainF(f).core.next == f.core.next
    decreases |f.core.pending|
  {
    if f.core.pending != [] {
      AdoptOk(f.core);
      AdoptOneOkF(f, f.now + 1);
      DrainTickMs(AdoptOneF(f));
    }
  }

  // ---- runs

  ghost predicate TracePast(f: Flat) {
    forall e | e in f.core.trace :: e.at <= f.now
  }

  predicate NoTicks(es: seq<Event>) {
    forall e | e in es :: e.Call?
  }

  /** No request about `id` is adopted before the last tick of the run, though it may be made. */
  ghost predicate Untouched(f: Flat, app: App, es: seq<Event>, id: nat)
    requires FlatOk(f)
    decreases |es|
  {
    es == [] ||
    (StepOkF(f, app, es[0]);
     && (es[0].Tick? && !NoTicks(es[1..]) ==> id !in FiredF(f, app).core.pending)
     && Untouched(StepF(f, app, es[0]), app, es[1..], id))
  }

  ghost predicate FiresAt(t: nat, first: nat, k: nat, recurring: bool) {
    if recurring then k > 0 && first <= t && (t - first) % k == 0 else t == first
  }

  lemma NextPeriod(t: nat, first: nat, k: nat)
    requires k > 0 && first < t
    ensures FiresAt(t, first, k, true) <==> FiresAt(t, first + k, k, true)
  {
    if t < first + k {
      assert (t - first) / k == 0;
    } else {
      var q := (t - first) / k;
      assert t - first - k == (q - 1) * k + (t - first) % k;
      DivMod(t - first - k, k, q - 1, (t - first) % k);
    }
  }

  lemma {:induction false} CountFirings(ids: seq<nat>, at: nat, id: nat, t: nat)
    requires NoDup(ids)
    ensures Count(Firings(ids, at), id, t) == if t == at && id in ids then 1 else 0
  {
    if ids != [] {
      CountFirings(ids[1..], at, id, t);
      assert Firings(ids, at) == [Firing(ids[0], at)] + Firings(ids[1..], at);
      assert id in ids <==> id == ids[0] || id in ids[1..];
      assert ids[0] !in ids[1..];
    }
  }

  lemma CountNew(trace: seq<Firing>, ids: seq<nat>, now: nat, id: nat, t: nat)
    requires (forall e | e in trace :: e.at < now) && NoDup(ids)
    ensures Count(trace + Firings(ids, now), id, t) ==
              if t == now then (if id in ids then 1 else 0) else Count(trace, id, t)
    ensures forall e | e in trace + Firings(ids, now) :: e.at <= now
  {
    CountFirings(ids, now, id, t);
    assert Firing(id, now) !in trace;
    assert Firing(id, now) !in multiset(trace);
  }

  lemma StepTrace(f: Flat, app: App, e: Event, id: nat, t: nat)
    requires FlatOk(f) && TracePast(f)
    ensures TracePast(StepF(f, app, e))
    ensures Count(StepF(f, app, e).core.trace, id, t) ==
              if e.Tick? && t == f.now + 1 then (if id in DueNext(f) then 1 else 0) else Count(f.core.trace, id, t)
  {
    match e
    case Tick =>
      TickTrace(f, app);
      CountNew(f.core.trace, DueNext(f), f.now + 1, id, t);
    case Call(r) =>
      if Allowed(f.core, r) {
        PostOk(f.core, r);
      }
      assert e.Call?;
  }

  /** Until a request about it is adopted, between now and the end of any run, an element fires at
      its due tick, and, if it recurs, every interval from there on; once each time and never else.
      That includes the tick that adopts the request. */
  lemma {:induction false} FiringTimes(f: Flat, app: App, es: seq<Event>, id: nat, t: nat)
    requires FlatOk(f) && TracePast(f) && id in f.core.info && Untouched(f, app, es, id)
    requires t <= RunF(f, app, es).now
    ensures t <= f.now ==> Count(RunF(f, app, es).core.trace, id, t) == Count(f.core.trace, id, t)
    ensures f.now < t ==>
              Count(RunF(f, app, es).core.trace, id, t) ==
              if id in f.agenda.order
                && FiresAt(t, f.agenda.due[id], Ticks(f.core.tickMs, f.core.info[id].interval),
                   f.core.info[id].recurring)
              then 1 else 0
    decreases |es|
  {
    hide Ticks, CoreOk, StepF, DueNext;
    DueNextOk(f);
    if es != [] {
      var f' := StepF(f, app, es[0]);
      StepOkF(f, app, es[0]);
      StepTrace(f, app, es[0], id, t);
      if es[0].Tick? && NoTicks(es[1..]) {
        ClockStands(f', app, es[1..]);
        if id in f.agenda.order {
          TicksPositive(f.core.tickMs, f.core.info[id].interval);
        }
        OldFirings(f', app, es[1..], id, t);
      } else {
        StepUntouched(f, app, es[0], id);
        FiringTimes(f', app, es[1..], id, t);
        if es[0].Tick? && id in f.agenda.order && f.agenda.due[id] == f.now + 1 < t && f.core.info[id].recurring {
          TicksPositive(f.core.tickMs, f.core.info[id].interval);
          NextPeriod(t, f.agenda.due[id], Ticks(f.core.tickMs, f.core.info[id].interval));
        }
      }
    }
  }

  lemma {:induction false} ClockStands(f: Flat, app: App, es: seq<Event>)
    requires FlatOk(f) && NoTicks(es)
    ensures RunF(f, app, es).now == f.now
    decreases |es|
  {
    if es != [] {
      assert es[0] in es;
      StepOkF(f, app, es[0]);
      ClockStands(StepF(f, app, es[0]), app, es[1..]);
    }
  }

  lemma StepUntouched(f: Flat, app: App, e: Event, x: nat)
    requires FlatOk(f) && x in f.core.info && (e.Tick? ==> x !in FiredF(f, app).core.pending)
    ensures var f' := StepF(f, app, e);
            && x in f'.core.info
            && f'.core.info[x].interval == f.core.info[x].interval
               && f'.core.info[x].recurring == f.core.info[x].recurring
            && f'.core.tickMs == f.core.tickMs
            && if e.Tick? && x in f.agenda.order && f.agenda.due[x] == f.now + 1 then
                 if f.core.info[x].recurring then
                   x in f'.agenda.order && x in f'.agenda.due
                       && f'.agenda.due[x] == f.now + 1 + Ticks(f.core.tickMs, f.core.info[x].interval)
                 else x !in f'.agenda.order
               else
                 && (x in f'.agenda.order <==> x in f.agenda.order)
                 && (x in f.agenda.order ==> x in f'.agenda.due && f'.agenda.due[x] == f.agenda.due[x])
  {
    match e
    case Tick => TickUntouched(f, app, x);
    case Call(r) =>
      if Allowed(f.core, r) {
        PostOk(f.core, r);
      }
  }

  // ---- freed elements

  /** Freed and never to come back: ids are handed out once. */
  ghost predicate Freed(f: Flat, id: nat) {
    id !in f.core.info && id < f.core.next
  }

  lemma StepFreed(f: Flat, app: App, e: Event, id: nat)
    requires FlatOk(f) && Freed(f, id)
    ensures Freed(StepF(f, app, e), id)
  {
    match e
    case Tick =>
      FiredOkF(f, app);
      DrainMoves(FiredF(f, app), id);
      DrainTickMs(FiredF(f, app));
    case Call(r) =>
      if Allowed(f.core, r) {
        PostOk(f.core, r);
      }
  }

  /** An adopted delete never fires again, whatever is called afterwards. */
  lemma {:induction false} FreedNeverFires(f: Flat, app: App, es: seq<Event>, id: nat, t: nat)
    requires FlatOk(f) && TracePast(f) && Freed(f, id) && f.now < t <= RunF(f, app, es).now
    ensures Count(RunF(f, app, es).core.trace, id, t) == 0
    decreases |es|
  {
    var f' := StepF(f, app, es[0]);
    StepOkF(f, app, es[0]);
    StepFreed(f, app, es[0], id);
    StepTrace(f, app, es[0], id, t);
    if t <= f'.now {
      OldFirings(f', app, es[1..], id, t);
    } else {
      FreedNeverFires(f', app, es[1..], id, t);
    }
  }

  /** The past of the trace is final. */
  lemma {:induction false} OldFirings(f: Flat, app: App, es: seq<Event>, id: nat, t: nat)
    requires FlatOk(f) && TracePast(f) && t <= f.now
    ensures Count(RunF(f, app, es).core.trace, id, t) == Count(f.core.trace, id, t)
    ensures TracePast(RunF(f, app, es))
    decreases |es|
  {
    if es != [] {
      StepOkF(f, app, es[0]);
      StepTrace(f, app, es[0], id, t);
      OldFirings(StepF(f, app, es[0]), app, es[1..], id, t);
    }
  }

  // ---- the same, said of the wheel

  lemma ResidentDue(w: Wheel, f: Flat, x: nat)
    requires InStep(w, f)
    ensures x in f.agenda.order <==> Resident(w.lay, x)
    ensures x in f.agenda.order ==> x in f.agenda.due && f.agenda.due[x] == DueOf(w.lay.size, PlaceOf(w.lay, x))
  {
    hide Now, DueOf, CoreOk, LayoutOk;
    AgreeMembers(w.lay, f.agenda, f.now + 1, x);
  }

  /** The slotted wheel with its early break fires in one tick exactly the resident elements due
      at it, once each. */
  lemma WheelTickFiresTheDue(w: Wheel, f: Flat, app: App)
    requires InStep(w, f)
    ensures NoDup(DueNext(f))
    ensures forall x :: x in DueNext(f) <==> Resident(w.lay, x) && DueOf(w.lay.size, PlaceOf(w.lay, x)) == Now(w) + 1
    ensures DoTick(w, app).core.trace == w.core.trace + Firings(DueNext(f), Now(w) + 1)
  {
    hide CoreOk, LayoutOk, Agree, DueOf, Resident, DueNext;
    TickTrace(f, app);
    DoTickInStep(w, f, app);
    forall x ensures x in f.agenda.order <==> Resident(w.lay, x)
             ensures x in f.agenda.order ==> f.agenda.due[x] == DueOf(w.lay.size, PlaceOf(w.lay, x)) {
      ResidentDue(w, f, x);
    }
  }

  /** Every wheel that an application can bring about has a flat schedule it is in step with. */
  lemma ReachedInStep(size: nat, tickMs: nat, app: App, es: seq<Event>)
    requires size > 0 && tickMs > 0
    ensures WheelOk(Init(size, tickMs)) && FlatOk(FlatInit(tickMs))
    ensures InStep(Run(Init(size, tickMs), app, es), RunF(FlatInit(tickMs), app, es))
    ensures TracePast(RunF(FlatInit(tickMs), app, es))
  {
    WheelRefinesFlat(size, tickMs, app, es);
    OldFirings(FlatInit(tickMs), app, es, 0, 0);
  }

  lemma PendingRegistered(c: Core, id: nat)
    requires CoreOk(c) && id in c.pending
    ensures id in c.info && InfoOk(c, id)
  {}

  /** What the wheel does with a waiting request when the next tick adopts it. */
  lemma WheelAdopts(w: Wheel, f: Flat, app: App, id: nat)
    requires InStep(w, f) && id in Fired(w, app).core.pending
    ensures id in Fired(w, app).core.info
    ensures var i, w' := Fired(w, app).core.info[id], DoTick(w, app);
            if i.op.Delete? then !Resident(w'.lay, id) && id !in w'.core.info
            else
              && Resident(w'.lay, id) && id in w'.core.info
              && w'.core.info[id] == Info(Scheduled, i.newInterval, i.newInterval, i.recurring)
              && DueOf(w'.lay.size, PlaceOf(w'.lay, id)) == Now(w) + 1 + Ticks(w.core.tickMs, i.newInterval)
  {
    hide CoreOk, LayoutOk, Agree, DueOf, Resident, Now, AgendaOk, BookedOk;
    FiredInStep(w, f, app);
    FiredOkF(f, app);
    PendingRegistered(FiredF(f, app).core, id);
    DrainMoves(FiredF(f, app), id);
    DoTickInStep(w, f, app);
    ResidentDue(DoTick(w, app), DoTickF(f, app), id);
  }

  lemma AdoptedElementFiresF(f: Flat, app: App, es: seq<Event>, id: nat, t: nat)
    requires FlatOk(f) && TracePast(f) && FlatOk(DoTickF(f, app))
    requires id in FiredF(f, app).core.pending && id in FiredF(f, app).core.info
        && !FiredF(f, app).core.info[id].op.Delete?
    requires Untouched(DoTickF(f, app), app, es, id) && f.now + 1 < t <= RunF(DoTickF(f, app), app, es).now
    ensures var i := FiredF(f, app).core.info[id];
            var k := Ticks(f.core.tickMs, i.newInterval);
            Count(RunF(DoTickF(f, app), app, es).core.trace, id, t) ==
              if FiresAt(t, f.now + 1 + k, k, i.recurring) then 1 else 0
  {
    hide FlatOkFrom, Untouched, TracePast, FiresAt, Ticks, Count, RunF;
    FiredOkF(f, app);
    DrainMoves(FiredF(f, app), id);
    DrainTickMs(FiredF(f, app));
    DrainOkF(FiredF(f, app), f.now + 2);
    StepTrace(f, app, Tick, id, t);
    FiringTimes(DoTickF(f, app), app, es, id, t);
  }

  /** From the tick `a` that adopts a create or reschedule of `k` ticks on, the element fires at
      a + k, and if it recurs at a + 2k, a + 3k and so on, up to and including the tick that adopts
      another request about it. */
  lemma AdoptedElementFires(w: Wheel, f: Flat, app: App, es: seq<Event>, id: nat, t: nat)
    requires InStep(w, f) && TracePast(f) && FlatOk(DoTickF(f, app)) && WheelOk(DoTick(w, app))
    requires id in Fired(w, app).core.pending && id in Fired(w, app).core.info
        && !Fired(w, app).core.info[id].op.Delete?
    requires Untouched(DoTickF(f, app), app, es, id)
    requires Now(w) + 1 < t <= Now(Run(DoTick(w, app), app, es))
    ensures var i := Fired(w, app).core.info[id];
            var k := Ticks(w.core.tickMs, i.newInterval);
            Count(Run(DoTick(w, app), app, es).core.trace, id, t) ==
              if FiresAt(t, Now(w) + 1 + k, k, i.recurring) then 1 else 0
  {
    hide WheelOk, FlatOk, Agree, Now, TracePast, FiresAt, Ticks, Untouched, Count;
    FiredInStep(w, f, app);
    DoTickInStep(w, f, app);
    RunInStep(DoTick(w, app), DoTickF(f, app), app, es);
    AdoptedElementFiresF(f, app, es, id, t);
  }

  /** After the tick that adopts a delete the element never fires again, whatever is called. */
  lemma AdoptedDeleteNeverFires(w: Wheel, f: Flat, app: App, es: seq<Event>, id: nat, t: nat)
    requires InStep(w, f) && TracePast(f) && FlatOk(DoTickF(f, app)) && WheelOk(DoTick(w, app))
    requires id in Fired(w, app).core.pending && id in Fired(w, app).core.info && Fired(w, app).core.info[id].op.Delete?
    requires Now(w) + 1 < t <= Now(Run(DoTick(w, app), app, es))
    ensures Count(Run(DoTick(w, app), app, es).core.trace, id, t) == 0
  {
    hide CoreOk, LayoutOk, Agree, DueOf, AgendaOk, BookedOk, TracePast, Count;
    FiredInStep(w, f, app);
    FiredOkF(f, app);
    PendingRegistered(FiredF(f, app).core, id);
    DrainMoves(FiredF(f, app), id);
    DrainTickMs(FiredF(f, app));
    StepTrace(f, app, Tick, id, t);
    StepOkF(f, app, Tick);
    DoTickInStep(w, f, app);
    RunInStep(DoTick(w, app), DoTickF(f, app), app, es);
    FreedNeverFires(DoTickF(f, app), app, es, id, t);
  }

  // ---- from the start of the program

  /** The wheel after the events `es`. */
  ghost function Reached(size: nat, tickMs: nat, app: App, es: seq<Event>): (w: Wheel)
    requires size > 0 && tickMs > 0
    ensures WheelOk(w)
  {
    InitOk(size, tickMs);
    RunOk(Init(size, tickMs), app, es);
    Run(Init(size, tickMs), app, es)
  }

  /** No request about `id` is adopted before the last tick of the events `es`. */
  ghost predicate NotAdopted(w: Wheel, app: App, es: seq<Event>, id: nat)
    requires WheelOk(w)
    decreases |es|
  {
    es == [] ||
    (StepOk(w, app, es[0]);
     && (es[0].Tick? && !NoTicks(es[1..]) ==> id !in Fired(w, app).core.pending)
     && NotAdopted(Step(w, app, es[0]), app, es[1..], id))
  }

  lemma {:induction false} UntouchedInStep(w: Wheel, f: Flat, app: App, es: seq<Event>, id: nat)
    requires InStep(w, f)
    ensures NotAdopted(w, app, es, id) <==> Untouched(f, app, es, id)
    decreases |es|
  {
    hide WheelOk, FlatOk, Agree, Now;
    if es != [] {
      StepInStep(w, f, app, es[0]);
      FiredInStep(w, f, app);
      StepOk(w, app, es[0]);
      StepOkF(f, app, es[0]);
      UntouchedInStep(Step(w, app, es[0]), StepF(f, app, es[0]), app, es[1..], id);
    }
  }

  lemma ReachedBoth(size: nat, tickMs: nat, app: App, es: seq<Event>) returns (f: Flat)
    requires size > 0 && tickMs > 0
    ensures InStep(Reached(size, tickMs, app, es), f) && TracePast(f)
    ensures FlatOk(DoTickF(f, app)) && WheelOk(DoTick(Reached(size, tickMs, app, es), app))
  {
    hide WheelOk, FlatOk, Agree, Now;
    ReachedInStep(size, tickMs, app, es);
    f := RunF(FlatInit(tickMs), app, es);
    StepOkF(f, app, Tick);
    DoTickInStep(Reached(size, tickMs, app, es), f, app);
  }

  /** Whatever happened before: a create or reschedule of `k` ticks that tick `a` adopts makes the
      element fire at a + k, and if it recurs at a + 2k, a + 3k and so on, once each and at no
      other tick, up to and including the tick that adopts a further request about it. */
  lemma RequestedElementFires(size: nat, tickMs: nat, app: App, before: seq<Event>, after: seq<Event>, id: nat, t: nat)
    requires size > 0 && tickMs > 0
    requires var w := Reached(size, tickMs, app, before);
             && id in Fired(w, app).core.pending && id in Fired(w, app).core.info
                && !Fired(w, app).core.info[id].op.Delete?
             && WheelOk(DoTick(w, app)) && NotAdopted(DoTick(w, app), app, after, id)
             && Now(w) + 1 < t <= Now(Run(DoTick(w, app), app, after))
    ensures var w := Reached(size, tickMs, app, before);
            var i := Fired(w, app).core.info[id];
            var k := Ticks(w.core.tickMs, i.newInterval);
            Count(Run(DoTick(w, app), app, after).core.trace, id, t) ==
              if FiresAt(t, Now(w) + 1 + k, k, i.recurring) then 1 else 0
  {
    hide WheelOk, FlatOk, Agree, Now, Reached, FiresAt, Ticks, Count, Run, TracePast;
    var w := Reached(size, tickMs, app, before);
    var f := ReachedBoth(size, tickMs, app, before);
    DoTickInStep(w, f, app);
    UntouchedInStep(DoTick(w, app), DoTickF(f, app), app, after, id);
    AdoptedElementFires(w, f, app, after, id, t);
  }

  /** And a delete that a tick adopts is final. */
  lemma DeletedElementIsSilent(size: nat, tickMs: nat, app: App, before: seq<Event>, after: seq<Event>, id: nat, t: nat)
    requires size > 0 && tickMs > 0
    requires var w := Reached(size, tickMs, app, before);
             && id in Fired(w, app).core.pending && id in Fired(w, app).core.info
                && Fired(w, app).core.info[id].op.Delete?
             && WheelOk(DoTick(w, app)) && Now(w) + 1 < t <= Now(Run(DoTick(w, app), app, after))
    ensures var w := Reached(size, tickMs, app, before);
            Count(Run(DoTick(w, app), app, after).core.trace, id, t) == 0
  {
    hide WheelOk, FlatOk, Agree, Now, Reached, Count, Run, TracePast;
    var f := ReachedBoth(size, tickMs, app, before);
    AdoptedDeleteNeverFires(Reached(size, tickMs, app, before), f, app, after, id, t);
  }

  // ---- remaining time

  /** On the flat schedule, for an element that is booked and waits for nothing. */
  function RemainingF(f: Flat, id: nat): int
    requires id in f.agenda.due
  {
    (f.agenda.due[id] - f.now) * f.core.tickMs
  }

  lemma RemainingSame(w: Wheel, f: Flat, id: nat)
    requires InStep(w, f) && id in f.agenda.order && id !in f.core.pending
    ensures id in w.core.info && id in f.agenda.due && Remaining(w, id) == RemainingF(f, id)
  {
    ResidentDue(w, f, id);
    assert InfoOk(f.core, id);
  }

  lemma RemainingTimeF(f: Flat, app: App, id: nat)
    requires FlatOk(f) && id in f.agenda.order && id !in FiredF(f, app).core.pending
    ensures id in f.agenda.due && id in f.core.info && RemainingF(f, id) >= f.core.tickMs
    ensures RemainingF(f, id) > f.core.tickMs <==> f.agenda.due[id] > f.now + 1
    ensures var f' := DoTickF(f, app);
            if f.agenda.due[id] > f.now + 1 then
              id in f'.agenda.order && id in f'.agenda.due && RemainingF(f', id) == RemainingF(f, id) - f.core.tickMs
            else if f.core.info[id].recurring then
              id in f'.agenda.order && id in f'.agenda.due && RemainingF(f', id) == f.core.info[id].interval
            else id !in f'.agenda.order
  {
    hide CoreOk, BookedOk, Ticks;
    BookedInfo(f, id);
    TickUntouched(f, app, id);
    TickTrace(f, app);
    Scale(f.agenda.due[id] - f.now, f.core.tickMs);
  }

  lemma BookedInfo(f: Flat, id: nat)
    requires FlatOk(f) && id in f.agenda.order
    ensures id in f.core.info && f.core.tickMs > 0
    ensures Ticks(f.core.tickMs, f.core.info[id].interval) * f.core.tickMs == f.core.info[id].interval
  {
    TicksPositive(f.core.tickMs, f.core.info[id].interval);
  }

  lemma Scale(a: int, n: nat)
    requires n > 0 && a >= 1
    ensures a * n >= n && (a > 1 <==> a * n > n)
    ensures (a - 1) * n == a * n - n
  {}

  /** For a resident element nobody has asked anything about, the remaining time is positive
      between ticks, goes down by one tick interval per tick, and is the whole interval again
      after a recurring firing. */
  lemma RemainingTime(w: Wheel, f: Flat, app: App, id: nat)
    requires InStep(w, f) && id in w.core.info && Resident(w.lay, id) && id !in Fired(w, app).core.pending
    ensures id in DoTick(w, app).core.info
    ensures Remaining(w, id) >= w.core.tickMs
    ensures if Remaining(w, id) > w.core.tickMs then
              Resident(DoTick(w, app).lay, id) && Remaining(DoTick(w, app), id) == Remaining(w, id) - w.core.tickMs
            else if w.core.info[id].recurring then
              Resident(DoTick(w, app).lay, id) && Remaining(DoTick(w, app), id) == w.core.info[id].interval
            else !Resident(DoTick(w, app).lay, id)
  {
    hide CoreOk, LayoutOk, Agree, DueOf, Now, Resident, AgendaOk, BookedOk, Remaining, RemainingF;
    var w', f' := DoTick(w, app), DoTickF(f, app);
    FiredInStep(w, f, app);
    DoTickInStep(w, f, app);
    ResidentDue(w, f, id);
    ResidentDue(w', f', id);
    RemainingTimeF(f, app, id);
    TickUntouched(f, app, id);
    if id in f.core.pending {
      FiredPending(f, app, id);
    }
    RemainingSame(w, f, id);
    if id in f'.agenda.order {
      RemainingSame(w', f', id);
    }
  }

  /** Callbacks take nothing out of the reschedule list. */
  lemma FiredPending(f: Flat, app: App, id: nat)
    requires FlatOk(f) && id in f.core.pending
    ensures id in FiredF(f, app).core.pending
  {
    hide CoreOk, BookedOk, AgendaOk, DueNext;
    DueNextOk(f);
    FireAllTrace(f.(now := f.now + 1), app, DueNext(f), f.now + 1);
  }
}
