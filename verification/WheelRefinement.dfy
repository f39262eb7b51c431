/** The wheel and the flat schedule go through every run in step. */
module WheelRefinement {
  import opened Sequences
  import opened TimerApi
  import opened Layouts
  import opened WheelModel
  import opened FlatSchedule

  ghost predicate InStepFrom(w: Wheel, f: Flat, from: nat) {
    && Shape(w)
    && f.core == w.core
    && f.now == Now(w)
    && Agree(w.lay, f.agenda, from)
  }

  ghost predicate InStep(w: Wheel, f: Flat) {
    WheelOk(w) && FlatOk(f) && InStepFrom(w, f, f.now + 1)
  }

  /** Replacing both layouts at once, the clocks standing still. */
  lemma Relayout(w: Wheel, f: Flat, w': Wheel, f': Flat, from: nat)
    requires Shape(w) && f.now == Now(w) && Agree(w'.lay, f'.agenda, from) && f'.core == w'.core
    requires w'.tic == w.tic && w'.cycle == w.cycle && w'.lay.size == w.lay.size && f'.now == f.now
    ensures InStepFrom(w', f', from)
  {}

  lemma FireOneInStep(w: Wheel, f: Flat, app: App, id: nat, from: nat)
    requires InStepFrom(w, f, from) && from <= f.now && id in w.core.info
    ensures InStepFrom(FireOne(w, app, id), FireOneF(f, app, id), from)
  {
    hide Put, Agree, Now;
    var due := f.now + Ticks(w.core.tickMs, w.core.info[id].interval);
    RelinkAgree(w.lay, f.agenda, id, w.core.info[id].recurring, due, from);
    Relayout(w, f, FireOne(w, app, id), FireOneF(f, app, id), from);
  }

  lemma {:induction false} FireAllInStep(w: Wheel, f: Flat, app: App, ids: seq<nat>, from: nat)
    requires InStepFrom(w, f, from) && from <= f.now
    requires forall id | id in ids :: id in w.core.info
    ensures InStepFrom(FireAll(w, app, ids), FireAllF(f, app, ids), from)
    decreases |ids|
  {
    if ids != [] {
      FireOneInStep(w, f, app, ids[0], from);
      FireAllInStep(FireOne(w, app, ids[0]), FireOneF(f, app, ids[0]), app, ids[1..], from);
    }
  }

  lemma FiredInStep(w: Wheel, f: Flat, app: App)
    requires InStep(w, f)
    ensures InStep(Fired(w, app), FiredF(f, app))
  {
    hide FireAll, FireAllF;
    var w1, f1 := Advance(w), f.(now := f.now + 1);
    AdvanceNow(w);
    FiringList(w);
    assert DueOfAll(w.lay) == f.agenda.due;
    PlaceUnique(w.lay.size, Place(w1.cycle, w1.tic));
    assert ThisCycle(w1.lay.slots[w1.tic], w1.lay.place, w1.cycle) == DueNext(f);
    FireAllInStep(w1, f1, app, DueNext(f), f1.now);
    FiredOk(w, app);
    FiredOkF(f, app);
  }

  lemma AdoptOneInStep(w: Wheel, f: Flat, from: nat)
    requires InStepFrom(w, f, from) && from <= f.now + 1
    requires CoreOk(w.core) && w.core.pending != []
    ensures InStepFrom(AdoptOne(w), AdoptOneF(f), from)
  {
    hide Put, Agree, Now, CoreOk, Adopt, Ticks;
    NewIntervalOk(w.core);
    var id := w.core.pending[0];
    var due := f.now + Ticks(w.core.tickMs, w.core.info[id].newInterval);
    RelinkAgree(w.lay, f.agenda, id, !w.core.info[id].op.Delete?, due, from);
    Relayout(w, f, AdoptOne(w), AdoptOneF(f), from);
  }

  lemma {:induction false} DrainInStep(w: Wheel, f: Flat, from: nat)
    requires InStepFrom(w, f, from) && from <= f.now + 1 && CoreOk(w.core)
    ensures InStepFrom(Drain(w), DrainF(f), from)
    decreases |w.core.pending|
  {
    if w.core.pending != [] {
      AdoptOk(w.core);
      AdoptOneInStep(w, f, from);
      DrainInStep(AdoptOne(w), AdoptOneF(f), from);
    }
  }

  lemma DoTickAgree(w: Wheel, f: Flat, app: App)
    requires InStep(w, f)
    ensures InStepFrom(DoTick(w, app), DoTickF(f, app), f.now + 2)
  {
    FiredInStep(w, f, app);
    FiredOkF(f, app);
    var w1, f1, from := Fired(w, app), FiredF(f, app), f.now + 2;
    assert InStepFrom(w1, f1, from);
    DrainInStep(w1, f1, from);
    assert DoTick(w, app) == Drain(w1) && DoTickF(f, app) == DrainF(f1);
  }

  lemma DoTickInStep(w: Wheel, f: Flat, app: App)
    requires InStep(w, f)
    ensures InStep(DoTick(w, app), DoTickF(f, app))
  {
    var w', f' := DoTick(w, app), DoTickF(f, app);
    DoTickOk(w, app);
    StepOkF(f, app, Tick);
    assert InStepFrom(w', f', f'.now + 1) by {
      DoTickAgree(w, f, app);
    }
  }

  lemma CallInStep(w: Wheel, f: Flat, r: Request)
    requires InStep(w, f) && Allowed(w.core, r)
    ensures InStep(w.(core := Post(w.core, r)), f.(core := Post(f.core, r)))
  {
    PostOk(w.core, r);
  }

  lemma StepInStep(w: Wheel, f: Flat, app: App, e: Event)
    requires InStep(w, f)
    ensures InStep(Step(w, app, e), StepF(f, app, e))
  {
    match e
    case Tick => DoTickInStep(w, f, app);
    case Call(r) =>
      if Allowed(w.core, r) {
        CallInStep(w, f, r);
      }
  }

  lemma {:induction false} RunInStep(w: Wheel, f: Flat, app: App, es: seq<Event>)
    requires InStep(w, f)
    ensures InStep(Run(w, app, es), RunF(f, app, es))
    decreases |es|
  {
    if es != [] {
      StepInStep(w, f, app, es[0]);
      RunInStep(Step(w, app, es[0]), StepF(f, app, es[0]), app, es[1..]);
    }
  }

  /** Whatever the application does, a wheel of any size runs in step with the flat schedule. */
  lemma WheelRefinesFlat(size: nat, tickMs: nat, app: App, es: seq<Event>)
    requires size > 0 && tickMs > 0
    ensures WheelOk(Init(size, tickMs)) && FlatOk(FlatInit(tickMs))
    ensures InStep(Run(Init(size, tickMs), app, es), RunF(FlatInit(tickMs), app, es))
  {
    RunInStep(Init(size, tickMs), FlatInit(tickMs), app, es);
  }

  /** The size of the wheel cannot be told from what fires, when, or in which order. */
  lemma WheelSizeIndependence(size1: nat, size2: nat, tickMs: nat, app: App, es: seq<Event>)
    requires size1 > 0 && size2 > 0 && tickMs > 0
    ensures WheelOk(Init(size1, tickMs)) && WheelOk(Init(size2, tickMs))
    ensures Run(Init(size1, tickMs), app, es).core == Run(Init(size2, tickMs), app, es).core
    ensures Now(Run(Init(size1, tickMs), app, es)) == Now(Run(Init(size2, tickMs), app, es))
  {
    WheelRefinesFlat(size1, tickMs, app, es);
    WheelRefinesFlat(size2, tickMs, app, es);
  }
}
