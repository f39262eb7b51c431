/** The timer wheel as a value: a clock of `size` slots and cycles, the slot lists, and the
    state shared with the application.  Every step here is the meaning of a method of the
    class in WheelTimer.dfy. */
module WheelModel {
  import opened Sequences
  import opened TimerApi
  import opened Layouts

  datatype Wheel = Wheel(tic: nat, cycle: nat, lay: Layout, core: Core)

  datatype Event = Tick | Call(r: Request)

  /** The absolute slot number, that is, the number of ticks so far. */
  function Now(w: Wheel): nat {
    DueOf(w.lay.size, Place(w.cycle, w.tic))
  }

  function Init(size: nat, tickMs: nat): Wheel {
    Wheel(0, 0, Layout(size, seq(size, _ => []), map[]), Core(tickMs, map[], [], 0, []))
  }

  predicate Shape(w: Wheel) {
    w.lay.size > 0 && |w.lay.slots| == w.lay.size && w.tic < w.lay.size
  }

  function Advance(w: Wheel): Wheel {
    if w.tic + 1 == w.lay.size then w.(tic := 0, cycle := w.cycle + 1) else w.(tic := w.tic + 1)
  }

  /** Run the callback of `id`, then relink it if it recurs and unlink it otherwise.  The
      recurrence flag and the interval in use are not writable by a callback. */
  function FireOne(w: Wheel, app: App, id: nat): (r: Wheel)
    requires Shape(w) && id in w.core.info
    ensures Shape(r) && w.core.info.Keys <= r.core.info.Keys
  {
    var i := w.core.info[id];
    w.(core := Callback(w.core, app, id, Now(w)),
       lay := Relink(w.lay, id, i.recurring, Now(w) + Ticks(w.core.tickMs, i.interval)))
  }

  function FireAll(w: Wheel, app: App, ids: seq<nat>): (r: Wheel)
    requires Shape(w) && forall id | id in ids :: id in w.core.info
    ensures Shape(r) && w.core.info.Keys <= r.core.info.Keys
    decreases |ids|
  {
    if ids == [] then w
    else
      var w' := FireOne(w, app, ids[0]);
      FireAll(w', app, ids[1..])
  }

  /** One round of the loop over the reschedule list. */
  function AdoptOne(w: Wheel): (r: Wheel)
    requires Shape(w) && w.core.pending != [] && w.core.pending[0] in w.core.info
    ensures Shape(r)
  {
    var id := w.core.pending[0];
    var i := w.core.info[id];
    w.(core := Adopt(w.core),
       lay := Relink(w.lay, id, !i.op.Delete?, Now(w) + Ticks(w.core.tickMs, i.newInterval)))
  }

  ghost function Drain(w: Wheel): Wheel
    requires Shape(w) && CoreOk(w.core)
    decreases |w.core.pending|
  {
    if w.core.pending == [] then w
    else
      AdoptOk(w.core);
      Drain(AdoptOne(w))
  }

  /** The clock has moved and the callbacks of this tick have run; the requests still wait. */
  ghost function Fired(w: Wheel, app: App): Wheel
    requires WheelOk(w)
  {
    var w1 := Advance(w);
    AdvanceNow(w);
    assert SlotOk(w.lay, w1.tic, Now(w) + 1);
    ThisCycleElems(w.lay.slots[w1.tic], w.lay.place, w1.cycle);
    FireAll(w1, app, ThisCycle(w1.lay.slots[w1.tic], w1.lay.place, w1.cycle))
  }

  /** `wheel_fn`. */
  ghost function DoTick(w: Wheel, app: App): Wheel
    requires WheelOk(w)
  {
    FiredOk(w, app);
    Drain(Fired(w, app))
  }

  ghost function Step(w: Wheel, app: App, e: Event): Wheel
    requires WheelOk(w)
  {
    match e
    case Tick => DoTick(w, app)
    case Call(r) => if Allowed(w.core, r) then w.(core := Post(w.core, r)) else w
  }

  ghost function Run(w: Wheel, app: App, es: seq<Event>): Wheel
    requires WheelOk(w)
    decreases |es|
  {
    if es == [] then w
    else
      StepOk(w, app, es[0]);
      Run(Step(w, app, es[0]), app, es[1..])
  }

  /** `wt_get_remaining_time`. */
  function Remaining(w: Wheel, id: nat): int
    requires id in w.core.info
  {
    var i := w.core.info[id];
    if i.op.Create? || i.op.Resched? then i.newInterval
    else (DueOf(w.lay.size, PlaceOf(w.lay, id)) - Now(w)) * w.core.tickMs
  }

  // ---- the wheel invariant

  ghost predicate Resident(l: Layout, id: nat) {
    exists i: nat :: i < |l.slots| && id in l.slots[i]
  }

  ghost predicate ResidentsOk(l: Layout, c: Core) {
    forall i: nat, id | i < |l.slots| && id in l.slots[i] ::
      id in c.info && LegalInterval(c.tickMs, c.info[id].interval)
  }

  ghost predicate WheelOkFrom(w: Wheel, from: nat) {
    Shape(w) && CoreOk(w.core) && LayoutOk(w.lay, from) && ResidentsOk(w.lay, w.core)
  }

  /** Between ticks nothing scheduled is in the past, and nothing is due now any more. */
  ghost predicate WheelOk(w: Wheel) {
    WheelOkFrom(w, Now(w) + 1)
  }

  lemma AdvanceNow(w: Wheel)
    requires Shape(w)
    ensures Shape(Advance(w)) && Now(Advance(w)) == Now(w) + 1
  {}

  lemma {:induction false} ThisCycleElems(s: seq<nat>, place: map<nat, Place>, cycle: nat)
    ensures ThisCycle(s, place, cycle) <= s
  {
    if s != [] && CycleOf(place, s[0]) == cycle {
      ThisCycleElems(s[1..], place, cycle);
    }
  }

  lemma RelinkResidents(l: Layout, c: Core, c': Core, id: nat, again: bool, due: nat)
    requires l.size > 0 && |l.slots| == l.size && ResidentsOk(l, c) && c'.tickMs == c.tickMs
    requires forall x | x in c.info && x != id :: x in c'.info && c'.info[x].interval == c.info[x].interval
    requires again ==> id in c'.info && LegalInterval(c'.tickMs, c'.info[id].interval)
    ensures ResidentsOk(Relink(l, id, again, due), c')
  {
    if again {
      InsertElems(RemoveAll(l.slots, id)[due % l.size], l.place[id := Place(due / l.size, due % l.size)], id);
    }
  }

  lemma TicksPositive(tickMs: nat, ms: nat)
    requires LegalInterval(tickMs, ms)
    ensures Ticks(tickMs, ms) >= 1 && Ticks(tickMs, ms) * tickMs == ms
  {}

  lemma NewIntervalOk(c: Core)
    requires CoreOk(c) && c.pending != []
    ensures c.pending[0] in c.info
    ensures !c.info[c.pending[0]].op.Delete? ==> Ticks(c.tickMs, c.info[c.pending[0]].newInterval) >= 1
  {
    assert InfoOk(c, c.pending[0]);
  }

  lemma FireOneOk(w: Wheel, app: App, id: nat, from: nat)
    requires WheelOkFrom(w, from) && from <= Now(w) + 1
    requires id in w.core.info && LegalInterval(w.core.tickMs, w.core.info[id].interval)
    ensures WheelOkFrom(FireOne(w, app, id), from)
    ensures Extends(w.core, FireOne(w, app, id).core) && Now(FireOne(w, app, id)) == Now(w)
  {
    hide Put, Unlink, ResidentsOk, LayoutOk, CoreOk;
    var i, w' := w.core.info[id], FireOne(w, app, id);
    var due := Now(w) + Ticks(w.core.tickMs, i.interval);
    CallbackOk(w.core, app, id, Now(w));
    TicksPositive(w.core.tickMs, i.interval);
    RelinkOk(w.lay, id, i.recurring, due, from);
    RelinkResidents(w.lay, w.core, w'.core, id, i.recurring, due);
  }

  lemma {:induction false} FireAllOk(w: Wheel, app: App, ids: seq<nat>, from: nat)
    requires WheelOkFrom(w, from) && from <= Now(w) + 1
    requires forall id | id in ids :: id in w.core.info && LegalInterval(w.core.tickMs, w.core.info[id].interval)
    ensures WheelOkFrom(FireAll(w, app, ids), from)
    ensures Extends(w.core, FireAll(w, app, ids).core) && Now(FireAll(w, app, ids)) == Now(w)
    decreases |ids|
  {
    if ids != [] {
      FireOneOk(w, app, ids[0], from);
      FireAllOk(FireOne(w, app, ids[0]), app, ids[1..], from);
    }
  }

  lemma AdoptOneOk(w: Wheel, from: nat)
    requires WheelOkFrom(w, from) && from <= Now(w) + 1 && w.core.pending != []
    ensures WheelOkFrom(AdoptOne(w), from) && Now(AdoptOne(w)) == Now(w)
  {
    hide Put, Unlink, ResidentsOk, LayoutOk, CoreOk;
    NewIntervalOk(w.core);
    var id, c, c' := w.core.pending[0], w.core, Adopt(w.core);
    var due := Now(w) + Ticks(c.tickMs, c.info[id].newInterval);
    AdoptOk(c);
    RelinkOk(w.lay, id, !c.info[id].op.Delete?, due, from);
    RelinkResidents(w.lay, c, c', id, !c.info[id].op.Delete?, due);
  }

  lemma {:induction false} DrainOk(w: Wheel, from: nat)
    requires WheelOkFrom(w, from) && from <= Now(w) + 1
    ensures WheelOkFrom(Drain(w), from) && Now(Drain(w)) == Now(w) && Drain(w).core.pending == []
    decreases |w.core.pending|
  {
    if w.core.pending != [] {
      AdoptOk(w.core);
      AdoptOneOk(w, from);
      DrainOk(AdoptOne(w), from);
    }
  }

  /** Everything resident and due by `now` is still to be fired. */
  ghost predicate DueIsIn(l: Layout, now: nat, ids: seq<nat>) {
    forall i: nat, id | i < |l.slots| && id in l.slots[i] && id in l.place
        && DueOf(l.size, l.place[id]) <= now :: id in ids
  }

  lemma FireOneLeaves(w: Wheel, app: App, ids: seq<nat>, from: nat)
    requires WheelOkFrom(w, from) && from <= Now(w) && ids != [] && ids[0] in w.core.info
    requires LegalInterval(w.core.tickMs, w.core.info[ids[0]].interval)
    requires DueIsIn(w.lay, Now(w), ids)
    ensures DueIsIn(FireOne(w, app, ids[0]).lay, Now(w), ids[1..])
  {
    hide CoreOk, Callback, InsertByCycle;
    var id, l' := ids[0], FireOne(w, app, ids[0]).lay;
    var due := Now(w) + Ticks(w.core.tickMs, w.core.info[id].interval);
    TicksPositive(w.core.tickMs, w.core.info[id].interval);
    SplitDue(w.lay.size, due);
    forall i: nat, x | i < |l'.slots| && x in l'.slots[i] && x in l'.place && DueOf(l'.size, l'.place[x]) <= Now(w)
      ensures x in ids[1..]
    {
      if w.core.info[id].recurring {
        InsertElems(RemoveAll(w.lay.slots, id)[due % w.lay.size], l'.place, id);
      }
      assert x != id && x in w.lay.slots[i];
    }
  }

  lemma {:induction false} FireAllLeaves(w: Wheel, app: App, ids: seq<nat>, from: nat)
    requires WheelOkFrom(w, from) && from <= Now(w)
    requires forall id | id in ids :: id in w.core.info && LegalInterval(w.core.tickMs, w.core.info[id].interval)
    requires DueIsIn(w.lay, Now(w), ids)
    ensures DueIsIn(FireAll(w, app, ids).lay, Now(w), [])
    decreases |ids|
  {
    if ids != [] {
      FireOneOk(w, app, ids[0], from);
      FireOneLeaves(w, app, ids, from);
      FireAllLeaves(FireOne(w, app, ids[0]), app, ids[1..], from);
    }
  }

  ghost function DueOfAll(l: Layout): map<nat, nat> {
    map id | id in l.place :: DueOf(l.size, l.place[id])
  }

  /** The elements the loop of `wheel_fn` reaches are exactly the resident ones due at this tick. */
  lemma FiringList(w: Wheel)
    requires WheelOk(w)
    ensures var w1 := Advance(w);
            var ids := ThisCycle(w1.lay.slots[w1.tic], w1.lay.place, w1.cycle);
            && ids == AtDue(w1.lay.slots[w1.tic], DueOfAll(w.lay), Now(w) + 1)
            && DueIsIn(w1.lay, Now(w1), ids)
            && (forall id | id in ids :: id in w.core.info && LegalInterval(w.core.tickMs, w.core.info[id].interval))
  {
    var w1, due := Advance(w), DueOfAll(w.lay);
    AdvanceNow(w);
    var s := w1.lay.slots[w1.tic];
    var ids := ThisCycle(s, w1.lay.place, w1.cycle);
    assert SlotOk(w.lay, w1.tic, Now(w) + 1);
    ThisCycleIsDueNow(s, w1.lay.place, due, w.lay.size, w1.tic, w1.cycle);
    forall i: nat, id | i < |w1.lay.slots| && id in w1.lay.slots[i] && id in w1.lay.place
        && DueOf(w.lay.size, w1.lay.place[id]) <= Now(w1)
      ensures id in ids
    {
      assert SlotOk(w.lay, i, Now(w) + 1);
      PlaceUnique(w.lay.size, w.lay.place[id]);
      PlaceUnique(w.lay.size, Place(w1.cycle, w1.tic));
    }
  }

  lemma NothingLeftDue(l: Layout, now: nat)
    requires LayoutOk(l, now) && DueIsIn(l, now, [])
    ensures LayoutOk(l, now + 1)
  {
    var next := now + 1;
    forall i: nat | i < l.size ensures SlotOk(l, i, next) {
      assert SlotOk(l, i, now);
      forall id | id in l.slots[i] ensures now < DueOf(l.size, l.place[id]) {
        assert id !in [];
      }
    }
  }

  lemma FiredOk(w: Wheel, app: App)
    requires WheelOk(w)
    ensures WheelOk(Fired(w, app)) && Now(Fired(w, app)) == Now(w) + 1
    ensures Extends(w.core, Fired(w, app).core)
  {
    var w1, w' := Advance(w), Fired(w, app);
    AdvanceNow(w);
    FiringList(w);
    var ids := ThisCycle(w1.lay.slots[w1.tic], w1.lay.place, w1.cycle);
    FireAllOk(w1, app, ids, Now(w1));
    FireAllLeaves(w1, app, ids, Now(w1));
    NothingLeftDue(w'.lay, Now(w1));
  }

  lemma DoTickOk(w: Wheel, app: App)
    requires WheelOk(w)
    ensures WheelOk(DoTick(w, app)) && Now(DoTick(w, app)) == Now(w) + 1 && DoTick(w, app).core.pending == []
  {
    FiredOk(w, app);
    DrainOk(Fired(w, app), Now(w) + 2);
  }

  /** Every tick and every API call keeps the wheel invariant. */
  lemma StepOk(w: Wheel, app: App, e: Event)
    requires WheelOk(w)
    ensures WheelOk(Step(w, app, e))
    ensures Now(Step(w, app, e)) == Now(w) + if e.Tick? then 1 else 0
  {
    match e
    case Tick => DoTickOk(w, app);
    case Call(r) =>
      if Allowed(w.core, r) {
        PostOk(w.core, r);
      }
  }

  lemma InitOk(size: nat, tickMs: nat)
    requires size > 0 && tickMs > 0
    ensures WheelOk(Init(size, tickMs))
  {
    var w := Init(size, tickMs);
    forall i: nat | i < size ensures SlotOk(w.lay, i, 1) {
      assert w.lay.slots[i] == [];
    }
  }

  lemma {:induction false} RunOk(w: Wheel, app: App, es: seq<Event>)
    requires WheelOk(w)
    ensures WheelOk(Run(w, app, es))
    decreases |es|
  {
    if es != [] {
      StepOk(w, app, es[0]);
      RunOk(Step(w, app, es[0]), app, es[1..]);
    }
  }

  // ---- walking the slot while it is being relinked

  lemma {:induction false} ThisCycleEnd(s: seq<nat>, place: map<nat, Place>, cycle: nat)
    ensures |ThisCycle(s, place, cycle)| < |s| ==> CycleOf(place, s[|ThisCycle(s, place, cycle)|]) != cycle
    ensures ThisCycle(s, place, cycle) <= s
  {
    if s != [] && CycleOf(place, s[0]) == cycle {
      ThisCycleEnd(s[1..], place, cycle);
    }
  }

  lemma DueNowBucket(w: Wheel)
    requires WheelOkFrom(w, Now(w))
    ensures ThisCycle(w.lay.slots[w.tic], w.lay.place, w.cycle) == AtDue(w.lay.slots[w.tic], DueOfAll(w.lay), Now(w))
  {
    assert SlotOk(w.lay, w.tic, Now(w));
    ThisCycleIsDueNow(w.lay.slots[w.tic], w.lay.place, DueOfAll(w.lay), w.lay.size, w.tic, w.cycle);
  }

  /** An element that is linked comes last among those due at the same tick; for the other ticks only
      its old place is gone. */
  lemma LinkedLast(l: Layout, id: nat, due: nat, from: nat, i: nat, d: nat)
    requires LayoutOk(l, from) && i < l.size && from <= due
    ensures AtDue(Put(l, id, due).slots[i], DueOfAll(Put(l, id, due)), d) ==
            Without(AtDue(l.slots[i], DueOfAll(l), d), id) + if d == due && i == due % l.size then [id] else []
  {
    hide InsertByCycle, Without;
    var l', s := Put(l, id, due), Without(l.slots[i], id);
    SplitDue(l.size, due);
    assert DueOfAll(l') == DueOfAll(l)[id := due];
    AtDueWithout(l.slots[i], DueOfAll(l), d, id);
    AtDueFrame(s, DueOfAll(l), id, due, d);
    if i == due % l.size {
      UnlinkOk(l, id, from);
      assert SlotOk(Unlink(l, id), i, from);
      assert Sorted(s, l'.place);
      AtDueInsert(s, l'.place, DueOfAll(l'), l.size, i, id, d);
    }
  }

  lemma UnlinkBucket(l: Layout, id: nat, i: nat, d: nat)
    requires i < |l.slots|
    ensures AtDue(Unlink(l, id).slots[i], DueOfAll(Unlink(l, id)), d) == Without(AtDue(l.slots[i], DueOfAll(l), d), id)
  {
    AtDueWithout(l.slots[i], DueOfAll(l), d, id);
  }

  /** Relinking the element just fired, even into the list being walked, leaves the elements
      still to fire in this tick as they were. */
  lemma NextToFire(w: Wheel, app: App, ids: seq<nat>)
    requires WheelOkFrom(w, Now(w)) && ids != []
    requires ids == ThisCycle(w.lay.slots[w.tic], w.lay.place, w.cycle)
    requires ids[0] in w.core.info && LegalInterval(w.core.tickMs, w.core.info[ids[0]].interval)
    ensures var w' := FireOne(w, app, ids[0]);
            ThisCycle(w'.lay.slots[w'.tic], w'.lay.place, w'.cycle) == ids[1..]
  {
    hide Put, Unlink, CoreOk, ResidentsOk, AtDue, ThisCycle, DueOfAll, Callback, DueOf, LegalInterval;
    var w', id, i := FireOne(w, app, ids[0]), ids[0], w.core.info[ids[0]];
    var due := Now(w) + Ticks(w.core.tickMs, i.interval);
    TicksPositive(w.core.tickMs, i.interval);
    FireOneOk(w, app, id, Now(w));
    DueNowBucket(w);
    DueNowBucket(w');
    if i.recurring {
      LinkedLast(w.lay, id, due, Now(w), w.tic, Now(w));
    } else {
      UnlinkBucket(w.lay, id, w.tic, Now(w));
    }
    FirstOnly(w, ids);
  }

  lemma FirstOnly(w: Wheel, ids: seq<nat>)
    requires WheelOkFrom(w, Now(w)) && ids != []
    requires ids == ThisCycle(w.lay.slots[w.tic], w.lay.place, w.cycle)
    ensures Without(ids, ids[0]) == ids[1..]
  {
    assert SlotOk(w.lay, w.tic, Now(w));
    ThisCycleEnd(w.lay.slots[w.tic], w.lay.place, w.cycle);
    WithoutAt(ids, 0);
    assert ids[..0] + ids[1..] == ids[1..];
  }

  lemma FirstInSlot(w: Wheel, ids: seq<nat>)
    requires WheelOkFrom(w, Now(w)) && ids == ThisCycle(w.lay.slots[w.tic], w.lay.place, w.cycle)
    ensures var s := w.lay.slots[w.tic];
            && (ids != [] ==> s != [] && s[0] == ids[0] && s[0] in w.core.info && PlaceOf(w.lay, s[0]).cycle == w.cycle)
            && (ids == [] && s != [] ==> s[0] in w.core.info && PlaceOf(w.lay, s[0]).cycle != w.cycle)
  {
    hide CoreOk;
    var s := w.lay.slots[w.tic];
    assert SlotOk(w.lay, w.tic, Now(w));
    if s != [] {
      assert s[0] in s;
    }
  }

  /** The node after the one being fired: the next to fire, or else one of another cycle, which
      it still is after the firing. */
  lemma SecondInSlot(w: Wheel, app: App, ids: seq<nat>)
    requires WheelOkFrom(w, Now(w)) && ids != [] && ids[0] in w.core.info
    requires ids == ThisCycle(w.lay.slots[w.tic], w.lay.place, w.cycle)
    ensures var s, w' := w.lay.slots[w.tic], FireOne(w, app, ids[0]);
            && s != [] && s[0] == ids[0]
            && (|ids| > 1 ==> |s| > 1 && s[1] == ids[1])
            && (|ids| == 1 && |s| > 1 ==> s[1] in w'.core.info && PlaceOf(w'.lay, s[1]).cycle != w.cycle)
  {
    hide Callback, CoreOk, InsertByCycle;
    var s := w.lay.slots[w.tic];
    assert SlotOk(w.lay, w.tic, Now(w));
    ThisCycleEnd(s, w.lay.place, w.cycle);
    if |ids| == 1 && |s| > 1 {
      assert s[1] in s && s[1] != s[0];
    }
  }
}
