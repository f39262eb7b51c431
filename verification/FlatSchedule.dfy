/** The timer without a wheel: one list of elements in the order they were scheduled, each with
    the tick it is due at.  This is the specification the wheel is held against; it has no
    slots, no cycles and no early break. */
module FlatSchedule {
  import opened Sequences
  import opened TimerApi
  import opened Layouts
  import opened WheelModel

  datatype Flat = Flat(now: nat, agenda: Agenda, core: Core)

  function FlatInit(tickMs: nat): Flat {
    Flat(0, Agenda([], map[]), Core(tickMs, map[], [], 0, []))
  }

  function FireOneF(f: Flat, app: App, id: nat): (r: Flat)
    requires id in f.core.info
    ensures f.core.info.Keys <= r.core.info.Keys
  {
    var i := f.core.info[id];
    f.(core := Callback(f.core, app, id, f.now),
       agenda := Rebook(f.agenda, id, i.recurring, f.now + Ticks(f.core.tickMs, i.interval)))
  }

  function FireAllF(f: Flat, app: App, ids: seq<nat>): (r: Flat)
    requires forall id | id in ids :: id in f.core.info
    ensures f.core.info.Keys <= r.core.info.Keys
    decreases |ids|
  {
    if ids == [] then f
    else
      var f' := FireOneF(f, app, ids[0]);
      FireAllF(f', app, ids[1..])
  }

  function AdoptOneF(f: Flat): Flat
    requires f.core.pending != [] && f.core.pending[0] in f.core.info
  {
    var id := f.core.pending[0];
    var i := f.core.info[id];
    f.(core := Adopt(f.core),
       agenda := Rebook(f.agenda, id, !i.op.Delete?, f.now + Ticks(f.core.tickMs, i.newInterval)))
  }

  ghost function DrainF(f: Flat): Flat
    requires CoreOk(f.core)
    decreases |f.core.pending|
  {
    if f.core.pending == [] then f
    else
      AdoptOk(f.core);
      DrainF(AdoptOneF(f))
  }

  function DueNext(f: Flat): seq<nat> {
    AtDue(f.agenda.order, f.agenda.due, f.now + 1)
  }

  ghost function FiredF(f: Flat, app: App): Flat
    requires FlatOk(f)
  {
    FireAllF(f.(now := f.now + 1), app, DueNext(f))
  }

  ghost function DoTickF(f: Flat, app: App): Flat
    requires FlatOk(f)
  {
    FiredOkF(f, app);
    DrainF(FiredF(f, app))
  }

  ghost function StepF(f: Flat, app: App, e: Event): Flat
    requires FlatOk(f)
  {
    match e
    case Tick => DoTickF(f, app)
    case Call(r) => if Allowed(f.core, r) then f.(core := Post(f.core, r)) else f
  }

  ghost function RunF(f: Flat, app: App, es: seq<Event>): Flat
    requires FlatOk(f)
    decreases |es|
  {
    if es == [] then f
    else
      StepOkF(f, app, es[0]);
      RunF(StepF(f, app, es[0]), app, es[1..])
  }

  // ---- invariant

  ghost predicate BookedOk(a: Agenda, c: Core) {
    forall id | id in a.order :: id in c.info && LegalInterval(c.tickMs, c.info[id].interval)
  }

  ghost predicate FlatOkFrom(f: Flat, from: nat) {
    CoreOk(f.core) && AgendaOk(f.agenda, from) && BookedOk(f.agenda, f.core)
  }

  ghost predicate FlatOk(f: Flat) {
    FlatOkFrom(f, f.now + 1)
  }

  lemma FireOneOkF(f: Flat, app: App, id: nat, from: nat)
    requires FlatOkFrom(f, from) && from <= f.now + 1
    requires id in f.core.info && LegalInterval(f.core.tickMs, f.core.info[id].interval)
    ensures FlatOkFrom(FireOneF(f, app, id), from) && Extends(f.core, FireOneF(f, app, id).core)
  {
    CallbackOk(f.core, app, id, f.now);
    TicksPositive(f.core.tickMs, f.core.info[id].interval);
    WithoutNoDup(f.agenda.order, id);
  }

  lemma {:induction false} FireAllOkF(f: Flat, app: App, ids: seq<nat>, from: nat)
    requires FlatOkFrom(f, from) && from <= f.now + 1
    requires forall id | id in ids :: id in f.core.info && LegalInterval(f.core.tickMs, f.core.info[id].interval)
    ensures FlatOkFrom(FireAllF(f, app, ids), from) && Extends(f.core, FireAllF(f, app, ids).core)
    ensures FireAllF(f, app, ids).now == f.now
    decreases |ids|
  {
    if ids != [] {
      FireOneOkF(f, app, ids[0], from);
      FireAllOkF(FireOneF(f, app, ids[0]), app, ids[1..], from);
    }
  }

  /** Firing `ids` moves or removes exactly those; the others keep their place and due tick. */
  lemma {:induction false} FireAllMoves(f: Flat, app: App, ids: seq<nat>, x: nat)
    requires FlatOkFrom(f, f.now) && NoDup(ids)
    requires forall id | id in ids :: id in f.core.info && LegalInterval(f.core.tickMs, f.core.info[id].interval)
    ensures var f' := FireAllF(f, app, ids);
            if x !in ids then
              (x in f'.agenda.order <==> x in f.agenda.order)
              && (x in f.agenda.due ==> x in f'.agenda.due && f'.agenda.due[x] == f.agenda.due[x])
            else if f.core.info[x].recurring then
              x in f'.agenda.order && x in f'.agenda.due
                  && f'.agenda.due[x] == f.now + Ticks(f.core.tickMs, f.core.info[x].interval)
            else x !in f'.agenda.order
    decreases |ids|
  {
    if ids != [] {
      var f1 := FireOneF(f, app, ids[0]);
      FireOneOkF(f, app, ids[0], f.now);
      FireAllMoves(f1, app, ids[1..], x);
    }
  }

  lemma {:induction false} AtDueNoDup(s: seq<nat>, due: map<nat, nat>, d: nat)
    requires NoDup(s)
    ensures NoDup(AtDue(s, due, d))
  {
    if s != [] {
      AtDueNoDup(s[1..], due, d);
      var r := AtDue(s[1..], due, d);
      forall b | 0 <= b < |r| ensures r[b] != s[0] {
        assert r[b] in r;
      }
    }
  }

  /** A tick moves exactly the elements due at it: a recurring one by its interval, a one-shot off
      the agenda. */
  lemma FiredMoves(f: Flat, app: App, x: nat)
    requires FlatOk(f)
    ensures var f' := FiredF(f, app);
            if x in f.agenda.order && f.agenda.due[x] == f.now + 1 then
              if f.core.info[x].recurring then
                x in f'.agenda.order && x in f'.agenda.due
                && f'.agenda.due[x] == f.now + 1 + Ticks(f.core.tickMs, f.core.info[x].interval) > f.now + 1
              else x !in f'.agenda.order
            else
              && (x in f'.agenda.order <==> x in f.agenda.order)
              && (x in f.agenda.order ==> x in f'.agenda.due && f'.agenda.due[x] == f.agenda.due[x] > f.now + 1)
  {
    AtDueNoDup(f.agenda.order, f.agenda.due, f.now + 1);
    FireAllMoves(f.(now := f.now + 1), app, DueNext(f), x);
    if x in DueNext(f) {
      TicksPositive(f.core.tickMs, f.core.info[x].interval);
    }
  }

  lemma FiredOkF(f: Flat, app: App)
    requires FlatOk(f)
    ensures FlatOk(FiredF(f, app)) && FiredF(f, app).now == f.now + 1 && Extends(f.core, FiredF(f, app).core)
  {
    FireAllOkF(f.(now := f.now + 1), app, DueNext(f), f.now + 1);
    forall x | x in FiredF(f, app).agenda.order ensures f.now + 2 <= FiredF(f, app).agenda.due[x] {
      FiredMoves(f, app, x);
    }
  }

  lemma AdoptOneOkF(f: Flat, from: nat)
    requires FlatOkFrom(f, from) && from <= f.now + 1 && f.core.pending != []
    ensures FlatOkFrom(AdoptOneF(f), from)
  {
    var id := f.core.pending[0];
    assert InfoOk(f.core, id);
    AdoptOk(f.core);
    WithoutNoDup(f.agenda.order, id);
    if !f.core.info[id].op.Delete? {
      TicksPositive(f.core.tickMs, f.core.info[id].newInterval);
    }
  }

  lemma {:induction false} DrainOkF(f: Flat, from: nat)
    requires FlatOkFrom(f, from) && from <= f.now + 1
    ensures FlatOkFrom(DrainF(f), from) && DrainF(f).now == f.now && DrainF(f).core.pending == []
    ensures DrainF(f).core.trace == f.core.trace
    decreases |f.core.pending|
  {
    if f.core.pending != [] {
      AdoptOk(f.core);
      AdoptOneOkF(f, from);
      DrainOkF(AdoptOneF(f), from);
    }
  }

  // ---- the order of elements due at the same tick

  /** An element that is booked comes last among those due at the same tick. */
  lemma RebookedLast(a: Agenda, id: nat, again: bool, due: nat, d: nat)
    ensures AtDue(Rebook(a, id, again, due).order, Rebook(a, id, again, due).due, d) ==
            Without(AtDue(a.order, a.due, d), id) + if again && d == due then [id] else []
  {
    AtDueWithout(a.order, a.due, d, id);
    if again {
      var s := Without(a.order, id);
      AtDueFrame(s, a.due, id, due, d);
      AtDueAppend(s, id, a.due[id := due], d);
    }
  }

  function WithoutAll(s: seq<nat>, ids: seq<nat>): seq<nat>
    decreases |ids|
  {
    if ids == [] then s else WithoutAll(Without(s, ids[0]), ids[1..])
  }

  /** The waiting elements that ask to be due at `d`, in the order of the queue. */
  function Wanting(c: Core, ids: seq<nat>, now: nat, d: nat): seq<nat>
    requires forall id | id in ids :: id in c.info
  {
    if ids == [] then []
    else
      assert ids[0] in ids;
      var i := c.info[ids[0]];
      var rest := Wanting(c, ids[1..], now, d);
      if !i.op.Delete? && now + Ticks(c.tickMs, i.newInterval) == d then [ids[0]] + rest else rest
  }

  lemma {:induction false} WithoutAllSnoc(s: seq<nat>, x: nat, ids: seq<nat>)
    requires x !in ids
    ensures WithoutAll(s + [x], ids) == WithoutAll(s, ids) + [x]
    decreases |ids|
  {
    if ids != [] {
      WithoutAppend(s, [x], ids[0]);
      WithoutAllSnoc(Without(s, ids[0]), x, ids[1..]);
    }
  }

  lemma {:induction false} WantingFrame(c: Core, c': Core, ids: seq<nat>, now: nat, d: nat)
    requires c'.tickMs == c.tickMs
    requires forall id | id in ids :: id in c.info && id in c'.info && c'.info[id] == c.info[id]
    ensures Wanting(c', ids, now, d) == Wanting(c, ids, now, d)
  {
    if ids != [] {
      assert ids[0] in ids;
      WantingFrame(c, c', ids[1..], now, d);
    }
  }

  /** Adoption puts the waiting elements behind all others due at the same tick, in the order of the
      queue, the latest request first. */
  lemma {:induction false} DrainOrder(f: Flat, d: nat)
    requires FlatOkFrom(f, f.now + 1)
    ensures forall id | id in f.core.pending :: id in f.core.info
    ensures AtDue(DrainF(f).agenda.order, DrainF(f).agenda.due, d) ==
            WithoutAll(AtDue(f.agenda.order, f.agenda.due, d), f.core.pending)
            + Wanting(f.core, f.core.pending, f.now, d)
    decreases |f.core.pending|
  {
    hide BookedOk, Rebook, AtDue, Ticks, Without, LegalInterval, AgendaOk;
    if f.core.pending != [] {
      var id, rest, f1 := f.core.pending[0], f.core.pending[1..], AdoptOneF(f);
      var i := f.core.info[id];
      var s := AtDue(f.agenda.order, f.agenda.due, d);
      AdoptOk(f.core);
      AdoptOneOkF(f, f.now + 1);
      RebookedLast(f.agenda, id, !i.op.Delete?, f.now + Ticks(f.core.tickMs, i.newInterval), d);
      DrainOrder(f1, d);
      assert id !in rest;
      WantingFrame(f.core, f1.core, rest, f.now, d);
      var s1, more := WithoutAll(Without(s, id), rest), Wanting(f.core, rest, f.now, d);
      if !i.op.Delete? && f.now + Ticks(f.core.tickMs, i.newInterval) == d {
        WithoutAllSnoc(Without(s, id), id, rest);
        assert (s1 + [id]) + more == s1 + ([id] + more);
      } else {
        assert Without(s, id) + [] == Without(s, id);
      }
    }
  }

  lemma StepOkF(f: Flat, app: App, e: Event)
    requires FlatOk(f)
    ensures FlatOk(StepF(f, app, e)) && StepF(f, app, e).now == f.now + if e.Tick? then 1 else 0
  {
    match e
    case Tick =>
      FiredOkF(f, app);
      DrainOkF(FiredF(f, app), f.now + 2);
    case Call(r) =>
      if Allowed(f.core, r) {
        PostOk(f.core, r);
      }
  }

  lemma {:induction false} RunOkF(f: Flat, app: App, es: seq<Event>)
    requires FlatOk(f)
    ensures FlatOk(RunF(f, app, es)) && f.now <= RunF(f, app, es).now
    decreases |es|
  {
    if es != [] {
      StepOkF(f, app, es[0]);
      RunOkF(StepF(f, app, es[0]), app, es[1..]);
    }
  }
}
