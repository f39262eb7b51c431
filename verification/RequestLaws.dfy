/** What the calls of an application bring about: what a call leaves in the element and in the
    queue, what becomes of the calls that callbacks make, and when the element fires in the end. */
module RequestLaws {
  import opened Arithmetic
  import opened Sequences
  import opened TimerApi
  import opened Layouts
  import opened WheelModel
  import opened FlatSchedule
  import opened WheelRefinement
  import opened TimingLaws

  // ---- one call

  /** `after` is `before` with `id` in front and nowhere else, the others in their order. */
  ghost predicate InFront(before: seq<nat>, after: seq<nat>, id: nat) {
    && after != [] && after[0] == id
    && (id !in before ==> after[1..] == before)
    && forall i: nat | i < |before| && before[i] == id :: after[1..] == before[..i] + before[i + 1..]
  }

  /** What the call `r` makes of `c`: the element's opcode and new interval are the request, the
      interval in use and the recurrence stay, and the element is the head of the queue. */
  ghost predicate Served(c: Core, c': Core, r: Request) {
    && c'.tickMs == c.tickMs && c'.trace == c.trace
    && match r
       case Register(ms, recurring) =>
         && c'.next == c.next + 1 && c.next !in c.info
         && c'.info == c.info[c.next := Info(Create, 0, ms, recurring)]
         && c'.pending == [c.next] + c.pending
       case Reschedule(id, ms) =>
         && c'.next == c.next && id in c.info
         && c'.info == c.info[id := Info(Resched, c.info[id].interval, ms, c.info[id].recurring)]
         && InFront(c.pending, c'.pending, id)
       case Deregister(id) =>
         && c'.next == c.next && id in c.info
         && c'.info == c.info[id := Info(Delete, c.info[id].interval, 0, c.info[id].recurring)]
         && InFront(c.pending, c'.pending, id)
  }

  /** Intervals are positive multiples of the tick, elements registered and not yet freed. */
  predicate InOrder(c: Core, r: Request)
    requires c.tickMs > 0
  {
    match r
    case Register(ms, _) => ms > 0 && ms % c.tickMs == 0
    case Reschedule(id, ms) => id in c.info && ms > 0 && ms % c.tickMs == 0
    case Deregister(id) => id in c.info
  }

  lemma WithoutInFront(s: seq<nat>, id: nat)
    requires NoDup(s)
    ensures InFront(s, [id] + Without(s, id), id)
  {
    forall i: nat | i < |s| && s[i] == id ensures Without(s, id) == s[..i] + s[i + 1..] {
      WithoutAt(s, i);
    }
  }

  lemma PostMeans(c: Core, r: Request)
    requires CoreOk(c) && InOrder(c, r)
    ensures Allowed(c, r) && Served(c, Post(c, r), r)
  {
    match r
    case Register(ms, recurring) =>
      forall x | x in c.info ensures x < c.next {
        assert InfoOk(c, x);
      }
      assert c.next !in c.pending;
    case Reschedule(id, ms) => WithoutInFront(c.pending, id);
    case Deregister(id) => WithoutInFront(c.pending, id);
  }

  /** A callback that answers its firing with one call has that call served. */
  lemma CallbackMeans(c: Core, app: App, id: nat, at: nat, r: Request)
    requires CoreOk(c) && InOrder(c, r) && app(c.trace + [Firing(id, at)]) == [r]
    ensures Served(c.(trace := c.trace + [Firing(id, at)]), Callback(c, app, id, at), r)
  {
    var c1 := c.(trace := c.trace + [Firing(id, at)]);
    forall x | x in c1.info ensures InfoOk(c1, x) {
      assert InfoOk(c, x);
    }
    PostMeans(c1, r);
    assert PostAll(Post(c1, r), [r][1..]) == Post(c1, r);
  }

  // ---- many calls

  /** The call is about the registered element `id`, and is one that the library takes. */
  predicate Decides(tickMs: nat, r: Request, id: nat)
    requires tickMs > 0
  {
    match r
    case Register(_, _) => false
    case Reschedule(x, ms) => x == id && ms > 0 && ms % tickMs == 0
    case Deregister(x) => x == id
  }

  predicate Silent(tickMs: nat, rs: seq<Request>, id: nat)
    requires tickMs > 0
  {
    forall r | r in rs :: !Decides(tickMs, r, id)
  }

  lemma PostAllFirst(c: Core, rs: seq<Request>)
    requires CoreOk(c) && rs != []
    ensures var c1 := if Allowed(c, rs[0]) then Post(c, rs[0]) else c;
            && PostAll(c, rs) == PostAll(c1, rs[1..]) && CoreOk(c1) && c.info.Keys <= c1.info.Keys
            && c1.tickMs == c.tickMs && (Allowed(c, rs[0]) <==> InOrder(c, rs[0]))
            && if InOrder(c, rs[0]) then Served(c, c1, rs[0]) else c1 == c
  {
    if Allowed(c, rs[0]) {
      PostOk(c, rs[0]);
      PostMeans(c, rs[0]);
    }
  }

  lemma InFrontElems(before: seq<nat>, after: seq<nat>, id: nat)
    requires InFront(before, after, id)
    ensures forall x :: x in after <==> x == id || x in before
  {
    if id in before {
      var i: nat :| i < |before| && before[i] == id;
      assert before == before[..i] + [id] + before[i + 1..];
    }
    assert after == [id] + after[1..];
  }

  /** Calls about others leave an element and its place among the waiting ones as they were. */
  lemma {:induction false} OthersCalls(c: Core, rs: seq<Request>, id: nat)
    requires CoreOk(c) && id in c.info && Silent(c.tickMs, rs, id)
    ensures var c' := PostAll(c, rs);
            id in c'.info && c'.info[id] == c.info[id] && (id in c'.pending <==> id in c.pending)
    decreases |rs|
  {
    hide CoreOk, InFront, Post;
    if rs != [] {
      PostAllFirst(c, rs);
      var c1 := if Allowed(c, rs[0]) then Post(c, rs[0]) else c;
      assert rs[0] in rs;
      if InOrder(c, rs[0]) {
        match rs[0]
        case Register(ms, recurring) =>
        case Reschedule(x, ms) => InFrontElems(c.pending, c1.pending, x);
        case Deregister(x) => InFrontElems(c.pending, c1.pending, x);
      }
      OthersCalls(c1, rs[1..], id);
    }
  }

  /** The last call about an element decides: it waits with that request, and what it is doing in
      the meantime stays. */
  lemma {:induction false} LastCallDecides(c: Core, rs: seq<Request>, id: nat, j: nat)
    requires CoreOk(c) && id in c.info && j < |rs| && Decides(c.tickMs, rs[j], id)
    requires Silent(c.tickMs, rs[j + 1..], id)
    ensures var c' := PostAll(c, rs);
            && id in c'.info && id in c'.pending
            && c'.info[id].interval == c.info[id].interval && c'.info[id].recurring == c.info[id].recurring
            && (rs[j].Reschedule? ==> c'.info[id].op == Resched && c'.info[id].newInterval == rs[j].interval)
            && (rs[j].Deregister? ==> c'.info[id].op == Delete)
    decreases |rs|
  {
    hide CoreOk, InFront, Post;
    PostAllFirst(c, rs);
    var c1 := if Allowed(c, rs[0]) then Post(c, rs[0]) else c;
    if j == 0 {
      InFrontElems(c.pending, c1.pending, id);
      OthersCalls(c1, rs[1..], id);
    } else {
      assert rs[1..][j..] == rs[j + 1..];
      LastCallDecides(c1, rs[1..], id, j - 1);
    }
  }

  /** How many of the calls register an element. */
  function Registered(tickMs: nat, rs: seq<Request>): nat
    requires tickMs > 0
  {
    if rs == [] then 0
    else
      var rest := Registered(tickMs, rs[1..]);
      if rs[0].Register? && rs[0].interval > 0 && rs[0].interval % tickMs == 0 then rest + 1 else rest
  }

  /** Every legal register call gets the next id, and the element waits to be created unless a later
      call is about it. */
  lemma {:induction false} RegisterCalls(c: Core, rs: seq<Request>, j: nat)
    requires CoreOk(c) && j < |rs| && rs[j].Register? && InOrder(c, rs[j])
    ensures var c', id := PostAll(c, rs), c.next + Registered(c.tickMs, rs[..j]);
            && id !in c.info && id in c'.info && c'.info[id].recurring == rs[j].recurring
            && (Silent(c.tickMs, rs[j + 1..], id) ==>
                  id in c'.pending && c'.info[id] == Info(Create, 0, rs[j].interval, rs[j].recurring))
    decreases |rs|
  {
    hide CoreOk, InFront, Post, Served;
    PostAllFirst(c, rs);
    var c1 := if Allowed(c, rs[0]) then Post(c, rs[0]) else c;
    if j == 0 {
      assert rs[..0] == [];
      RegisterFirst(c, c1, rs[0]);
      KeptRecurrence(c1, rs[1..]);
      if Silent(c.tickMs, rs[1..], c.next) {
        OthersCalls(c1, rs[1..], c.next);
      }
    } else {
      assert rs[..j][0] == rs[0] && rs[..j][1..] == rs[1..][..j - 1] && rs[1..][j..] == rs[j + 1..];
      NextId(c, c1, rs[0]);
      RegisterCalls(c1, rs[1..], j - 1);
    }
  }

  lemma RegisterFirst(c: Core, c1: Core, r: Request)
    requires Served(c, c1, r) && r.Register?
    ensures c.next !in c.info && c.next in c1.info && c.next in c1.pending
    ensures c1.info[c.next] == Info(Create, 0, r.interval, r.recurring)
  {}

  lemma KeptRecurrence(c: Core, rs: seq<Request>)
    requires CoreOk(c)
    ensures forall x | x in c.info ::
              x in PostAll(c, rs).info && PostAll(c, rs).info[x].recurring == c.info[x].recurring
  {
    PostAllOk(c, rs);
  }

  lemma NextId(c: Core, c1: Core, r: Request)
    requires CoreOk(c) && if InOrder(c, r) then Served(c, c1, r) else c1 == c
    ensures c1.next == c.next + Registered(c.tickMs, [r]) && c1.tickMs == c.tickMs
    ensures forall x | c1.next <= x && x in c.info :: x in c1.info
  {
    assert [r][1..] == [];
  }

  // ---- the calls of a tick

  /** What the callbacks answer to the firings in `trace` from position `from` on. */
  function Answers(app: App, trace: seq<Firing>, from: nat): seq<Request>
    requires from <= |trace|
    decreases |trace| - from
  {
    if from == |trace| then [] else app(trace[..from + 1]) + Answers(app, trace, from + 1)
  }

  lemma {:induction false} PostAllConcat(c: Core, p: seq<Request>, q: seq<Request>)
    ensures PostAll(c, p + q) == PostAll(PostAll(c, p), q)
    decreases |p|
  {
    if p == [] {
      assert p + q == q;
    } else {
      assert (p + q)[0] == p[0] && (p + q)[1..] == p[1..] + q;
      PostAllConcat(if Allowed(c, p[0]) then Post(c, p[0]) else c, p[1..], q);
    }
  }

  /** The queue does not depend on what has fired. */
  lemma {:induction false} PostAllTrace(c: Core, rs: seq<Request>, trace: seq<Firing>)
    ensures PostAll(c.(trace := trace), rs) == PostAll(c, rs).(trace := trace)
    decreases |rs|
  {
    if rs != [] {
      PostAllTrace(if Allowed(c, rs[0]) then Post(c, rs[0]) else c, rs[1..], trace);
    }
  }

  lemma {:induction false} FireAllServes(f: Flat, app: App, ids: seq<nat>)
    requires FlatOkFrom(f, f.now)
    requires forall id | id in ids :: id in f.core.info && LegalInterval(f.core.tickMs, f.core.info[id].interval)
    ensures var c', trace := FireAllF(f, app, ids).core, f.core.trace + Firings(ids, f.now);
            c' == PostAll(f.core, Answers(app, trace, |f.core.trace|)).(trace := trace)
    decreases |ids|
  {
    hide FlatOkFrom, Firings, LegalInterval, Rebook, PostAll, Callback;
    var c, trace := f.core, f.core.trace + Firings(ids, f.now);
    if ids == [] {
      assert trace == c.trace;
      NoCalls(c);
    } else {
      var first := Firing(ids[0], f.now);
      var f1 := FireOneF(f, app, ids[0]);
      FireOneOkF(f, app, ids[0], f.now);
      CallbackTrace(f, app, ids[0]);
      FireAllServes(f1, app, ids[1..]);
      assert Firings(ids, f.now) == [first] + Firings(ids[1..], f.now);
      assert trace == f1.core.trace + Firings(ids[1..], f.now) && trace[..|c.trace| + 1] == c.trace + [first];
      ServedInTurn(c, c.trace + [first], app(c.trace + [first]), Answers(app, trace, |c.trace| + 1));
    }
  }

  lemma ServedInTurn(c: Core, trace: seq<Firing>, rs: seq<Request>, rest: seq<Request>)
    ensures PostAll(PostAll(c.(trace := trace), rs), rest) == PostAll(c, rs + rest).(trace := trace)
  {
    PostAllTrace(c, rs, trace);
    PostAllTrace(PostAll(c, rs), rest, trace);
    PostAllConcat(c, rs, rest);
  }

  lemma NoCalls(c: Core)
    ensures PostAll(c, []) == c
  {}

  lemma CallbackTrace(f: Flat, app: App, id: nat)
    requires FlatOkFrom(f, f.now)
    ensures var trace := f.core.trace + [Firing(id, f.now)];
            && Callback(f.core, app, id, f.now).trace == trace
            && Callback(f.core, app, id, f.now) == PostAll(f.core.(trace := trace), app(trace))
  {
    CallbackOk(f.core, app, id, f.now);
  }

  /** The calls that the callbacks of the next tick make, in the order they are made. */
  ghost function Asked(w: Wheel, app: App): seq<Request>
    requires WheelOk(w)
  {
    var trace := Fired(w, app).core.trace;
    if |w.core.trace| <= |trace| then Answers(app, trace, |w.core.trace|) else []
  }

  /** A tick serves every call its callbacks make, in order, before it adopts any. */
  lemma TickServes(w: Wheel, f: Flat, app: App)
    requires InStep(w, f)
    ensures w.core.trace <= Fired(w, app).core.trace
    ensures Fired(w, app).core == PostAll(w.core, Asked(w, app)).(trace := Fired(w, app).core.trace)
  {
    hide FlatOkFrom, WheelOk, Agree, Now, FireAllF, DueNext, Fired, Answers;
    FiredInStep(w, f, app);
    DueNextOk(f);
    FireAllServes(f.(now := f.now + 1), app, DueNext(f));
    PostAllTrace(w.core, Asked(w, app), Fired(w, app).core.trace);
  }

  // ---- from the call to the firing

  lemma {:induction false} TickMsKept(f: Flat, app: App, es: seq<Event>)
    requires FlatOk(f)
    ensures RunF(f, app, es).core.tickMs == f.core.tickMs
    decreases |es|
  {
    hide CoreOk, AgendaOk, BookedOk;
    if es != [] {
      StepOkF(f, app, es[0]);
      match es[0] {
        case Tick =>
          FiredOkF(f, app);
          DrainTickMs(FiredF(f, app));
        case Call(r) =>
          if Allowed(f.core, r) {
            PostOk(f.core, r);
          }
      }
      TickMsKept(StepF(f, app, es[0]), app, es[1..]);
    }
  }

  lemma {:induction false} RunSnoc(w: Wheel, app: App, es: seq<Event>, e: Event)
    requires WheelOk(w)
    ensures WheelOk(Run(w, app, es)) && Run(w, app, es + [e]) == Step(Run(w, app, es), app, e)
    decreases |es|
  {
    hide WheelOk, Step;
    RunOk(w, app, es);
    if es == [] {
      assert [e][1..] == [] && es + [e] == [e];
      StepOk(w, app, e);
    } else {
      assert (es + [e])[1..] == es[1..] + [e];
      StepOk(w, app, es[0]);
      RunSnoc(Step(w, app, es[0]), app, es[1..], e);
    }
  }

  lemma TicksOf(tickMs: nat, k: nat)
    requires tickMs > 0 && k > 0
    ensures k * tickMs > 0 && (k * tickMs) % tickMs == 0 && Ticks(tickMs, k * tickMs) == k
  {
    DivMod(k * tickMs, tickMs, k, 0);
  }

  /** The state an application finds between ticks, and the calls its callbacks make in the next. */
  lemma ReachedServes(size: nat, tickMs: nat, app: App, es: seq<Event>)
    requires size > 0 && tickMs > 0
    ensures var w := Reached(size, tickMs, app, es);
            && CoreOk(w.core) && w.core.tickMs == tickMs && WheelOk(DoTick(w, app))
            && Fired(w, app).core == PostAll(w.core, Asked(w, app)).(trace := Fired(w, app).core.trace)
  {
    hide CoreOk, LayoutOk, Agree, Now, Reached, Asked, FlatOkFrom, ResidentsOk;
    ReachedInStep(size, tickMs, app, es);
    var w, f := Reached(size, tickMs, app, es), RunF(FlatInit(tickMs), app, es);
    assert InStep(w, f) by {
      ReachedIsRun(size, tickMs, app, es);
    }
    TickServes(w, f, app);
    TickMsKept(FlatInit(tickMs), app, es);
    DoTickOk(w, app);
  }

  lemma ReachedIsRun(size: nat, tickMs: nat, app: App, es: seq<Event>)
    requires size > 0 && tickMs > 0
    ensures WheelOk(Init(size, tickMs)) && Reached(size, tickMs, app, es) == Run(Init(size, tickMs), app, es)
  {
    InitOk(size, tickMs);
  }

  /** A callback that runs in tick a and asks for `k` ticks, no later call of that tick being about
      the same element, makes that element fire next at a + k, and if it recurs at a + 2k and so on,
      whatever was asked for before. */
  lemma AskedElementFires(size: nat, tickMs: nat, app: App, before: seq<Event>, after: seq<Event>, id: nat, k: nat,
                          j: nat, t: nat)
    requires size > 0 && tickMs > 0 && k > 0
    requires var w := Reached(size, tickMs, app, before);
             && id in w.core.info && j < |Asked(w, app)| && Asked(w, app)[j] == Reschedule(id, k * tickMs)
             && Silent(tickMs, Asked(w, app)[j + 1..], id)
             && WheelOk(DoTick(w, app)) && NotAdopted(DoTick(w, app), app, after, id)
             && Now(w) + 1 < t <= Now(Run(DoTick(w, app), app, after))
    ensures var w := Reached(size, tickMs, app, before);
            Count(Run(DoTick(w, app), app, after).core.trace, id, t) ==
              if FiresAt(t, Now(w) + 1 + k, k, w.core.info[id].recurring) then 1 else 0
  {
    hide WheelOk, CoreOk, Now, Reached, Asked, Fired, DoTick, FiresAt, Count, Run, PostAll, Ticks, NotAdopted;
    var w := Reached(size, tickMs, app, before);
    ReachedServes(size, tickMs, app, before);
    TicksOf(tickMs, k);
    LastCallDecides(w.core, Asked(w, app), id, j);
    RequestedElementFires(size, tickMs, app, before, after, id, t);
  }

  /** And one that a callback deregisters last never fires again. */
  lemma AskedElementIsSilent(size: nat, tickMs: nat, app: App, before: seq<Event>, after: seq<Event>, id: nat,
                             j: nat, t: nat)
    requires size > 0 && tickMs > 0
    requires var w := Reached(size, tickMs, app, before);
             && id in w.core.info && j < |Asked(w, app)| && Asked(w, app)[j] == Deregister(id)
             && Silent(tickMs, Asked(w, app)[j + 1..], id)
             && WheelOk(DoTick(w, app)) && Now(w) + 1 < t <= Now(Run(DoTick(w, app), app, after))
    ensures Count(Run(DoTick(Reached(size, tickMs, app, before), app), app, after).core.trace, id, t) == 0
  {
    hide WheelOk, CoreOk, Now, Reached, Asked, Fired, DoTick, Count, Run, PostAll;
    var w := Reached(size, tickMs, app, before);
    ReachedServes(size, tickMs, app, before);
    LastCallDecides(w.core, Asked(w, app), id, j);
    DeletedElementIsSilent(size, tickMs, app, before, after, id, t);
  }

  /** The state after a call made between ticks. */
  lemma ReachedCall(size: nat, tickMs: nat, app: App, before: seq<Event>, r: Request)
    requires size > 0 && tickMs > 0
    requires var w := Reached(size, tickMs, app, before); w.core.tickMs > 0 && InOrder(w.core, r)
    ensures var w, w' := Reached(size, tickMs, app, before), Reached(size, tickMs, app, before + [Call(r)]);
            Served(w.core, w'.core, r) && w' == w.(core := w'.core) && Now(w') == Now(w)
  {
    hide Now;
    ReachedIsRun(size, tickMs, app, before);
    ReachedIsRun(size, tickMs, app, before + [Call(r)]);
    RunSnoc(Init(size, tickMs), app, before, Call(r));
    var w := Reached(size, tickMs, app, before);
    StepOk(w, app, Call(r));
    PostMeans(w.core, r);
  }

  /** An element registered with an interval of `k` ticks fires `k` ticks after the next tick, and if
      it recurs every `k` ticks from there on, unless a callback of that tick already asks for
      something else. */
  lemma RegisteredElementFires(size: nat, tickMs: nat, app: App, before: seq<Event>, after: seq<Event>, k: nat,
                               recurring: bool, t: nat)
    requires size > 0 && tickMs > 0 && k > 0
    requires var id := Reached(size, tickMs, app, before).core.next;
             var w := Reached(size, tickMs, app, before + [Call(Register(k * tickMs, recurring))]);
             && Silent(tickMs, Asked(w, app), id) && WheelOk(DoTick(w, app))
             && NotAdopted(DoTick(w, app), app, after, id) && Now(w) + 1 < t <= Now(Run(DoTick(w, app), app, after))
    ensures var id := Reached(size, tickMs, app, before).core.next;
            var w := Reached(size, tickMs, app, before + [Call(Register(k * tickMs, recurring))]);
            Count(Run(DoTick(w, app), app, after).core.trace, id, t) ==
              if FiresAt(t, Now(w) + 1 + k, k, recurring) then 1 else 0
  {
    hide WheelOk, CoreOk, Now, Reached, Asked, Fired, DoTick, FiresAt, Count, Run, PostAll, Ticks, NotAdopted;
    var r := Register(k * tickMs, recurring);
    ReachedServes(size, tickMs, app, before);
    TicksOf(tickMs, k);
    ReachedCall(size, tickMs, app, before, r);
    var id, w := Reached(size, tickMs, app, before).core.next, Reached(size, tickMs, app, before + [Call(r)]);
    ReachedServes(size, tickMs, app, before + [Call(r)]);
    OthersCalls(w.core, Asked(w, app), id);
    RequestedElementFires(size, tickMs, app, before + [Call(r)], after, id, t);
  }

  /** An element deregistered between ticks never fires again from the tick after the next one on,
      unless a callback of the next tick asks for something else. */
  lemma DeregisteredElementIsSilent(size: nat, tickMs: nat, app: App, before: seq<Event>, after: seq<Event>, id: nat,
                                    t: nat)
    requires size > 0 && tickMs > 0 && id in Reached(size, tickMs, app, before).core.info
    requires var w := Reached(size, tickMs, app, before + [Call(Deregister(id))]);
             && Silent(tickMs, Asked(w, app), id) && WheelOk(DoTick(w, app))
             && Now(w) + 1 < t <= Now(Run(DoTick(w, app), app, after))
    ensures var w := Reached(size, tickMs, app, before + [Call(Deregister(id))]);
            Count(Run(DoTick(w, app), app, after).core.trace, id, t) == 0
  {
    hide WheelOk, CoreOk, Now, Reached, Asked, Fired, DoTick, Count, Run, PostAll;
    ReachedServes(size, tickMs, app, before);
    ReachedCall(size, tickMs, app, before, Deregister(id));
    var w := Reached(size, tickMs, app, before + [Call(Deregister(id))]);
    ReachedServes(size, tickMs, app, before + [Call(Deregister(id))]);
    OthersCalls(w.core, Asked(w, app), id);
    DeletedElementIsSilent(size, tickMs, app, before + [Call(Deregister(id))], after, id, t);
  }

  /** And one rescheduled between ticks changes its rhythm at the next tick. */
  lemma RescheduledElementFires(size: nat, tickMs: nat, app: App, before: seq<Event>, after: seq<Event>, id: nat,
                                k: nat, t: nat)
    requires size > 0 && tickMs > 0 && k > 0 && id in Reached(size, tickMs, app, before).core.info
    requires var w := Reached(size, tickMs, app, before + [Call(Reschedule(id, k * tickMs))]);
             && Silent(tickMs, Asked(w, app), id) && WheelOk(DoTick(w, app))
             && NotAdopted(DoTick(w, app), app, after, id) && Now(w) + 1 < t <= Now(Run(DoTick(w, app), app, after))
    ensures var recurring := Reached(size, tickMs, app, before).core.info[id].recurring;
            var w := Reached(size, tickMs, app, before + [Call(Reschedule(id, k * tickMs))]);
            Count(Run(DoTick(w, app), app, after).core.trace, id, t) ==
              if FiresAt(t, Now(w) + 1 + k, k, recurring) then 1 else 0
  {
    hide WheelOk, CoreOk, Now, Reached, Asked, Fired, DoTick, FiresAt, Count, Run, PostAll, Ticks, NotAdopted;
    var r := Reschedule(id, k * tickMs);
    ReachedServes(size, tickMs, app, before);
    TicksOf(tickMs, k);
    ReachedCall(size, tickMs, app, before, r);
    var w := Reached(size, tickMs, app, before + [Call(r)]);
    ReachedServes(size, tickMs, app, before + [Call(r)]);
    OthersCalls(w.core, Asked(w, app), id);
    RequestedElementFires(size, tickMs, app, before + [Call(r)], after, id, t);
  }

  /** Until a tick adopts it, a created or rescheduled element has its whole new interval to go, and a
      delete does not change what is left. */
  lemma RemainingWhileWaiting(size: nat, tickMs: nat, app: App, before: seq<Event>, r: Request)
    requires size > 0 && tickMs > 0
    requires var w := Reached(size, tickMs, app, before); w.core.tickMs > 0 && InOrder(w.core, r)
    ensures var w, w' := Reached(size, tickMs, app, before), Reached(size, tickMs, app, before + [Call(r)]);
            match r
            case Register(ms, _) => w.core.next in w'.core.info && Remaining(w', w.core.next) == ms
            case Reschedule(id, ms) => id in w'.core.info && Remaining(w', id) == ms
            case Deregister(id) =>
              id in w'.core.info
              && (w.core.info[id].op.Scheduled? ==>
                    Remaining(w', id) == Remaining(w, id)
                    == (DueOf(w.lay.size, PlaceOf(w.lay, id)) - Now(w)) * w.core.tickMs)
  {
    hide Now, Reached, DueOf;
    ReachedCall(size, tickMs, app, before, r);
  }
}
