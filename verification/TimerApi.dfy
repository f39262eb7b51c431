/** What the timer library exposes to an application: the elements it registered, the
    requests it may make about them, and the queue in which those requests wait for the
    next tick.  None of this depends on the wheel. */
module TimerApi {
  import opened Sequences

  datatype Opcode = Create | Resched | Delete | Scheduled

  /** The part of a wheel element that the API calls write.  Intervals are in milliseconds. */
  datatype Info = Info(op: Opcode, interval: nat, newInterval: nat, recurring: bool)

  datatype Firing = Firing(id: nat, at: nat)

  /** `info` holds the elements that were registered and not yet freed; `pending` is the
      reschedule list from its head on, so the newest request comes first. */
  datatype Core = Core(tickMs: nat, info: map<nat, Info>, pending: seq<nat>, next: nat, trace: seq<Firing>)

  datatype Request =
    | Register(interval: nat, recurring: bool)
    | Reschedule(id: nat, interval: nat)
    | Deregister(id: nat)

  /** A callback may look at everything fired so far, its own firing last, and answers with
      the calls it makes. */
  type App = seq<Firing> -> seq<Request>

  predicate LegalInterval(tickMs: nat, ms: nat) {
    tickMs > 0 && ms > 0 && ms % tickMs == 0
  }

  ghost predicate InfoOk(c: Core, id: nat)
    requires id in c.info
  {
    && id < c.next
    && (c.info[id].op != Scheduled <==> id in c.pending)
    && (c.info[id].op.Create? || c.info[id].op.Resched? ==> LegalInterval(c.tickMs, c.info[id].newInterval))
  }

  ghost predicate CoreOk(c: Core) {
    && c.tickMs > 0
    && NoDup(c.pending)
    && (forall id | id in c.pending :: id in c.info)
    && (forall id | id in c.info :: InfoOk(c, id))
  }

  /** What the library demands of a caller: intervals that are positive multiples of the tick
      (the other ones hit an assertion) and elements that were not freed. */
  predicate Allowed(c: Core, r: Request) {
    match r
    case Register(ms, _) => LegalInterval(c.tickMs, ms)
    case Reschedule(id, ms) => id in c.info && LegalInterval(c.tickMs, ms)
    case Deregister(id) => id in c.info
  }

  /** `_timer_reschedule`: note the request in the element, move it to the head of the list. */
  function Enqueue(c: Core, id: nat, op: Opcode, ms: nat): (r: Core)
    requires id in c.info
    ensures r.info.Keys == c.info.Keys
  {
    c.(info := c.info[id := c.info[id].(op := op, newInterval := ms)],
       pending := [id] + Without(c.pending, id))
  }

  function Post(c: Core, r: Request): (c': Core)
    requires Allowed(c, r)
    ensures c.info.Keys <= c'.info.Keys
  {
    match r
    case Register(ms, rec) =>
      Enqueue(c.(info := c.info[c.next := Info(Create, 0, 0, rec)], next := c.next + 1), c.next, Create, ms)
    case Reschedule(id, ms) => Enqueue(c, id, Resched, ms)
    case Deregister(id) => Enqueue(c, id, Delete, 0)
  }

  /** An application obeying the API makes those calls of `rs` that are allowed when their turn comes. */
  function PostAll(c: Core, rs: seq<Request>): (c': Core)
    ensures c.info.Keys <= c'.info.Keys
    decreases |rs|
  {
    if rs == [] then c
    else PostAll(if Allowed(c, rs[0]) then Post(c, rs[0]) else c, rs[1..])
  }

  function Callback(c: Core, app: App, id: nat, at: nat): (c': Core)
    ensures c.info.Keys <= c'.info.Keys
  {
    var trace := c.trace + [Firing(id, at)];
    PostAll(c.(trace := trace), app(trace))
  }

  /** `c'` is `c` after any number of API calls: nothing fired, nothing freed. */
  ghost predicate Extends(c: Core, c': Core) {
    && c'.tickMs == c.tickMs && c.next <= c'.next
    && (forall id | id in c.info ::
          id in c'.info && c'.info[id].interval == c.info[id].interval && c'.info[id].recurring == c.info[id].recurring)
    && (forall id | id in c'.info :: id in c.info || c.next <= id)
  }

  lemma EnqueueOk(c: Core, id: nat, op: Opcode, ms: nat)
    requires c.tickMs > 0 && NoDup(c.pending) && id in c.info && id < c.next
    requires forall x | x in c.pending :: x in c.info
    requires forall x | x in c.info && x != id :: InfoOk(c, x)
    requires !op.Scheduled? && (op.Delete? || LegalInterval(c.tickMs, ms))
    ensures CoreOk(Enqueue(c, id, op, ms))
  {
    var c' := Enqueue(c, id, op, ms);
    WithoutNoDup(c.pending, id);
    forall x | x in c'.info ensures InfoOk(c', x) {
      if x != id {
        assert InfoOk(c, x);
      }
    }
  }

  lemma PostOk(c: Core, r: Request)
    requires CoreOk(c) && Allowed(c, r)
    ensures CoreOk(Post(c, r)) && Extends(c, Post(c, r)) && Post(c, r).trace == c.trace
  {
    match r
    case Register(ms, rec) =>
      var c1 := c.(info := c.info[c.next := Info(Create, 0, 0, rec)], next := c.next + 1);
      forall x | x in c1.info && x != c.next ensures InfoOk(c1, x) {
        assert InfoOk(c, x);
      }
      EnqueueOk(c1, c.next, Create, ms);
    case Reschedule(id, ms) =>
      assert InfoOk(c, id);
      EnqueueOk(c, id, Resched, ms);
    case Deregister(id) =>
      assert InfoOk(c, id);
      EnqueueOk(c, id, Delete, 0);
  }

  lemma {:induction false} PostAllOk(c: Core, rs: seq<Request>)
    requires CoreOk(c)
    ensures CoreOk(PostAll(c, rs)) && Extends(c, PostAll(c, rs)) && PostAll(c, rs).trace == c.trace
    decreases |rs|
  {
    if rs != [] {
      var c1 := if Allowed(c, rs[0]) then Post(c, rs[0]) else c;
      if Allowed(c, rs[0]) {
        PostOk(c, rs[0]);
      }
      PostAllOk(c1, rs[1..]);
    }
  }

  lemma CallbackOk(c: Core, app: App, id: nat, at: nat)
    requires CoreOk(c)
    ensures CoreOk(Callback(c, app, id, at)) && Extends(c, Callback(c, app, id, at))
    ensures Callback(c, app, id, at).trace == c.trace + [Firing(id, at)]
  {
    var c1 := c.(trace := c.trace + [Firing(id, at)]);
    forall x | x in c1.info ensures InfoOk(c1, x) {
      assert InfoOk(c, x);
    }
    PostAllOk(c1, app(c1.trace));
  }

  function Ticks(tickMs: nat, ms: nat): nat {
    if tickMs == 0 then 0 else ms / tickMs
  }

  /** The element-side effect of adopting the oldest waiting decision about the first element
      of the list: a deleted element is freed, any other takes its new interval. */
  function Adopt(c: Core): (c': Core)
    requires c.pending != [] && c.pending[0] in c.info
  {
    var id := c.pending[0];
    if c.info[id].op.Delete? then c.(info := c.info - {id}, pending := c.pending[1..])
    else c.(info := c.info[id := c.info[id].(op := Scheduled, interval := c.info[id].newInterval)],
            pending := c.pending[1..])
  }

  lemma AdoptOk(c: Core)
    requires CoreOk(c) && c.pending != []
    ensures CoreOk(Adopt(c)) && Adopt(c).pending == c.pending[1..]
    ensures Adopt(c).trace == c.trace && Adopt(c).next == c.next && Adopt(c).tickMs == c.tickMs
    ensures c.pending[0] in Adopt(c).info <==> !c.info[c.pending[0]].op.Delete?
    ensures c.pending[0] in Adopt(c).info ==>
              LegalInterval(c.tickMs, Adopt(c).info[c.pending[0]].interval)
    ensures forall x | x in c.info && x != c.pending[0] :: x in Adopt(c).info && Adopt(c).info[x] == c.info[x]
  {
    var id, c' := c.pending[0], Adopt(c);
    assert id in c.info && InfoOk(c, id);
    assert id !in c'.pending;
    forall x | x in c'.info ensures InfoOk(c', x) {
      assert InfoOk(c, x);
    }
  }
}
