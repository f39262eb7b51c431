/** The wheel timer as it is built: elements linked into slot lists and into the reschedule list
    by their two embedded nodes, and the methods that relink them.  The ghost field `model` is
    the value the objects stand for; every method says what it does to that value. */
module WheelTimer {
  import opened Sequences
  import opened TimerApi
  import opened Layouts
  import opened WheelModel
  import opened GlueThread

  datatype Resolution = Seconds | MilliSeconds

  class WheelElem {
    const id: nat
    const isRecurrence: bool
    const glue: GlThread
    const reschedGlue: GlThread
    var opcode: Opcode
    var timeInterval: nat
    var newTimeInterval: nat
    var executeCycleNo: nat
    var slotNo: nat

    constructor (id: nat, isRecurrence: bool)
      ensures this.id == id && this.isRecurrence == isRecurrence
      ensures opcode == Create && timeInterval == 0 && newTimeInterval == 0 && executeCycleNo == 0 && slotNo == 0
      ensures fresh(glue) && glue.elem == id && glue.family == 0 && Alone(glue)
      ensures fresh(reschedGlue) && reschedGlue.elem == id && reschedGlue.family == 1 && Alone(reschedGlue)
    {
      this.id, this.isRecurrence := id, isRecurrence;
      opcode, timeInterval, newTimeInterval, executeCycleNo, slotNo := Create, 0, 0, 0, 0;
      glue := new GlThread(id, 0);
      reschedGlue := new GlThread(id, 1);
    }
  }

  function CompareCycles(a: nat, b: nat): int {
    if a < b then -1 else if a > b then 1 else 0
  }

  /** `insert_wt_elem_in_slot`, from the nodes of two elements to their cycles. */
  function InsertWtElemInSlot(h: seq<WheelElem>, a: GlThread, b: GlThread): int
    requires 0 <= a.elem < |h| && 0 <= b.elem < |h|
    reads h
  {
    CompareCycles(h[a.elem].executeCycleNo, h[b.elem].executeCycleNo)
  }

  lemma Quotient(due: nat, size: nat)
    requires size > 0
    ensures due / size >= 0 && 0 <= due % size < size
  {}

  ghost predicate Matches(e: WheelElem, i: Info, p: Place)
    reads e
  {
    && e.opcode == i.op && e.timeInterval == i.interval && e.newTimeInterval == i.newInterval
       && e.isRecurrence == i.recurring
    && e.executeCycleNo == p.cycle && e.slotNo == p.slot
  }

  // ---- the lists as sequences of nodes

  /** The elements ever registered, by id, each with its own two nodes. */
  ghost predicate TableOk(h: seq<WheelElem>) {
    forall i | 0 <= i < |h| ::
      && h[i].id == i
      && h[i].glue.elem == i && h[i].glue.family == 0
      && h[i].reschedGlue.elem == i && h[i].reschedGlue.family == 1
  }

  /** The node by which element `id` is on a list of the given family. */
  ghost function NodeAt(h: seq<WheelElem>, id: nat, family: nat, head: GlThread): GlThread {
    if id >= |h| then head else if family == 0 then h[id].glue else h[id].reschedGlue
  }

  ghost function Chain(head: GlThread, h: seq<WheelElem>, ids: seq<nat>, family: nat): (r: seq<GlThread>)
    ensures |r| == |ids| + 1 && r[0] == head
    ensures forall j | 0 < j < |r| :: r[j] == NodeAt(h, ids[j - 1], family, head)
  {
    [head] + seq(|ids|, j requires 0 <= j < |ids| => NodeAt(h, ids[j], family, head))
  }

  /** The slot lists, and behind them the reschedule list. */
  ghost function Lists(heads: seq<GlThread>, resched: GlThread, h: seq<WheelElem>, slots: seq<seq<nat>>,
          pending: seq<nat>): (r: seq<seq<GlThread>>)
    requires |heads| == |slots|
    ensures |r| == |slots| + 1 && r[|slots|] == Chain(resched, h, pending, 1)
    ensures forall k | 0 <= k < |slots| :: r[k] == Chain(heads[k], h, slots[k], 0)
  {
    seq(|slots|, k requires 0 <= k < |slots| => Chain(heads[k], h, slots[k], 0)) + [Chain(resched, h, pending, 1)]
  }

  ghost predicate HeadsOk(heads: seq<GlThread>, resched: GlThread) {
    && resched.elem == -1 && resched.family == 1
    && forall i | 0 <= i < |heads| :: heads[i].elem == -1 && heads[i].family == 0
  }

  ghost predicate Within(ids: seq<nat>, keys: set<nat>) {
    forall j | 0 <= j < |ids| :: ids[j] in keys
  }

  ghost predicate SlotContained(l: Layout, keys: set<nat>, i: nat)
    requires i < |l.slots|
  {
    Within(l.slots[i], keys) && forall j | 0 <= j < |l.slots[i]| :: PlaceOf(l, l.slots[i][j]).slot == i
  }

  /** The lists only hold registered elements, each in the slot it is placed in. */
  ghost predicate Contained(n: nat, l: Layout, c: Core) {
    && l.size > 0 && |l.slots| == l.size
    && (forall id | id in c.info :: id < n)
    && Within(c.pending, c.info.Keys)
    && (forall id | id in l.place :: id < n && l.place[id].slot < l.size)
    && (forall i: nat | i < l.size :: SlotContained(l, c.info.Keys, i))
  }

  lemma ContainedIds(n: nat, l: Layout, c: Core)
    requires Contained(n, l, c)
    ensures |l.slots| == l.size > 0
    ensures forall id | id in c.info :: id < n && PlaceOf(l, id).slot < l.size
    ensures forall id | id in l.place :: id < n && l.place[id].slot < l.size
    ensures forall id | id in c.pending :: id in c.info
    ensures forall i: nat, id | i < l.size && id in l.slots[i] :: id in c.info && PlaceOf(l, id).slot == i
  {
    forall i: nat, id | i < l.size && id in l.slots[i] ensures id in c.info && PlaceOf(l, id).slot == i {
      assert SlotContained(l, c.info.Keys, i);
    }
  }

  lemma ContainedAt(n: nat, l: Layout, c: Core, i: nat)
    requires Contained(n, l, c) && i < l.size
    ensures |l.slots| == l.size
    ensures forall j | 0 <= j < |l.slots[i]| :: l.slots[i][j] < n && l.slots[i][j] in c.info
  {
    assert SlotContained(l, c.info.Keys, i);
  }

  lemma ContainedFrom(n: nat, l: Layout, c: Core)
    requires |l.slots| == l.size > 0
    requires forall id | id in c.info :: id < n
    requires forall id | id in l.place :: id < n && l.place[id].slot < l.size
    requires forall id | id in c.pending :: id in c.info
    requires forall i: nat, id | i < l.size && id in l.slots[i] :: id in c.info && PlaceOf(l, id).slot == i
    ensures Contained(n, l, c)
  {
    forall i: nat | i < l.size ensures SlotContained(l, c.info.Keys, i) {
      assert forall j | 0 <= j < |l.slots[i]| :: l.slots[i][j] in l.slots[i];
    }
  }

  /** Changes to the shared state that keep the lists inside the table. */
  lemma ContainedCore(n: nat, l: Layout, c: Core, n': nat, c': Core)
    requires Contained(n, l, c) && n <= n'
    requires forall id | id in c'.info :: id < n'
    requires forall id | id in c'.pending :: id in c'.info
    requires forall i: nat, id | i < |l.slots| && id in l.slots[i] && id in c.info :: id in c'.info
    ensures Contained(n', l, c')
  {
    ContainedIds(n, l, c);
    ContainedFrom(n', l, c');
  }

  lemma ContainedPending(n: nat, l: Layout, c: Core, pending: seq<nat>)
    requires Contained(n, l, c) && forall id | id in pending :: id in c.info
    ensures Contained(n, l, c.(pending := pending))
  {
    ContainedIds(n, l, c);
    ContainedCore(n, l, c, n, c.(pending := pending));
  }

  lemma ContainedInfo(n: nat, l: Layout, c: Core, id: nat, i: Info)
    requires Contained(n, l, c) && id in c.info
    ensures Contained(n, l, c.(info := c.info[id := i]))
  {
    ContainedIds(n, l, c);
    ContainedCore(n, l, c, n, c.(info := c.info[id := i]));
  }

  lemma ChainMember(head: GlThread, h: seq<WheelElem>, ids: seq<nat>, family: nat, n: GlThread)
    requires TableOk(h) && family <= 1 && n in Chain(head, h, ids, family)
    ensures n == head || (0 <= n.elem && n.elem in ids && n.family == family)
  {
    var r := Chain(head, h, ids, family);
    var j :| 0 <= j < |r| && r[j] == n;
    if j > 0 {
      assert n == NodeAt(h, ids[j - 1], family, head);
    }
  }

  /** An element that is in no list of a family has that node on no list at all. */
  lemma OffAll(heads: seq<GlThread>, resched: GlThread, h: seq<WheelElem>, slots: seq<seq<nat>>, pending: seq<nat>,
          id: nat, family: nat)
    requires |heads| == |slots| && TableOk(h) && HeadsOk(heads, resched) && id < |h| && family <= 1
    requires if family == 0 then forall i: nat | i < |slots| :: id !in slots[i] else id !in pending
    ensures !OnSome(Lists(heads, resched, h, slots, pending), NodeAt(h, id, family, resched))
  {
    var c, n := Lists(heads, resched, h, slots, pending), NodeAt(h, id, family, resched);
    forall k | 0 <= k < |c| ensures n !in c[k] {
      if n in c[k] {
        if k < |slots| {
          ChainMember(heads[k], h, slots[k], 0, n);
        } else {
          ChainMember(resched, h, pending, 1, n);
        }
      }
    }
  }

  lemma ChainNoDup(nodes: set<GlThread>, chains: seq<seq<GlThread>>, k: nat, head: GlThread, h: seq<WheelElem>,
          ids: seq<nat>, family: nat)
    requires Network(nodes, chains) && k < |chains| && chains[k] == Chain(head, h, ids, family)
    ensures NoDup(ids)
  {
    var r := Chain(head, h, ids, family);
    assert ChainOk(nodes, chains[k]);
    forall i, j | 0 <= i < j < |ids| ensures ids[i] != ids[j] {
      assert r[i + 1] != r[j + 1];
    }
  }

  lemma ChainWithout(head: GlThread, h: seq<WheelElem>, ids: seq<nat>, family: nat, i: nat)
    requires i < |ids| && NoDup(ids)
    ensures Chain(head, h, Without(ids, ids[i]), family) == Removed(Chain(head, h, ids, family), i + 1)
  {
    hide Removed, Without, NoDup;
    WithoutAt(ids, i);
    var t, r := ids[..i] + ids[i + 1..], Removed(Chain(head, h, ids, family), i + 1);
    var c := Chain(head, h, t, family);
    forall j | 0 < j < |c| ensures c[j] == r[j] {
      assert t[j - 1] == if j - 1 < i then ids[j - 1] else ids[j];
    }
    assert c[0] == r[0];
  }

  lemma ChainInserted(head: GlThread, h: seq<WheelElem>, ids: seq<nat>, family: nat, p: nat, id: nat)
    requires p <= |ids|
    ensures Chain(head, h, ids[..p] + [id] + ids[p..], family) ==
        Inserted(Chain(head, h, ids, family), p + 1, NodeAt(h, id, family, head))
  {
    hide Inserted;
    var t, r := ids[..p] + [id] + ids[p..], Inserted(Chain(head, h, ids, family), p + 1, NodeAt(h, id, family, head));
    var c := Chain(head, h, t, family);
    forall j | 0 < j < |c| ensures c[j] == r[j] {
      assert t[j - 1] == if j - 1 < p then ids[j - 1] else if j - 1 == p then id else ids[j - 2];
    }
    assert c[0] == r[0];
  }

  lemma {:induction false} InsertByCycleAt(s: seq<nat>, place: map<nat, Place>, id: nat, p: nat)
    requires p <= |s|
    requires forall j | 0 <= j < p :: CycleOf(place, s[j]) <= CycleOf(place, id)
    requires p < |s| ==> CycleOf(place, id) < CycleOf(place, s[p])
    ensures InsertByCycle(s, place, id) == s[..p] + [id] + s[p..]
  {
    if p > 0 {
      InsertByCycleAt(s[1..], place, id, p - 1);
      assert s[..p] + [id] + s[p..] == [s[0]] + (s[1..][..p - 1] + [id] + s[1..][p - 1..]);
    }
  }

  /** Only the list an element is on changes when it is taken off. */
  lemma UnlinkSlots(n: nat, l: Layout, c: Core, id: nat)
    requires Contained(n, l, c) && id in c.info
    ensures var k := PlaceOf(l, id).slot;
            && k < |l.slots| == l.size
            && (forall i: nat | i < l.size && i != k :: id !in l.slots[i])
            && Layouts.Unlink(l, id) == l.(slots := l.slots[k := Without(l.slots[k], id)])
    ensures Contained(n, Layouts.Unlink(l, id), c)
  {
    ContainedIds(n, l, c);
    var k := PlaceOf(l, id).slot;
    assert RemoveAll(l.slots, id) == l.slots[k := Without(l.slots[k], id)];
    var l' := Layouts.Unlink(l, id);
    forall i: nat, x | i < l'.size && x in l'.slots[i] ensures x in c.info && PlaceOf(l', x).slot == i {
      assert x in l.slots[i];
    }
    ContainedFrom(n, l', c);
  }

  lemma ListsUpdate(heads: seq<GlThread>, resched: GlThread, h: seq<WheelElem>, slots: seq<seq<nat>>,
          pending: seq<nat>, k: nat, ids: seq<nat>)
    requires |heads| == |slots| && k < |slots|
    ensures Lists(heads, resched, h, slots[k := ids], pending)
         == Lists(heads, resched, h, slots, pending)[k := Chain(heads[k], h, ids, 0)]
  {}

  lemma ListsPending(heads: seq<GlThread>, resched: GlThread, h: seq<WheelElem>, slots: seq<seq<nat>>,
          pending: seq<nat>, ids: seq<nat>)
    requires |heads| == |slots|
    ensures Lists(heads, resched, h, slots, ids)
         == Lists(heads, resched, h, slots, pending)[|slots| := Chain(resched, h, ids, 1)]
  {}

  /** Linking an element that is in no slot: only the list of its new slot changes. */
  lemma PutSlots(n: nat, l: Layout, c: Core, id: nat, due: nat)
    requires Contained(n, l, c) && id in c.info && forall i: nat | i < |l.slots| :: id !in l.slots[i]
    ensures var p := Place(due / l.size, due % l.size);
            && p.slot < |l.slots| == l.size
            && Put(l, id, due) == l.(place := l.place[id := p],
                                     slots := l.slots[p.slot := InsertByCycle(l.slots[p.slot], l.place[id := p], id)])
    ensures Contained(n, Put(l, id, due), c)
  {
    hide InsertByCycle;
    ContainedIds(n, l, c);
    assert RemoveAll(l.slots, id) == l.slots;
    var p, l' := Place(due / l.size, due % l.size), Put(l, id, due);
    InsertElems(l.slots[p.slot], l'.place, id);
    forall i: nat, x | i < l'.size && x in l'.slots[i] ensures x in c.info && PlaceOf(l', x).slot == i {
      assert x in l.slots[i] || x == id;
    }
    ContainedFrom(n, l', c);
  }

  lemma UnlinkedNowhere(l: Layout, id: nat)
    ensures |Layouts.Unlink(l, id).slots| == |l.slots| && Layouts.Unlink(l, id).size == l.size
    ensures forall i: nat | i < |l.slots| :: id !in Layouts.Unlink(l, id).slots[i]
  {}

  lemma PutUnlinked(l: Layout, id: nat, due: nat)
    requires l.size > 0 && |l.slots| == l.size
    ensures Put(Layouts.Unlink(l, id), id, due) == Put(l, id, due)
  {
    UnlinkTwice(l, id);
  }

  lemma UnlinkTwice(l: Layout, id: nat)
    ensures Layouts.Unlink(Layouts.Unlink(l, id), id) == Layouts.Unlink(l, id)
  {
    assert RemoveAll(RemoveAll(l.slots, id), id) == RemoveAll(l.slots, id);
  }

  /** Where `PriorityInsert` stops in a slot list is where the model inserts. */
  lemma InsertedWhere(head: GlThread, h: seq<WheelElem>, ids: seq<nat>, place: map<nat, Place>, id: nat, c: seq<int>,
          p: nat)
    requires id < |h| && |c| == |ids| + 1 && 1 <= p <= |c|
    requires forall j | 1 <= j < |c| :: c[j] == CompareCycles(CycleOf(place, id), CycleOf(place, ids[j - 1]))
    requires (forall j | 1 <= j < p :: c[j] != -1) && (p < |c| ==> c[p] == -1)
    ensures Chain(head, h, InsertByCycle(ids, place, id), 0) == Inserted(Chain(head, h, ids, 0), p, h[id].glue)
  {
    forall j | 0 <= j < p - 1 ensures CycleOf(place, ids[j]) <= CycleOf(place, id) {
      assert c[j + 1] != -1;
    }
    InsertByCycleAt(ids, place, id, p - 1);
    ChainInserted(head, h, ids, 0, p - 1, id);
  }

  lemma ListsGrow(heads: seq<GlThread>, resched: GlThread, h: seq<WheelElem>, e: WheelElem, l: Layout, c: Core)
    requires Contained(|h|, l, c) && |heads| == |l.slots|
    ensures Lists(heads, resched, h + [e], l.slots, c.pending) == Lists(heads, resched, h, l.slots, c.pending)
  {
    ContainedIds(|h|, l, c);
    var x, y := Lists(heads, resched, h + [e], l.slots, c.pending), Lists(heads, resched, h, l.slots, c.pending);
    forall k: nat | k < |heads| ensures x[k] == y[k] {
      assert forall id | id in l.slots[k] :: id in c.info;
      ChainGrow(heads[k], h, e, l.slots[k], 0);
    }
    ChainGrow(resched, h, e, c.pending, 1);
  }

  lemma ChainGrow(head: GlThread, h: seq<WheelElem>, e: WheelElem, ids: seq<nat>, family: nat)
    requires forall id | id in ids :: id < |h|
    ensures Chain(head, h + [e], ids, family) == Chain(head, h, ids, family)
  {
    var c, d := Chain(head, h + [e], ids, family), Chain(head, h, ids, family);
    forall j | 0 < j < |c| ensures c[j] == d[j] {
      assert ids[j - 1] in ids;
    }
  }

  lemma ChainPushed(head: GlThread, h: seq<WheelElem>, ids: seq<nat>, id: nat)
    requires id < |h|
    ensures Chain(head, h, [id] + ids, 1) == Inserted(Chain(head, h, ids, 1), 1, h[id].reschedGlue)
  {
    assert ids[..0] + [id] + ids[0..] == [id] + ids;
    ChainInserted(head, h, ids, 1, 0, id);
  }

  lemma InitLists(heads: seq<GlThread>, resched: GlThread, w: Wheel)
    requires |heads| == w.lay.size > 0 && w.core.info == map[] && w == Init(w.lay.size, w.core.tickMs)
    ensures Contained(0, w.lay, w.core)
    ensures |w.lay.slots| == |heads|
    ensures var c := Lists(heads, resched, [], w.lay.slots, w.core.pending);
            |c| == |heads| + 1 && forall k | 0 <= k < |c| :: c[k] == [(heads + [resched])[k]]
  {
    var c := Lists(heads, resched, [], w.lay.slots, w.core.pending);
    forall k | 0 <= k < |heads| ensures c[k] == [heads[k]] {
      assert w.lay.slots[k] == [];
    }
  }

  /** `ids` is what the walk over the slot of the current tick has still to fire. */
  ghost predicate ToFire(m: Wheel, ids: seq<nat>) {
    && Shape(m) && ids == ThisCycle(m.lay.slots[m.tic], m.lay.place, m.cycle)
    && forall id | id in ids :: id in m.core.info && LegalInterval(m.core.tickMs, m.core.info[id].interval)
  }

  /** Where the walk stands: at the first element still to fire, or past the last one. */
  ghost predicate At(m: Wheel, h: seq<WheelElem>, curr: GlThread?, ids: seq<nat>, cycle: nat) {
    if ids != [] then ids[0] < |h| && curr == h[ids[0]].glue
    else curr == null || exists y: nat ::
      y in m.core.info && y < |h| && curr == h[y].glue && PlaceOf(m.lay, y).cycle != cycle
  }

  /** The walk through the tick that began at `w` has come to `m`, with `ids` to go. */
  ghost predicate Walk(w: Wheel, app: App, m: Wheel, ids: seq<nat>)
    requires WheelOk(w)
  {
    WheelOkFrom(m, Now(m)) && ToFire(m, ids) && Fired(w, app) == FireAll(m, app, ids)
  }

  lemma Fires(w: Wheel, m: Wheel, app: App, ids: seq<nat>)
    requires WheelOk(w) && Walk(w, app, m, ids) && ids != []
    ensures Shape(m) && CoreOk(m.core) && ids[0] in m.core.info
    ensures var m' := FireOne(m, app, ids[0]); Now(m') == Now(m) && Walk(w, app, m', ids[1..]) && m'.cycle == m.cycle
  {
    hide CoreOk, LayoutOk, ResidentsOk, Put, Unlink, Callback, ThisCycle, LegalInterval;
    NextToFire(m, app, ids);
    FireOneOk(m, app, ids[0], Now(m));
  }

  lemma AtGrows(m: Wheel, h: seq<WheelElem>, h': seq<WheelElem>, curr: GlThread?, ids: seq<nat>, cycle: nat)
    requires At(m, h, curr, ids, cycle) && h <= h'
    ensures At(m, h', curr, ids, cycle)
  {}

  lemma FirstPending(c: Core)
    requires CoreOk(c) && c.pending != []
    ensures Without(c.pending, c.pending[0]) == c.pending[1..]
    ensures c.pending[0] in c.info && !c.info[c.pending[0]].op.Scheduled? && c.pending[0] !in c.pending[1..]
  {
    assert InfoOk(c, c.pending[0]);
    WithoutAt(c.pending, 0);
    assert c.pending[..0] + c.pending[1..] == c.pending[1..];
  }

  lemma WeakerFrom(w: Wheel, from: nat, from': nat)
    requires WheelOkFrom(w, from) && from' <= from
    ensures WheelOkFrom(w, from')
  {
    forall i: nat | i < w.lay.size ensures SlotOk(w.lay, i, from') {
      assert SlotOk(w.lay, i, from);
    }
  }

  lemma DrainStep(w: Wheel)
    requires WheelOkFrom(w, Now(w)) && w.core.pending != []
    ensures w.core.pending[0] in w.core.info
    ensures WheelOkFrom(AdoptOne(w), Now(AdoptOne(w))) && Drain(w) == Drain(AdoptOne(w))
    ensures AdoptOne(w).core.pending == w.core.pending[1..]
  {
    AdoptOk(w.core);
    AdoptOneOk(w, Now(w));
  }

  method NewHeads(size: nat) returns (heads: seq<GlThread>)
    ensures |heads| == size && fresh(heads) && NoDup(heads)
    ensures forall i | 0 <= i < |heads| :: heads[i].elem == -1 && heads[i].family == 0 && Alone(heads[i])
  {
    heads := [];
    while |heads| < size
      invariant |heads| <= size && fresh(heads) && NoDup(heads)
      invariant forall i | 0 <= i < |heads| :: heads[i].elem == -1 && heads[i].family == 0 && Alone(heads[i])
    {
      var n := new GlThread(-1, 0);
      heads := heads + [n];
    }
  }

  class WheelTimer {
    const wheelSize: nat
    const clockTicInterval: nat
    const resolution: Resolution
    const slotlist: seq<GlThread>
    const reschdList: GlThread
    var currentClockTic: nat
    var currentCycleNo: nat
    /** The application's view: the handles it was given, those not freed, and what fired. */
    var handles: seq<WheelElem>
    var live: set<nat>
    var fired: seq<Firing>
    ghost var model: Wheel
    ghost var nodes: set<GlThread>
    ghost var repr: set<object>

    function ClockIntervalMs(): nat {
      if resolution == MilliSeconds then clockTicInterval else clockTicInterval * 1000
    }

    ghost predicate Owned()
      reads `repr, `nodes, `handles
    {
      && this in repr && nodes <= repr
      && (forall i | 0 <= i < |handles| ::
            handles[i] in repr && handles[i].glue in nodes && handles[i].reschedGlue in nodes)
    }

    ghost predicate ModelOk(m: Wheel)
      reads `handles, `live, `fired
    {
      && m.lay.size == wheelSize && m.tic < wheelSize && |slotlist| == wheelSize
      && m.core.tickMs == ClockIntervalMs() && m.core.next == |handles| && live == m.core.info.Keys
         && fired == m.core.trace
      && Contained(|handles|, m.lay, m.core)
    }

    ghost predicate FieldsOk(m: Wheel)
      requires Contained(|handles|, m.lay, m.core)
      reads `handles, `currentClockTic, `currentCycleNo, handles
    {
      && currentClockTic == m.tic && currentCycleNo == m.cycle
      && (forall id | id in m.core.info :: Matches(handles[id], m.core.info[id], PlaceOf(m.lay, id)))
    }

    ghost predicate Valid()
      reads this, repr
      ensures Valid() ==> this in repr
    {
      && HeadsOk(slotlist, reschdList) && Owned() && TableOk(handles)
      && ModelOk(model) && FieldsOk(model)
         && Network(nodes, Lists(slotlist, reschdList, handles, model.lay.slots, model.core.pending))
    }

    /** `init_wheel_timer`. */
    constructor (wheelSize: nat, clockTicInterval: nat, resolution: Resolution)
      requires wheelSize > 0 && clockTicInterval > 0
      ensures Valid() && fresh(repr)
      ensures model == Init(wheelSize, ClockIntervalMs()) && handles == []
      ensures model.core.tickMs == if resolution == MilliSeconds then clockTicInterval else clockTicInterval * 1000
    {
      hide Valid, Linked, Init;
      var r := new GlThread(-1, 1);
      var heads := NewHeads(wheelSize);
      this.wheelSize, this.clockTicInterval, this.resolution := wheelSize, clockTicInterval, resolution;
      slotlist, reschdList := heads, r;
      currentClockTic, currentCycleNo := 0, 0;
      handles, live, fired := [], {}, [];
      model := Init(wheelSize, if resolution == MilliSeconds then clockTicInterval else clockTicInterval * 1000);
      nodes := {r} + set n | n in heads;
      repr := {this, r} + set n | n in heads;
      new;
      InitValid();
    }

    /** Heads that are on no list, and nothing registered. */
    lemma InitValid()
      requires wheelSize > 0 && clockTicInterval > 0 && |slotlist| == wheelSize && HeadsOk(slotlist, reschdList)
      requires NoDup(slotlist + [reschdList]) && forall n | n in slotlist + [reschdList] :: Alone(n)
      requires nodes == {reschdList} + (set n | n in slotlist) && repr == {this} + nodes
      requires model == Init(wheelSize, ClockIntervalMs()) && currentClockTic == currentCycleNo == 0
      requires handles == [] && live == {} && fired == []
      ensures Valid() && model.core.tickMs == ClockIntervalMs()
    {
      hide Network, Lists, Contained, NodeAt, Matches, Linked;
      InitLists(slotlist, reschdList, model);
      SingletonNetwork(nodes, Lists(slotlist, reschdList, handles, model.lay.slots, model.core.pending),
          slotlist + [reschdList]);
    }

    /** `remove_glthread(&wt_elem->glue)`. */
    method UnlinkGlue(e: WheelElem)
      requires Valid() && e.id in model.core.info && handles[e.id] == e
      modifies nodes, this`model
      ensures Valid()
      ensures model == old(model).(lay := Layouts.Unlink(old(model.lay), e.id))
    {
      hide Network, Lists, Contained, Layouts.Unlink, OnSome, TableOk, Removed, Chain;
      ghost var m, k, i := model, e.slotNo, 0;
      ContainedIds(|handles|, m.lay, m.core);
      UnlinkSlots(|handles|, m.lay, m.core, e.id);
      ghost var ids, chains := m.lay.slots[k], Lists(slotlist, reschdList, handles, m.lay.slots, m.core.pending);
      if e.id in ids {
        ghost var j :| 0 <= j < |ids| && ids[j] == e.id;
        i := j + 1;
        ChainNoDup(nodes, chains, k, slotlist[k], handles, ids, 0);
        ChainWithout(slotlist[k], handles, ids, 0, j);
      } else {
        OffAll(slotlist, reschdList, handles, m.lay.slots, m.core.pending, e.id, 0);
      }
      ListsUpdate(slotlist, reschdList, handles, m.lay.slots, m.core.pending, k, Without(ids, e.id));
      ghost var after := Lists(slotlist, reschdList, handles, m.lay.slots[k := Without(ids, e.id)], m.core.pending);
      assert after == if i == 0 then chains else chains[k := Removed(chains[k], i)];
      RemoveNode(e.glue, nodes, chains, k, i);
      model := m.(lay := Layouts.Unlink(m.lay, e.id));
    }
  
    /** `glthread_priority_insert` into the slot list of the tick at which `e` is due next. */
    method LinkGlue(e: WheelElem, due: nat)
      requires Valid() && e.id in model.core.info && handles[e.id] == e
      requires forall i: nat | i < |model.lay.slots| :: e.id !in model.lay.slots[i]
      modifies nodes, this`model, e`executeCycleNo, e`slotNo
      ensures Valid()
      ensures wheelSize == old(model.lay.size) == |old(model.lay.slots)| && wheelSize > 0
      ensures model == old(model).(lay := Put(old(model.lay), e.id, due))
    {
      hide Network, Lists, Contained, Put, OnSome, InsertByCycle, Matches, FieldsOk, HeadsOk, TableOk, CycleOf, Chain;
      ghost var m := model;
      ContainedIds(|handles|, m.lay, m.core);
      PutSlots(|handles|, m.lay, m.core, e.id, due);
      Quotient(due, wheelSize);
      var cycle, slot := due / wheelSize, due % wheelSize;
      ghost var m' := m.(lay := Put(m.lay, e.id, due));
      StorePlace(e, cycle, slot, m');
      ghost var ids, chains := m.lay.slots[slot], Lists(slotlist, reschdList, handles, m.lay.slots, m.core.pending);
      OffAll(slotlist, reschdList, handles, m.lay.slots, m.core.pending, e.id, 0);
      ListsUpdate(slotlist, reschdList, handles, m.lay.slots, m.core.pending, slot,
          InsertByCycle(ids, m'.lay.place, e.id));
      SlotCycles(m', slot, ids);
      ghost var p := InsertInSlot(e, slot, ids, chains, m'.lay.place);
      model := m';
    }

    lemma SlotCycles(m: Wheel, slot: nat, ids: seq<nat>)
      requires Contained(|handles|, m.lay, m.core) && FieldsOk(m)
      requires forall id | id in ids :: id in m.core.info
      ensures forall id | id in m.core.info :: id < |handles| && CycleOf(m.lay.place, id) == handles[id].executeCycleNo
    {
      hide Contained;
      ContainedIds(|handles|, m.lay, m.core);
      forall id | id in m.core.info ensures CycleOf(m.lay.place, id) == handles[id].executeCycleNo {
        assert Matches(handles[id], m.core.info[id], PlaceOf(m.lay, id));
      }
    }

    method StorePlace(e: WheelElem, cycle: nat, slot: nat, ghost m': Wheel)
      requires Valid() && e.id in model.core.info && handles[e.id] == e
      requires Contained(|handles|, m'.lay, m'.core) && m' == model.(lay := m'.lay)
      requires m'.lay.place == model.lay.place[e.id := Place(cycle, slot)]
      modifies e`executeCycleNo, e`slotNo
      ensures FieldsOk(m') && e.executeCycleNo == cycle && e.slotNo == slot
      ensures Network(nodes, Lists(slotlist, reschdList, handles, model.lay.slots, model.core.pending))
    {
      hide Network, Lists, HeadsOk, Contained;
      ContainedIds(|handles|, model.lay, model.core);
      ghost var c := model.core;
      assert Matches(e, c.info[e.id], PlaceOf(model.lay, e.id));
      e.executeCycleNo := cycle;
      e.slotNo := slot;
      forall x | x in c.info ensures Matches(handles[x], c.info[x], PlaceOf(m'.lay, x)) {
        if x != e.id {
          assert handles[x].id == x;
          assert old(Matches(handles[x], c.info[x], PlaceOf(model.lay, x)));
        }
      }
    }

    method InsertInSlot(e: WheelElem, slot: nat, ghost ids: seq<nat>, ghost chains: seq<seq<GlThread>>,
            ghost place: map<nat, Place>)
      returns (ghost p: nat)
      requires TableOk(handles) && e.id < |handles| && handles[e.id] == e && e.glue in nodes
      requires Network(nodes, chains) && slot < |chains| && slot < |slotlist|
      requires chains[slot] == Chain(slotlist[slot], handles, ids, 0) && !OnSome(chains, e.glue)
      requires forall id | id in ids :: id < |handles| && CycleOf(place, id) == handles[id].executeCycleNo
      requires CycleOf(place, e.id) == e.executeCycleNo
      modifies nodes
      ensures Network(nodes, chains[slot := Chain(slotlist[slot], handles, InsertByCycle(ids, place, e.id), 0)])
    {
      hide Network, OnSome, InsertByCycle, Inserted;
      var h := handles;
      var comp := (a: GlThread, b: GlThread)
        requires 0 <= a.elem < |h| && 0 <= b.elem < |h|
        reads h
        => InsertWtElemInSlot(h, a, b);
      ghost var c := seq(|ids| + 1, j requires 0 <= j < |ids| + 1 =>
        if j == 0 then 0 else CompareCycles(CycleOf(place, e.id), CycleOf(place, ids[j - 1])));
      assert forall j | 0 <= j < |ids| :: ids[j] in ids;
      p := InsertNode(slotlist[slot], e.glue, comp, nodes, chains, slot, c);
      InsertedWhere(slotlist[slot], h, ids, place, e.id, c, p);
    }
  
    /** `remove_glthread(&wt_elem->reschedule_glue)`. */
    method UnlinkResched(e: WheelElem)
      requires Valid() && e.id in model.core.info && handles[e.id] == e
      modifies nodes, this`model
      ensures Valid()
      ensures model == old(model).(core := old(model.core).(pending := Without(old(model.core.pending), e.id)))
    {
      hide Network, Lists, Contained, OnSome, HeadsOk, Chain, TableOk, Matches, Within, Removed;
      ghost var m, i := model, 0;
      ContainedIds(|handles|, m.lay, m.core);
      ghost var k, ids, chains := |slotlist|, m.core.pending,
              Lists(slotlist, reschdList, handles, m.lay.slots, m.core.pending);
      if e.id in ids {
        ghost var j :| 0 <= j < |ids| && ids[j] == e.id;
        i := j + 1;
        ChainNoDup(nodes, chains, k, reschdList, handles, ids, 1);
        ChainWithout(reschdList, handles, ids, 1, j);
      } else {
        OffAll(slotlist, reschdList, handles, m.lay.slots, ids, e.id, 1);
      }
      ListsPending(slotlist, reschdList, handles, m.lay.slots, ids, Without(ids, e.id));
      ghost var after := Lists(slotlist, reschdList, handles, m.lay.slots, Without(ids, e.id));
      assert after == if i == 0 then chains else chains[k := Removed(chains[k], i)];
      RemoveNode(e.reschedGlue, nodes, chains, k, i);
      ContainedPending(|handles|, m.lay, m.core, Without(ids, e.id));
      model := m.(core := m.core.(pending := Without(ids, e.id)));
    }

    /** `_timer_reschedule`. */
    method PostRequest(e: WheelElem, newTimeInterval: nat, opcode: Opcode)
      requires Valid() && e.id in model.core.info && handles[e.id] == e
      modifies nodes, this`model, e`opcode, e`timeInterval, e`newTimeInterval
      ensures Valid()
      ensures model == old(model).(core := Enqueue(old(model.core), e.id, opcode, newTimeInterval))
    {
      hide Network, Contained, FieldsOk, TableOk, Lists;
      ElemFields(e.id);
      SetFields(e, opcode, e.timeInterval, newTimeInterval);
      UnlinkResched(e);
      PushResched(e);
    }

    method SetFields(e: WheelElem, opcode: Opcode, timeInterval: nat, newTimeInterval: nat)
      requires Valid() && e.id in model.core.info && handles[e.id] == e
      modifies this`model, e`opcode, e`timeInterval, e`newTimeInterval
      ensures Valid() && e.opcode == opcode && e.timeInterval == timeInterval && e.newTimeInterval == newTimeInterval
      ensures var c := old(model.core);
              var i := Info(opcode, timeInterval, newTimeInterval, e.isRecurrence);
              model == old(model).(core := c.(info := c.info[e.id := i]))
    {
      hide Network, Lists, Contained, HeadsOk, PlaceOf, Matches, TableOk, FieldsOk;
      ghost var c := model.core;
      ContainedIds(|handles|, model.lay, c);
      ghost var i := Info(opcode, timeInterval, newTimeInterval, e.isRecurrence);
      ContainedInfo(|handles|, model.lay, c, e.id, i);
      StoreFields(e, opcode, timeInterval, newTimeInterval, model.(core := c.(info := c.info[e.id := i])));
      model := model.(core := c.(info := c.info[e.id := i]));
    }

    method StoreFields(e: WheelElem, opcode: Opcode, timeInterval: nat, newTimeInterval: nat, ghost m': Wheel)
      requires Valid() && e.id in model.core.info && handles[e.id] == e
      requires Contained(|handles|, m'.lay, m'.core)
      requires m' == model.(core := m'.core)
      requires m'.core.info == model.core.info[e.id := Info(opcode, timeInterval, newTimeInterval, e.isRecurrence)]
      modifies e`opcode, e`timeInterval, e`newTimeInterval
      ensures FieldsOk(m') && e.opcode == opcode && e.timeInterval == timeInterval
          && e.newTimeInterval == newTimeInterval
      ensures Network(nodes, Lists(slotlist, reschdList, handles, model.lay.slots, model.core.pending))
    {
      hide Network, Lists, HeadsOk, PlaceOf, Contained;
      ContainedIds(|handles|, model.lay, model.core);
      ghost var c := model.core;
      assert Matches(e, c.info[e.id], PlaceOf(model.lay, e.id));
      e.opcode := opcode;
      e.timeInterval := timeInterval;
      e.newTimeInterval := newTimeInterval;
      forall x | x in m'.core.info ensures Matches(handles[x], m'.core.info[x], PlaceOf(m'.lay, x)) {
        if x != e.id {
          assert handles[x].id == x;
          assert old(Matches(handles[x], c.info[x], PlaceOf(model.lay, x)));
        }
      }
    }

    /** `free`: the handle must not be used any more. */
    method Free(e: WheelElem)
      requires Valid() && e.id in model.core.info && handles[e.id] == e && e.id !in model.core.pending
      requires forall i: nat | i < |model.lay.slots| :: e.id !in model.lay.slots[i]
      modifies this`model, this`live
      ensures Valid()
      ensures model == old(model).(core := old(model.core).(info := old(model.core.info) - {e.id}))
    {
      hide Network, Lists, Contained, HeadsOk;
      ghost var c := model.core;
      ContainedIds(|handles|, model.lay, c);
      ghost var c' := c.(info := c.info - {e.id});
      ContainedCore(|handles|, model.lay, c, |handles|, c');
      live := live - {e.id};
      model := model.(core := c');
    }

    method PushResched(e: WheelElem)
      requires Valid() && e.id in model.core.info && handles[e.id] == e && e.id !in model.core.pending
      modifies nodes, this`model
      ensures Valid()
      ensures model == old(model).(core := old(model.core).(pending := [e.id] + old(model.core.pending)))
    {
      hide Network, Lists, Contained, OnSome;
      ghost var m := model;
      ContainedIds(|handles|, m.lay, m.core);
      ghost var ids, chains := m.core.pending, Lists(slotlist, reschdList, handles, m.lay.slots, m.core.pending);
      OffAll(slotlist, reschdList, handles, m.lay.slots, ids, e.id, 1);
      ListsPending(slotlist, reschdList, handles, m.lay.slots, ids, [e.id] + ids);
      ChainPushed(reschdList, handles, ids, e.id);
      PushNode(reschdList, e.reschedGlue, nodes, chains, |slotlist|);
      ContainedPending(|handles|, m.lay, m.core, [e.id] + ids);
      model := m.(core := m.core.(pending := [e.id] + ids));
    }

    /** Without a callback nothing is registered and there is no handle to return. */
    method TimerRegisterAppEvent(hasCallback: bool, timeInterval: nat, isRecursive: bool) returns (e: WheelElem?)
      requires Valid() && LegalInterval(ClockIntervalMs(), timeInterval)
      modifies nodes, this`model, this`handles, this`live, this`nodes, this`repr
      ensures Valid() && fresh(repr - old(repr)) && fresh(nodes - old(nodes))
      ensures !hasCallback ==> e == null && model == old(model)
      ensures hasCallback ==>
                && e != null && fresh(e) && handles == old(handles) + [e]
                && model == old(model).(core := Post(old(model.core), Register(timeInterval, isRecursive)))
    {
      hide Network, Contained, FieldsOk, Lists, Enqueue, HeadsOk, TableOk;
      if !hasCallback {
        return null;
      }
      e := new WheelElem(|handles|, isRecursive);
      AddHandle(e);
      PostRequest(e, timeInterval, Create);
    }

    lemma TableGrows(h: seq<WheelElem>, e: WheelElem)
      requires TableOk(h) && e.id == e.glue.elem == e.reschedGlue.elem == |h| && e.glue.family == 0
          && e.reschedGlue.family == 1
      ensures TableOk(h + [e])
    {}

    /** The freshly allocated element: all zeros, on no list. */
    method AddHandle(e: WheelElem)
      requires Valid() && e !in repr && e.glue !in repr && e.reschedGlue !in repr
      requires e.id == e.glue.elem == e.reschedGlue.elem == |handles| && e.glue.family == 0 && e.reschedGlue.family == 1
      requires e.opcode == Create && e.timeInterval == e.newTimeInterval == e.executeCycleNo == e.slotNo == 0
      requires Alone(e.glue) && Alone(e.reschedGlue)
      modifies this`model, this`handles, this`live, this`nodes, this`repr
      ensures Valid() && handles == old(handles) + [e] && repr == old(repr) + {e, e.glue, e.reschedGlue}
      ensures nodes == old(nodes) + {e.glue, e.reschedGlue}
      ensures var c := old(model.core);
              model == old(model).(core := c.(info := c.info[c.next := Info(Create, 0, 0, e.isRecurrence)],
                  next := c.next + 1))
    {
      hide Lists, Contained, Network, HeadsOk, Within, TableOk;
      ghost var m, c := model, model.core;
      TableGrows(handles, e);
      ghost var c' := c.(info := c.info[c.next := Info(Create, 0, 0, e.isRecurrence)], next := c.next + 1);
      ContainedIds(|handles|, m.lay, c);
      ContainedCore(|handles|, m.lay, c, |handles| + 1, c');
      ListsGrow(slotlist, reschdList, handles, e, m.lay, c);
      NetworkGrow(nodes, Lists(slotlist, reschdList, handles, m.lay.slots, m.core.pending), {e.glue, e.reschedGlue});
      handles := handles + [e];
      live := live + {e.id};
      model := m.(core := c');
      nodes := nodes + {e.glue, e.reschedGlue};
      repr := repr + {e, e.glue, e.reschedGlue};
    }
  
    method TimerReschedule(e: WheelElem, newTimeInterval: nat)
      requires Valid() && e.id in model.core.info && handles[e.id] == e
      requires LegalInterval(ClockIntervalMs(), newTimeInterval)
      modifies nodes, this`model, e`opcode, e`timeInterval, e`newTimeInterval
      ensures Valid()
      ensures e.id in old(model.core.info)
      ensures model == old(model).(core := Post(old(model.core), Reschedule(e.id, newTimeInterval)))
    {
      hide Network, Contained, FieldsOk, TableOk, Lists, Enqueue;
      PostRequest(e, newTimeInterval, Resched);
    }

    method TimerDeRegisterAppEvent(e: WheelElem)
      requires Valid() && e.id in model.core.info && handles[e.id] == e
      modifies nodes, this`model, e`opcode, e`timeInterval, e`newTimeInterval
      ensures Valid()
      ensures e.id in old(model.core.info)
      ensures model == old(model).(core := Post(old(model.core), Deregister(e.id)))
    {
      hide Network, Contained, FieldsOk, TableOk, Lists, Enqueue;
      PostRequest(e, 0, Delete);
    }

    /** One call an application makes, if the API allows it. */
    method Serve(r: Request)
      requires Valid()
      modifies repr
      ensures Valid() && fresh(repr - old(repr)) && old(handles) <= handles
      ensures model == old(model).(core := if Allowed(old(model.core), r) then Post(old(model.core), r)
          else old(model.core))
    {
      hide Network, Contained, FieldsOk, Lists, Enqueue;
      ContainedIds(|handles|, model.lay, model.core);
      match r
      case Register(ms, rec) =>
        if LegalInterval(ClockIntervalMs(), ms) {
          var e := TimerRegisterAppEvent(true, ms, rec);
        }
      case Reschedule(id, ms) =>
        if id in live && LegalInterval(ClockIntervalMs(), ms) {
          TimerReschedule(handles[id], ms);
        }
      case Deregister(id) =>
        if id in live {
          TimerDeRegisterAppEvent(handles[id]);
        }
    }

    function CurrentAbsSlotNo(): nat
      reads this
    {
      currentCycleNo * wheelSize + currentClockTic
    }

    /** `app_callback`: the firing becomes part of the history the application knows, and it may
        answer with calls of its own. */
    method RunCallback(app: App, id: nat)
      requires Valid()
      modifies repr
      ensures Valid() && fresh(repr - old(repr)) && old(handles) <= handles
      ensures model == old(model).(core := Callback(old(model.core), app, id, Now(old(model))))
    {
      hide Network, Contained, FieldsOk, Lists, Post, Owned, TableOk;
      ghost var m := model;
      RecordFiring(id);
      ghost var c := model.core;
      var rs, i := app(fired), 0;
      while i < |rs|
        invariant 0 <= i <= |rs| && Valid() && fresh(repr - old(repr)) && old(handles) <= handles
        invariant model == m.(core := model.core) && PostAll(c, rs) == PostAll(model.core, rs[i..])
      {
        Serve(rs[i]);
        assert rs[i..][1..] == rs[i + 1..];
        i := i + 1;
      }
      assert rs[i..] == [];
    }

    method RecordFiring(id: nat)
      requires Valid()
      modifies this`model, this`fired
      ensures Valid() && fired == model.core.trace
      ensures model == old(model).(core :=
          old(model.core).(trace := old(model.core.trace) + [Firing(id, Now(old(model)))]))
    {
      hide Network, Lists, Contained;
      fired := fired + [Firing(id, CurrentAbsSlotNo())];
      ContainedIds(|handles|, model.lay, model.core);
      ContainedCore(|handles|, model.lay, model.core, |handles|, model.core.(trace := fired));
      model := model.(core := model.core.(trace := fired));
    }

    /** `wt_get_remaining_time`. */
    method GetRemainingTime(e: WheelElem) returns (ms: int)
      requires Valid() && e.id in model.core.info && handles[e.id] == e
      ensures ms == Remaining(model, e.id)
    {
      hide Network, Lists, Contained;
      if e.opcode == Create || e.opcode == Resched {
        return e.newTimeInterval;
      }
      var slot := e.executeCycleNo * wheelSize + e.slotNo;
      var diff := slot - CurrentAbsSlotNo();
      return diff * ClockIntervalMs();
    }
  
    method AdvanceClock()
      requires Valid()
      modifies this`currentClockTic, this`currentCycleNo, this`model
      ensures Valid() && model == Advance(old(model))
    {
      hide Network, Lists, Contained;
      ContainedIds(|handles|, model.lay, model.core);
      currentClockTic := currentClockTic + 1;
      if currentClockTic == wheelSize {
        currentClockTic := 0;
        currentCycleNo := currentCycleNo + 1;
      }
      model := Advance(model);
    }

    /** The body of the loop in `wheel_fn` for an element of the current cycle. */
    method FireElem(e: WheelElem, app: App, absoluteSlotNo: nat)
      requires Valid() && Shape(model) && CoreOk(model.core) && e.id in model.core.info && handles[e.id] == e
      requires absoluteSlotNo == Now(model)
      modifies repr
      ensures Valid() && fresh(repr - old(repr)) && old(handles) <= handles
      ensures Shape(old(model)) && e.id in old(model.core.info)
      ensures model == FireOne(old(model), app, e.id)
    {
      hide Network, Lists, Contained, Callback, Layouts.Unlink, Put, FieldsOk, CoreOk;
      ghost var m := model;
      ElemFields(e.id);
      CallbackOk(m.core, app, e.id, Now(m));
      RunCallback(app, e.id);
      ElemFields(e.id);
      if !e.isRecurrence {
        UnlinkGlue(e);
      }
      if e.isRecurrence {
        UnlinkGlue(e);
        UnlinkedNowhere(m.lay, e.id);
        var nextAbsSlotNo := absoluteSlotNo + Ticks(ClockIntervalMs(), e.timeInterval);
        LinkGlue(e, nextAbsSlotNo);
        PutUnlinked(m.lay, e.id, nextAbsSlotNo);
      } else {
        UnlinkGlue(e);
        UnlinkTwice(m.lay, e.id);
      }
    }

    lemma ElemFields(id: nat)
      requires Valid() && id in model.core.info
      ensures id < |handles| && handles[id].id == id
      ensures handles[id].isRecurrence == model.core.info[id].recurring
      ensures handles[id].timeInterval == model.core.info[id].interval
      ensures handles[id].newTimeInterval == model.core.info[id].newInterval
      ensures handles[id].opcode == model.core.info[id].op
      ensures handles[id].executeCycleNo == PlaceOf(model.lay, id).cycle
      ensures handles[id] in repr
    {
      hide Network, Lists;
      ContainedIds(|handles|, model.lay, model.core);
    }
  
    ghost predicate LinksOf(s: seq<nat>, head: GlThread)
      requires forall j | 0 <= j < |s| :: s[j] < |handles|
      reads this, head, nodes
    {
      && head.right == (if s == [] then null else handles[s[0]].glue)
      && (s != [] ==>
            && handles[s[0]].glue in nodes
            && handles[s[0]].glue.right == if |s| == 1 then null else handles[s[1]].glue)
    }

    /** What the links of a slot list say. */
    lemma SlotLinks()
      requires Valid()
      ensures |slotlist| == |model.lay.slots| && currentClockTic < |slotlist| && model.tic == currentClockTic
      ensures var s := model.lay.slots[currentClockTic];
              && (forall j | 0 <= j < |s| :: s[j] < |handles| && s[j] in model.core.info)
              && LinksOf(s, slotlist[currentClockTic])
    {
      hide Contained, Lists, HeadsOk, Apart, OnSome;
      ContainedIds(|handles|, model.lay, model.core);
      ContainedAt(|handles|, model.lay, model.core, currentClockTic);
      var s := model.lay.slots[currentClockTic];
      var c := Lists(slotlist, reschdList, handles, model.lay.slots, model.core.pending)[currentClockTic];
      assert ChainOk(nodes, c);
      assert LinkedAt(c, 0) && c[0] in c;
      if s != [] {
        assert LinkedAt(c, 1);
      }
    }

    lemma ClockFields()
      requires Valid()
      ensures currentClockTic == model.tic && currentCycleNo == model.cycle && CurrentAbsSlotNo() == Now(model)
    {}

    lemma StartWalk(w: Wheel, app: App) returns (ids: seq<nat>)
      requires Valid() && WheelOk(w) && model == Advance(w)
      ensures currentClockTic < |slotlist| && CurrentAbsSlotNo() == Now(model) && Walk(w, app, model, ids)
      ensures At(model, handles, slotlist[currentClockTic].right, ids, model.cycle)
    {
      hide Network, Lists, Contained, LayoutOk, CoreOk, ResidentsOk, ThisCycle, FireOne;
      AdvanceNow(w);
      FiringList(w);
      ids := ThisCycle(model.lay.slots[model.tic], model.lay.place, model.cycle);
      ClockFields();
      SlotLinks();
      FirstInSlot(model, ids);
    }

    /** At a node of the current cycle: it is the first to fire, and what follows it. */
    lemma Standing(w: Wheel, curr: GlThread, app: App, ids: seq<nat>)
      requires Valid() && WheelOk(w) && Walk(w, app, model, ids) && At(model, handles, curr, ids, model.cycle)
      ensures 0 <= curr.elem < |handles| && curr.elem in model.core.info && handles[curr.elem].id == curr.elem
      ensures ids != [] <==> handles[curr.elem].executeCycleNo == currentCycleNo
      ensures ids != [] ==>
                ids[0] == curr.elem && At(FireOne(model, app, ids[0]), handles, curr.right, ids[1..], model.cycle)
    {
      hide Network, Lists, Contained, LayoutOk, CoreOk, ResidentsOk, ThisCycle, FieldsOk, FireOne, Fired;
      SlotLinks();
      ClockFields();
      FirstInSlot(model, ids);
      ElemFields(curr.elem);
      if ids != [] {
        SecondInSlot(model, app, ids);
      }
    }

    lemma WalkEnd(w: Wheel, app: App, curr: GlThread?, ids: seq<nat>)
      requires WheelOk(w) && Walk(w, app, model, ids)
      requires ids != [] ==> curr == null && At(model, handles, curr, ids, model.cycle)
      ensures model == Fired(w, app)
    {}

    /** The loop of `wheel_fn`: fire the slot of the current tick, up to the first element of
        another cycle.  The next node is read before the body relinks the current one. */
    method FireSlot(app: App, ghost w: Wheel)
      requires Valid() && WheelOk(w) && model == Advance(w)
      modifies repr
      ensures Valid() && fresh(repr - old(repr)) && model == Fired(w, app)
    {
      hide Network, Lists, Contained, CoreOk, ThisCycle, FieldsOk, FireOne, TableOk, At, Walk, WheelOk, HeadsOk, Now;
      ghost var ids := StartWalk(w, app);
      var absoluteSlotNo := CurrentAbsSlotNo();
      var curr := slotlist[currentClockTic].right;
      while curr != null
        invariant Valid() && fresh(repr - old(repr)) && absoluteSlotNo == Now(model)
        invariant Walk(w, app, model, ids) && At(model, handles, curr, ids, model.cycle)
        decreases |ids|
      {
        Standing(w, curr, app, ids);
        var next := curr.right;
        var e := handles[curr.elem];
        if currentCycleNo != e.executeCycleNo {
          break;
        }
        Fires(w, model, app, ids);
        ghost var h := handles;
        FireElem(e, app, absoluteSlotNo);
        ids := ids[1..];
        AtGrows(model, h, handles, next, ids, model.cycle);
        curr := next;
      }
      WalkEnd(w, app, curr, ids);
    }
  
    /** An unlinked element takes its new interval and its place in the wheel. */
    method Reposition(e: WheelElem)
      requires Valid() && Shape(model) && e.id in model.core.info && handles[e.id] == e
      requires forall i: nat | i < |model.lay.slots| :: e.id !in model.lay.slots[i]
      modifies nodes, this`model, e
      ensures Valid() && Shape(old(model)) && e.timeInterval == e.newTimeInterval == old(e.newTimeInterval)
          && e.opcode == old(e.opcode)
      ensures var m, ms := old(model), old(e.newTimeInterval);
              && e.id in m.core.info
              && model == m.(core := m.core.(info := m.core.info[e.id := Info(e.opcode, ms, ms, e.isRecurrence)]),
                             lay := Put(m.lay, e.id, Now(m) + Ticks(m.core.tickMs, ms)))
    {
      hide Network, Lists, Contained, Put, FieldsOk, Ticks, Matches, TableOk, HeadsOk, Chain;
      SetFields(e, e.opcode, e.newTimeInterval, e.newTimeInterval);
      ClockFields();
      var absoluteSlotNo := CurrentAbsSlotNo();
      var nextAbsSlotNo := absoluteSlotNo + Ticks(ClockIntervalMs(), e.timeInterval);
      LinkGlue(e, nextAbsSlotNo);
    }

    /** One round of the loop of `process_wt_reschedule_slotlist`. */
    method AdoptElem(e: WheelElem)
      requires Valid() && Shape(model) && CoreOk(model.core) && model.core.pending != []
          && model.core.pending[0] == e.id
      requires e.id in model.core.info && handles[e.id] == e
      modifies nodes, this`model, this`live, e
      ensures Valid()
      ensures Shape(old(model)) && old(model.core.pending) != [] && old(model.core.pending)[0] in old(model.core.info)
      ensures model == AdoptOne(old(model))
    {
      hide Valid, Network, Lists, Contained, Layouts.Unlink, Put, FieldsOk, CoreOk, Ticks, Matches, TableOk, HeadsOk,
          Chain;
      ghost var m, c, id := model, model.core, e.id;
      ElemFields(id);
      FirstPending(c);
      UnlinkGlue(e);
      UnlinkedNowhere(m.lay, id);
      if e.opcode == Create || e.opcode == Resched {
        Reposition(e);
        PutUnlinked(m.lay, id, Now(m) + Ticks(c.tickMs, e.timeInterval));
        UnlinkResched(e);
        SetFields(e, Scheduled, e.timeInterval, e.newTimeInterval);
      } else if e.opcode == Delete {
        UnlinkResched(e);
        Free(e);
      }
    }

    lemma PendingLinks()
      requires Valid()
      ensures var s := model.core.pending;
              && (forall j | 0 <= j < |s| :: s[j] < |handles| && s[j] in model.core.info)
              && reschdList.right == (if s == [] then null else handles[s[0]].reschedGlue)
              && (s != [] ==> handles[s[0]].reschedGlue.right == if |s| == 1 then null else handles[s[1]].reschedGlue)
    {
      ContainedIds(|handles|, model.lay, model.core);
      var s := model.core.pending;
      var c := Lists(slotlist, reschdList, handles, model.lay.slots, model.core.pending)[|slotlist|];
      assert ChainOk(nodes, c);
      assert LinkedAt(c, 0) && c[0] in c;
      forall j | 0 <= j < |s| ensures s[j] < |handles| && s[j] in model.core.info {
        assert s[j] in s;
      }
      if s != [] {
        assert LinkedAt(c, 1);
      }
    }

    /** `process_wt_reschedule_slotlist`. */
    method ProcessReschedule()
      requires Valid() && WheelOk(model)
      modifies repr
      ensures Valid() && repr == old(repr) && model == Drain(old(model))
    {
      hide Network, Lists, Contained, LayoutOk, ResidentsOk, FieldsOk, AdoptOne, CoreOk, Now;
      ghost var w := model;
      WeakerFrom(w, Now(w) + 1, Now(w));
      PendingLinks();
      var curr := reschdList.right;
      while curr != null
        invariant Valid() && repr == old(repr) && nodes == old(nodes) && handles == old(handles)
        invariant WheelOkFrom(model, Now(model)) && Drain(w) == Drain(model)
        invariant if model.core.pending == [] then curr == null
                  else model.core.pending[0] < |handles| && curr == handles[model.core.pending[0]].reschedGlue
        decreases |model.core.pending|
      {
        PendingLinks();
        var next := curr.right;
        var e := handles[curr.elem];
        DrainStep(model);
        AdoptElem(e);
        curr := next;
      }
      PendingLinks();
    }

    /** `wheel_fn`: one tick of the wheel. */
    method WheelFn(app: App)
      requires Valid() && WheelOk(model)
      modifies repr
      ensures Valid() && fresh(repr - old(repr))
      ensures WheelOk(old(model)) && model == DoTick(old(model), app)
    {
      hide Network, Lists, Contained, WheelOk, FieldsOk, Fired, Drain, Advance;
      ghost var w := model;
      FiredOk(w, app);
      AdvanceClock();
      FireSlot(app, w);
      ProcessReschedule();
    }
  }
}
