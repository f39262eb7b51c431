/** The two ways of holding the scheduled elements, and why they agree.

    `Layout` is the wheel's: one list per slot, sorted by execution cycle, with the cycle and
    slot stored in each element.  `Agenda` is the plain one: the elements in the order in which
    they were (re)scheduled, with the absolute tick at which each is due. */
module Layouts {
  import opened Arithmetic
  import opened Sequences

  datatype Place = Place(cycle: nat, slot: nat)
  datatype Layout = Layout(size: nat, slots: seq<seq<nat>>, place: map<nat, Place>)
  datatype Agenda = Agenda(order: seq<nat>, due: map<nat, nat>)

  /** The place of an element that was never scheduled is all zeros, as `calloc` leaves it. */
  function PlaceOf(l: Layout, id: nat): Place {
    if id in l.place then l.place[id] else Place(0, 0)
  }

  function DueOf(size: nat, p: Place): nat {
    p.cycle * size + p.slot
  }

  function CycleOf(place: map<nat, Place>, id: nat): nat {
    if id in place then place[id].cycle else 0
  }

  function RemoveAll(slots: seq<seq<nat>>, id: nat): (r: seq<seq<nat>>)
    ensures |r| == |slots|
    ensures forall i | 0 <= i < |slots| :: r[i] == Without(slots[i], id)
  {
    seq(|slots|, i requires 0 <= i < |slots| => Without(slots[i], id))
  }

  /** `glthread_priority_insert` with `insert_wt_elem_in_slot`: before the first element of a
      later cycle. */
  function InsertByCycle(s: seq<nat>, place: map<nat, Place>, id: nat): seq<nat> {
    if s == [] then [id]
    else if CycleOf(place, id) < CycleOf(place, s[0]) then [id] + s
    else [s[0]] + InsertByCycle(s[1..], place, id)
  }

  function Unlink(l: Layout, id: nat): Layout {
    l.(slots := RemoveAll(l.slots, id))
  }

  function Put(l: Layout, id: nat, due: nat): Layout
    requires l.size > 0 && |l.slots| == l.size
  {
    var p := Place(due / l.size, due % l.size);
    var place := l.place[id := p];
    var slots := RemoveAll(l.slots, id);
    l.(place := place, slots := slots[p.slot := InsertByCycle(slots[p.slot], place, id)])
  }

  /** Take `id` out of its list and, if it is to run again, insert it where it is due. */
  function Relink(l: Layout, id: nat, again: bool, due: nat): (r: Layout)
    requires l.size > 0 && |l.slots| == l.size
    ensures r.size == l.size && |r.slots| == |l.slots|
  {
    if again then Put(l, id, due) else Unlink(l, id)
  }

  /** The elements that `wheel_fn` reaches before its early `break`. */
  function ThisCycle(s: seq<nat>, place: map<nat, Place>, cycle: nat): seq<nat> {
    if s == [] || CycleOf(place, s[0]) != cycle then [] else [s[0]] + ThisCycle(s[1..], place, cycle)
  }

  function Drop(a: Agenda, id: nat): Agenda {
    a.(order := Without(a.order, id))
  }

  function Book(a: Agenda, id: nat, due: nat): Agenda {
    Agenda(Without(a.order, id) + [id], a.due[id := due])
  }

  function Rebook(a: Agenda, id: nat, again: bool, due: nat): Agenda {
    if again then Book(a, id, due) else Drop(a, id)
  }

  function AtDue(s: seq<nat>, due: map<nat, nat>, d: nat): (r: seq<nat>)
    ensures forall id | id in r :: id in s && id in due && due[id] == d
    ensures forall id | id in s && id in due && due[id] == d :: id in r
  {
    if s == [] then []
    else if s[0] in due && due[s[0]] == d then [s[0]] + AtDue(s[1..], due, d)
    else AtDue(s[1..], due, d)
  }

  // ---- invariants

  ghost predicate Sorted(s: seq<nat>, place: map<nat, Place>) {
    forall a, b | 0 <= a < b < |s| :: CycleOf(place, s[a]) <= CycleOf(place, s[b])
  }

  ghost predicate SlotOk(l: Layout, i: nat, from: nat)
    requires i < |l.slots|
  {
    && NoDup(l.slots[i])
    && Sorted(l.slots[i], l.place)
    && forall id | id in l.slots[i] :: id in l.place && l.place[id].slot == i && from <= DueOf(l.size, l.place[id])
  }

  /** Sorted slots, every element in the list of the slot it stores, none due before `from`. */
  ghost predicate LayoutOk(l: Layout, from: nat) {
    && l.size > 0 && |l.slots| == l.size
    && (forall i: nat | i < l.size :: SlotOk(l, i, from))
    && (forall id | id in l.place :: l.place[id].slot < l.size)
  }

  ghost predicate AgendaOk(a: Agenda, from: nat) {
    && NoDup(a.order)
    && forall id | id in a.order :: id in a.due && from <= a.due[id]
  }

  ghost predicate SameDues(l: Layout, a: Agenda) {
    && a.due.Keys == l.place.Keys
    && forall id | id in a.due :: a.due[id] == DueOf(l.size, l.place[id])
  }

  /** For every tick from `from` on, the slot of that tick and the agenda hold the same
      elements for it, in the same order. */
  ghost predicate SameBuckets(l: Layout, a: Agenda, from: nat)
    requires l.size > 0 && |l.slots| == l.size
  {
    forall d: nat | from <= d :: AtDue(l.slots[d % l.size], a.due, d) == AtDue(a.order, a.due, d)
  }

  ghost predicate Agree(l: Layout, a: Agenda, from: nat) {
    && LayoutOk(l, from) && AgendaOk(a, from) && SameDues(l, a) && SameBuckets(l, a, from)
  }

  // ---- arithmetic of slots and cycles

  lemma SplitDue(size: nat, due: nat)
    requires size > 0
    ensures DueOf(size, Place(due / size, due % size)) == due
  {}

  lemma PlaceUnique(size: nat, p: Place)
    requires p.slot < size
    ensures DueOf(size, p) / size == p.cycle && DueOf(size, p) % size == p.slot
  {
    DivMod(DueOf(size, p), size, p.cycle, p.slot);
  }

  lemma CycleOrder(size: nat, p: Place, q: Place)
    requires size > 0 && p.slot == q.slot
    ensures p.cycle < q.cycle <==> DueOf(size, p) < DueOf(size, q)
    ensures p.cycle == q.cycle <==> DueOf(size, p) == DueOf(size, q)
  {
    if p.cycle < q.cycle {
      assert (p.cycle + 1) * size <= q.cycle * size;
    } else if q.cycle < p.cycle {
      assert (q.cycle + 1) * size <= p.cycle * size;
    }
  }

  // ---- AtDue under removal and insertion

  lemma {:induction false} AtDueWithout(s: seq<nat>, due: map<nat, nat>, d: nat, id: nat)
    ensures AtDue(Without(s, id), due, d) == Without(AtDue(s, due, d), id)
  {
    if s != [] {
      AtDueWithout(s[1..], due, d, id);
      if s[0] != id {
        assert ([s[0]] + Without(s[1..], id))[1..] == Without(s[1..], id);
      }
      if s[0] in due && due[s[0]] == d {
        assert ([s[0]] + AtDue(s[1..], due, d))[1..] == AtDue(s[1..], due, d);
      }
    }
  }

  lemma {:induction false} AtDueAppend(s: seq<nat>, id: nat, due: map<nat, nat>, d: nat)
    requires id in due
    ensures AtDue(s + [id], due, d) == AtDue(s, due, d) + if due[id] == d then [id] else []
  {
    if s == [] {
      assert s + [id] == [id];
    } else {
      assert (s + [id])[1..] == s[1..] + [id];
      AtDueAppend(s[1..], id, due, d);
    }
  }

  lemma {:induction false} AtDueFrame(s: seq<nat>, due: map<nat, nat>, id: nat, x: nat, d: nat)
    requires id !in s
    ensures AtDue(s, due[id := x], d) == AtDue(s, due, d)
  {
    if s != [] {
      AtDueFrame(s[1..], due, id, x, d);
    }
  }

  lemma {:induction false} AtDueNone(s: seq<nat>, due: map<nat, nat>, d: nat)
    requires forall id | id in s :: id in due ==> due[id] != d
    ensures AtDue(s, due, d) == []
  {
    if s != [] {
      AtDueNone(s[1..], due, d);
    }
  }

  /** What a slot list and the due ticks of its elements have to do with each other. */
  ghost predicate InSlot(s: seq<nat>, place: map<nat, Place>, due: map<nat, nat>, size: nat, i: nat) {
    && size > 0
    && forall id | id in s :: id in place && id in due && place[id].slot == i && due[id] == DueOf(size, place[id])
  }

  lemma AllLater(s: seq<nat>, place: map<nat, Place>, due: map<nat, nat>, size: nat, i: nat, id: nat)
    requires Sorted(s, place) && InSlot(s, place, due, size, i) && InSlot([id], place, due, size, i)
    requires s != [] && CycleOf(place, id) < CycleOf(place, s[0])
    ensures forall x | x in s :: due[x] != due[id]
  {
    assert id in [id];
    forall x | x in s ensures due[x] != due[id] {
      CycleOrder(size, place[id], place[x]);
    }
  }

  lemma {:induction false} AtDueInsert(s: seq<nat>, place: map<nat, Place>, due: map<nat, nat>, size: nat, i: nat,
          id: nat, d: nat)
    requires Sorted(s, place) && InSlot(s, place, due, size, i) && InSlot([id], place, due, size, i)
    ensures AtDue(InsertByCycle(s, place, id), due, d) == AtDue(s, due, d) + if due[id] == d then [id] else []
  {
    hide DueOf;
    assert id in [id];
    if s == [] {
    } else if CycleOf(place, id) < CycleOf(place, s[0]) {
      assert ([id] + s)[1..] == s;
      if due[id] == d {
        AllLater(s, place, due, size, i, id);
        AtDueNone(s, due, d);
      }
    } else {
      AtDueInsert(s[1..], place, due, size, i, id, d);
      assert ([s[0]] + InsertByCycle(s[1..], place, id))[1..] == InsertByCycle(s[1..], place, id);
    }
  }

  lemma {:induction false} InsertElems(s: seq<nat>, place: map<nat, Place>, id: nat)
    ensures multiset(InsertByCycle(s, place, id)) == multiset(s) + multiset{id}
    ensures forall x :: x in InsertByCycle(s, place, id) <==> x in s || x == id
  {
    if s != [] && CycleOf(place, s[0]) <= CycleOf(place, id) {
      InsertElems(s[1..], place, id);
      assert s == [s[0]] + s[1..];
    }
    forall x ensures x in InsertByCycle(s, place, id) <==> x in s || x == id {
      assert x in InsertByCycle(s, place, id) <==> x in multiset(InsertByCycle(s, place, id));
      assert x in s <==> x in multiset(s);
    }
  }

  lemma {:induction false} InsertSorted(s: seq<nat>, place: map<nat, Place>, id: nat)
    requires Sorted(s, place) && NoDup(s) && id !in s
    ensures Sorted(InsertByCycle(s, place, id), place) && NoDup(InsertByCycle(s, place, id))
  {
    if s != [] && CycleOf(place, s[0]) <= CycleOf(place, id) {
      InsertSorted(s[1..], place, id);
      InsertElems(s[1..], place, id);
      var r := InsertByCycle(s[1..], place, id);
      forall b | 0 <= b < |r| ensures r[b] != s[0] && CycleOf(place, s[0]) <= CycleOf(place, r[b]) {
        assert r[b] in r;
      }
    }
  }

  /** The early break is sound: in a sorted slot with nothing overdue, the elements before the
      first one of another cycle are exactly those due now. */
  lemma {:induction false} ThisCycleIsDueNow(s: seq<nat>, place: map<nat, Place>, due: map<nat, nat>, size: nat,
          i: nat, cycle: nat)
    requires Sorted(s, place) && InSlot(s, place, due, size, i)
    requires forall id | id in s :: DueOf(size, Place(cycle, i)) <= due[id]
    ensures ThisCycle(s, place, cycle) == AtDue(s, due, DueOf(size, Place(cycle, i)))
  {
    if s == [] {
    } else {
      CycleOrder(size, place[s[0]], Place(cycle, i));
      if place[s[0]].cycle == cycle {
        ThisCycleIsDueNow(s[1..], place, due, size, i, cycle);
      } else {
        forall x | x in s ensures due[x] != DueOf(size, Place(cycle, i)) {
          CycleOrder(size, place[x], Place(cycle, i));
        }
        AtDueNone(s, due, DueOf(size, Place(cycle, i)));
      }
    }
  }

  // ---- the operations keep the invariants and the agreement

  lemma {:induction false} WithoutSorted(s: seq<nat>, place: map<nat, Place>, id: nat)
    requires Sorted(s, place)
    ensures Sorted(Without(s, id), place)
  {
    if s != [] {
      WithoutSorted(s[1..], place, id);
      var r := Without(s[1..], id);
      forall b | 0 <= b < |r| ensures CycleOf(place, s[0]) <= CycleOf(place, r[b]) {
        assert r[b] in r;
      }
    }
  }

  lemma UnlinkOk(l: Layout, id: nat, from: nat)
    requires LayoutOk(l, from)
    ensures LayoutOk(Unlink(l, id), from)
  {
    forall i: nat | i < l.size ensures SlotOk(Unlink(l, id), i, from) {
      assert SlotOk(l, i, from);
      WithoutNoDup(l.slots[i], id);
      WithoutSorted(l.slots[i], l.place, id);
    }
  }

  lemma PutOk(l: Layout, id: nat, due: nat, from: nat)
    requires LayoutOk(l, from) && from <= due
    ensures LayoutOk(Put(l, id, due), from)
  {
    var l' := Put(l, id, due);
    SplitDue(l.size, due);
    UnlinkOk(l, id, from);
    var u := Unlink(l, id);
    forall i: nat | i < l.size ensures SlotOk(l', i, from) {
      assert SlotOk(u, i, from);
      assert Sorted(u.slots[i], l'.place);
      if i == due % l.size {
        InsertSorted(u.slots[i], l'.place, id);
        InsertElems(u.slots[i], l'.place, id);
      }
    }
  }

  lemma UnlinkAgree(l: Layout, a: Agenda, id: nat, from: nat)
    requires Agree(l, a, from)
    ensures Agree(Unlink(l, id), Drop(a, id), from)
  {
    UnlinkOk(l, id, from);
    WithoutNoDup(a.order, id);
    forall d: nat | from <= d
      ensures AtDue(Unlink(l, id).slots[d % l.size], a.due, d) == AtDue(Drop(a, id).order, a.due, d)
    {
      AtDueWithout(l.slots[d % l.size], a.due, d, id);
      AtDueWithout(a.order, a.due, d, id);
    }
  }

  lemma PutBucket(l: Layout, a: Agenda, id: nat, due: nat, from: nat, d: nat)
    requires Agree(l, a, from) && from <= due && from <= d
    requires id !in a.order && forall i: nat | i < l.size :: id !in l.slots[i]
    ensures AtDue(Put(l, id, due).slots[d % l.size], a.due[id := due], d) == AtDue(a.order + [id], a.due[id := due], d)
  {
    hide AtDue, InsertByCycle;
    var due', l', i := a.due[id := due], Put(l, id, due), d % l.size;
    SplitDue(l.size, due);
    assert SlotOk(l, i, from);
    AtDueFrame(l.slots[i], a.due, id, due, d);
    AtDueFrame(a.order, a.due, id, due, d);
    AtDueAppend(a.order, id, due', d);
    assert RemoveAll(l.slots, id)[i] == l.slots[i];
    assert AtDue(l.slots[i], a.due, d) == AtDue(a.order, a.due, d);
    if i == due % l.size {
      AtDueInsert(l.slots[i], l'.place, due', l.size, i, id, d);
    }
  }

  lemma PutAgree(l: Layout, a: Agenda, id: nat, due: nat, from: nat)
    requires Agree(l, a, from) && from <= due
    ensures Agree(Put(l, id, due), Book(a, id, due), from)
  {
    var u, b := Unlink(l, id), Drop(a, id);
    UnlinkAgree(l, a, id, from);
    PutOk(l, id, due, from);
    SplitDue(l.size, due);
    assert RemoveAll(u.slots, id) == u.slots;
    assert Put(u, id, due) == Put(l, id, due);
    forall d: nat | from <= d
      ensures AtDue(Put(l, id, due).slots[d % l.size], Book(a, id, due).due, d) ==
          AtDue(Book(a, id, due).order, Book(a, id, due).due, d)
    {
      PutBucket(u, b, id, due, from, d);
    }
  }

  lemma RelinkOk(l: Layout, id: nat, again: bool, due: nat, from: nat)
    requires LayoutOk(l, from) && (again ==> from <= due)
    ensures LayoutOk(Relink(l, id, again, due), from)
  {
    if again {
      PutOk(l, id, due, from);
    } else {
      UnlinkOk(l, id, from);
    }
  }

  lemma RelinkAgree(l: Layout, a: Agenda, id: nat, again: bool, due: nat, from: nat)
    requires Agree(l, a, from) && (again ==> from <= due)
    ensures Agree(Relink(l, id, again, due), Rebook(a, id, again, due), from)
  {
    if again {
      PutAgree(l, a, id, due, from);
    } else {
      UnlinkAgree(l, a, id, from);
    }
  }

  /** Membership is the same too: an element is on the agenda iff it is in the slot it stores. */
  lemma AgreeMembers(l: Layout, a: Agenda, from: nat, id: nat)
    requires Agree(l, a, from)
    ensures id in a.order <==> exists i: nat :: i < l.size && id in l.slots[i]
    ensures id in a.order ==> id in l.place && id in l.slots[l.place[id].slot]
  {
    if id in a.order {
      var d := a.due[id];
      assert id in AtDue(a.order, a.due, d);
      assert id in l.slots[d % l.size];
      PlaceUnique(l.size, l.place[id]);
    }
    if i: nat :| i < l.size && id in l.slots[i] {
      assert SlotOk(l, i, from);
      var d := a.due[id];
      PlaceUnique(l.size, l.place[id]);
      assert id in AtDue(l.slots[d % l.size], a.due, d);
      assert id in AtDue(a.order, a.due, d);
    }
  }
}
