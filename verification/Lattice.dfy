/** The dependency lattice of pending IROBs: an id-indexed map kept as a deque with a
    moving offset, with placeholders, back edges, and an incremental set of dominators. */
module Lattice {
  import opened Sequences

  /** The scheduling half of a pending IROB. */
  datatype Irob = Irob(id: int, deps: set<int>, dependents: set<int>,
                       anonymous: bool, placeholder: bool, ondemand: bool)

  function Placeholder(id: int): Irob {
    Irob(id, {}, {}, false, true, false)
  }

  /** The abstract lattice: what the deque stands for, and the bookkeeping beside it. */
  datatype State = State(live: map<int, Irob>, past: set<int>, dropped: set<int>,
                         dominators: set<int>, lastAnon: int, count: int)

  function Empty(): State {
    State(map[], {}, {}, {}, -1, 0)
  }

  predicate Insertable(s: State, id: int) {
    id !in s.past && (id in s.live ==> s.live[id].placeholder)
  }

  datatype Corrected = Corrected(deps: set<int>, dominators: set<int>, lastAnon: int)

  /** The receiver drops satisfied deps; the sender infers the implicit ones. */
  function CorrectDeps(past: set<int>, dominators: set<int>, lastAnon: int, r: Irob, infer: bool): Corrected {
    if !infer then
      Corrected(r.deps - past, dominators, lastAnon)
    else if r.anonymous then
      if lastAnon >= 0 && dominators == {} then
        Corrected(r.deps + {lastAnon}, dominators, r.id)
      else
        Corrected(r.deps + dominators, {}, r.id)
    else
      var isect := r.deps * dominators;
      Corrected(if lastAnon >= 0 && isect == {} then r.deps + {lastAnon} else r.deps,
                dominators - isect + {r.id}, lastAnon)
  }

  /** Every member of `ds` gets a back edge to `id`, through a new placeholder if need be. */
  function Link(live: map<int, Irob>, id: int, ds: set<int>): map<int, Irob> {
    map k | k in live.Keys + ds ::
      var base := if k in live then live[k] else Placeholder(k);
      if k in ds then base.(dependents := base.dependents + {id}) else base
  }

  function Adopt(r: Irob, other: Irob): Irob {
    r.(dependents := r.dependents + other.dependents)
  }

  function Inserted(s: State, r: Irob, infer: bool): State {
    if !Insertable(s, r.id) then s
    else
      var mine := if r.id in s.live then Adopt(r, s.live[r.id]) else r;
      if r.placeholder then s.(live := s.live[r.id := mine])
      else
        var c := CorrectDeps(s.past, s.dominators, s.lastAnon, r, infer);
        var live := Link(s.live[r.id := mine.(deps := c.deps)], r.id, c.deps - s.past);
        s.(live := live, dominators := c.dominators, lastAnon := c.lastAnon, count := s.count + 1)
  }

  /** The dependents of an erased IROB that are still here lose that dependency. */
  function Satisfy(live: map<int, Irob>, id: int, dependents: set<int>): map<int, Irob> {
    map k | k in live ::
      if k in dependents then live[k].(deps := live[k].deps - {id}) else live[k]
  }

  function Erased(s: State, id: int, atReceiver: bool): State {
    if id !in s.live then s
    else
      var rest := s.live - {id};
      s.(live := if atReceiver then Satisfy(rest, id, s.live[id].dependents) else rest,
         past := s.past + {id},
         dominators := if atReceiver then s.dominators - {id} else s.dominators,
         count := s.count - 1)
  }

  /** Erasing an entry removes it and no other, makes its id past, and takes it out of the deps of its
      live dependents at the receiver; the sender's dominators are left alone. */
  lemma EraseExactly(s: State, id: int, atReceiver: bool)
    requires id in s.live
    ensures var t := Erased(s, id, atReceiver);
            && t.live.Keys == s.live.Keys - {id} && t.past == s.past + {id} && t.dropped == s.dropped
            && t.lastAnon == s.lastAnon && t.count == s.count - 1
            && (forall k :: k in t.live ==>
                  t.live[k] == s.live[k].(deps := t.live[k].deps)
                  && t.live[k].deps == if atReceiver && k in s.live[id].dependents then s.live[k].deps - {id}
                                       else s.live[k].deps)
            && (forall k :: k in t.dominators <==> k in s.dominators && !(atReceiver && k == id))
  {
  }

  // ----- Dependency bookkeeping -----

  /** Every unsatisfied dep has a live entry that knows about its dependent. */
  ghost predicate Linked(s: State) {
    && (forall k :: k in s.live ==> s.live[k].id == k && k !in s.past)
    && (forall r, d :: r in s.live && d in s.live[r].deps && d !in s.past ==>
          d in s.live && r in s.live[d].dependents)
  }

  ghost predicate Settled(s: State) {
    forall r :: r in s.live ==> s.live[r].deps !! s.past
  }

  lemma InsertKeepsLinked(s: State, r: Irob, infer: bool)
    requires Linked(s)
    requires r.placeholder ==> r.deps == {} && r.id !in s.live
    ensures Linked(Inserted(s, r, infer))
    ensures !infer && Settled(s) ==> Settled(Inserted(s, r, infer))
  {
  }

  lemma EraseKeepsLinked(s: State, id: int, atReceiver: bool)
    requires Linked(s)
    ensures Linked(Erased(s, id, atReceiver))
    ensures atReceiver && Settled(s) ==> Settled(Erased(s, id, atReceiver))
  {
  }

  function Real(s: State): set<int> {
    set k | k in s.live && !s.live[k].placeholder
  }

  lemma InsertCounts(s: State, r: Irob, infer: bool)
    requires s.count == |Real(s)|
    requires r.placeholder ==> r.id !in s.live
    ensures Inserted(s, r, infer).count == |Real(Inserted(s, r, infer))|
  {
    var t := Inserted(s, r, infer);
    if Insertable(s, r.id) {
      if r.placeholder {
        assert Real(t) == Real(s);
      } else {
        assert Real(t) == Real(s) + {r.id};
      }
    }
  }

  /** The counter stays right exactly when placeholders are not erased. */
  lemma EraseCounts(s: State, id: int, atReceiver: bool)
    requires s.count == |Real(s)|
    ensures Erased(s, id, atReceiver).count == |Real(Erased(s, id, atReceiver))| <==>
            (id in s.live ==> !s.live[id].placeholder)
  {
    var t := Erased(s, id, atReceiver);
    if id in s.live {
      assert Real(t) == Real(s) - {id};
    }
  }

  // ----- Reachability through dependents, for drops -----

  ghost predicate DependentPath(live: map<int, Irob>, p: seq<int>) {
    && |p| > 0
    && (forall i :: 0 <= i < |p| ==> p[i] in live)
    && (forall i :: 0 <= i < |p| - 1 ==> p[i + 1] in live[p[i]].dependents)
  }

  /** `b` is a live IROB that `a` reaches through live back edges. */
  ghost predicate Reaches(live: map<int, Irob>, a: int, b: int) {
    exists p :: DependentPath(live, p) && p[0] == a && p[|p| - 1] == b
  }

  ghost function Closure(live: map<int, Irob>, id: int): set<int> {
    set k | k in live && Reaches(live, id, k)
  }

  lemma ReachesStep(live: map<int, Irob>, a: int, b: int, c: int)
    requires Reaches(live, a, b)
    requires c in live && c in live[b].dependents
    ensures Reaches(live, a, c)
  {
    var p :| DependentPath(live, p) && p[0] == a && p[|p| - 1] == b;
    var q := p + [c];
    assert DependentPath(live, q) && q[0] == a && q[|q| - 1] == c;
  }

  /** Anything closed under live back edges that holds `a` holds all that `a` reaches. */
  lemma ClosedHoldsPath(live: map<int, Irob>, done: set<int>, p: seq<int>)
    requires DependentPath(live, p) && p[0] in done
    requires forall k, d :: k in done && k in live && d in live[k].dependents && d in live ==> d in done
    ensures p[|p| - 1] in done
  {
    var i := 0;
    while i < |p| - 1
      invariant 0 <= i < |p| && p[i] in done
    {
      var k, d := p[i], p[i + 1];
      assert k in done && k in live && d in live[k].dependents && d in live;
      i := i + 1;
    }
  }

  function Dropped(s: State, gone: set<int>): State {
    s.(live := s.live - gone, past := s.past + gone, dropped := s.dropped + gone,
       count := s.count - |gone|)
  }

  /** After a drop nothing left depends directly on anything that drop removed. */
  lemma DropLeavesNoOrphan(s: State, id: int, r: int, d: int)
    requires Linked(s)
    requires r in s.live && r !in Closure(s.live, id) && d in s.live[r].deps
    ensures d !in Closure(s.live, id)
  {
    if d in Closure(s.live, id) {
      ReachesStep(s.live, id, d, r);
    }
  }

  lemma DropKeepsLinked(s: State, id: int)
    requires Linked(s)
    ensures Linked(Dropped(s, Closure(s.live, id)))
  {
    var gone := Closure(s.live, id);
    var t := Dropped(s, gone);
    assert forall k :: k in t.live <==> k in s.live && k !in gone;
    forall r, d | r in t.live && d in t.live[r].deps && d !in t.past
      ensures d in t.live && r in t.live[d].dependents
    {
      DropLeavesNoOrphan(s, id, r, d);
    }
  }

  lemma DroppedNothing(s: State)
    ensures Dropped(s, {}) == s
  {
    assert s.live - {} == s.live;
  }

  // ----- The deque -----

  type Slots = seq<Option<Irob>>

  function Slot(slots: Slots, offset: int, k: int): Option<Irob> {
    if offset <= k < offset + |slots| then slots[k - offset] else None
  }

  /** The map a deque with an offset stands for. */
  function ViewOf(slots: Slots, offset: int): map<int, Irob> {
    map k | offset <= k < offset + |slots| && Slot(slots, offset, k).Some? :: Slot(slots, offset, k).value
  }

  ghost predicate Placed(slots: Slots, offset: int) {
    forall k :: Slot(slots, offset, k).Some? ==> Slot(slots, offset, k).value.id == k
  }

  lemma SameSlotsSameView(a: Slots, i: int, b: Slots, j: int)
    requires forall k :: Slot(a, i, k) == Slot(b, j, k)
    ensures ViewOf(a, i) == ViewOf(b, j)
    ensures Placed(a, i) <==> Placed(b, j)
  {
  }

  lemma PushFrontView(slots: Slots, offset: int)
    ensures ViewOf([None] + slots, offset - 1) == ViewOf(slots, offset)
    ensures Placed([None] + slots, offset - 1) <==> Placed(slots, offset)
  {
    SameSlotsSameView([None] + slots, offset - 1, slots, offset);
  }

  lemma PopFrontView(slots: Slots, offset: int)
    requires slots != [] && slots[0].None?
    ensures ViewOf(slots[1..], offset + 1) == ViewOf(slots, offset)
    ensures Placed(slots[1..], offset + 1) <==> Placed(slots, offset)
  {
    assert slots == [None] + slots[1..];
    PushFrontView(slots[1..], offset + 1);
  }

  lemma GrowView(slots: Slots, offset: int, n: nat)
    ensures ViewOf(slots + seq(n, _ => None), offset) == ViewOf(slots, offset)
    ensures Placed(slots + seq(n, _ => None), offset) <==> Placed(slots, offset)
  {
    SameSlotsSameView(slots + seq(n, _ => None), offset, slots, offset);
  }

  lemma StoreView(slots: Slots, offset: int, r: Irob)
    requires offset <= r.id < offset + |slots| && Placed(slots, offset)
    ensures var t := slots[r.id - offset := Some(r)];
            ViewOf(t, offset) == ViewOf(slots, offset)[r.id := r] && Placed(t, offset)
  {
    var t := slots[r.id - offset := Some(r)];
    assert forall k :: Slot(t, offset, k) == if k == r.id then Some(r) else Slot(slots, offset, k);
  }

  lemma ClearView(slots: Slots, offset: int, id: int)
    requires offset <= id < offset + |slots| && Placed(slots, offset)
    ensures var t := slots[id - offset := None];
            ViewOf(t, offset) == ViewOf(slots, offset) - {id} && Placed(t, offset)
  {
    var t := slots[id - offset := None];
    assert forall k :: Slot(t, offset, k) == if k == id then None else Slot(slots, offset, k);
  }

  lemma LinkOneMore(live: map<int, Irob>, id: int, ds: set<int>, d: int)
    requires d !in ds
    ensures var m := Link(live, id, ds);
            var e := if d in live then live[d] else Placeholder(d);
            && (d in m <==> d in live)
            && (d in m ==> m[d] == e)
            && Link(live, id, ds + {d}) == m[d := e.(dependents := e.dependents + {id})]
  {
  }

  lemma SatisfyOneMore(live: map<int, Irob>, id: int, ds: set<int>, d: int)
    requires d !in ds
    ensures var m := Satisfy(live, id, ds);
            && (d in m <==> d in live)
            && (d in live ==> m[d] == live[d])
            && Satisfy(live, id, ds + {d}) ==
               if d in live then m[d := live[d].(deps := live[d].deps - {id})] else m
  {
  }

  class PendingIROBLattice {
    var pending: Slots
    var offset: int
    var lastAnon: int
    var count: int
    var dominators: set<int>
    var past: set<int>
    var dropped: set<int>

    /** The front is never null, and an entry's position is its id less the offset. */
    ghost predicate Valid()
      reads this
    {
      Placed(pending, offset) && (pending != [] ==> pending[0].Some?)
    }

    ghost function View(): map<int, Irob>
      reads this
    {
      ViewOf(pending, offset)
    }

    ghost function Abs(): State
      reads this
    {
      State(View(), past, dropped, dominators, lastAnon, count)
    }

    constructor ()
      ensures Valid() && Abs() == Empty()
    {
      pending, offset, lastAnon, count := [], 0, -1, 0;
      dominators, past, dropped := {}, {}, {};
    }

    method IsEmpty() returns (r: bool)
      requires Valid()
      ensures r <==> View() == map[]
    {
      r := pending == [];
      if pending != [] {
        assert Slot(pending, offset, offset).Some?;
        assert offset in View();
      }
    }

    method Find(id: int) returns (r: Option<Irob>)
      requires Valid()
      ensures r == if id in View() then Some(View()[id]) else None
    {
      var index := id - offset;
      if index < 0 || index >= |pending| {
        return None;
      }
      assert pending[index] == Slot(pending, offset, id);
      return pending[index];
    }

    /** Makes room for `id` without changing what the deque stands for. */
    method Reserve(id: int)
      requires Valid()
      modifies `pending, `offset
      ensures View() == old(View()) && Placed(pending, offset)
      ensures offset <= id < offset + |pending|
      ensures id == offset || pending[0].Some?
    {
      if pending == [] {
        offset := id;
        SameSlotsSameView(pending, offset, old(pending), old(offset));
      }
      var index := id - offset;
      while index < 0
        invariant index == id - offset
        invariant View() == old(View()) && Placed(pending, offset)
        invariant index >= 0 ==> id == offset || (pending != [] && pending[0].Some?)
        decreases -index
      {
        PushFrontView(pending, offset);
        pending := [None] + pending;
        offset := offset - 1;
        index := id - offset;
      }
      if |pending| <= index {
        GrowView(pending, offset, index + 1 - |pending|);
        pending := pending + seq(index + 1 - |pending|, _ => None);
      }
    }

    /** Overwrites the slot of `r`. */
    method Put(r: Irob)
      requires Placed(pending, offset)
      requires offset <= r.id < offset + |pending|
      requires r.id == offset || pending[0].Some?
      modifies `pending
      ensures Valid() && View() == old(View())[r.id := r]
      ensures |pending| == |old(pending)|
    {
      StoreView(pending, offset, r);
      pending := pending[r.id - offset := Some(r)];
    }

    method AddDependent(d: int, id: int)
      requires Valid() && d in View()
      modifies `pending
      ensures Valid()
      ensures var e := old(View())[d]; View() == old(View())[d := e.(dependents := e.dependents + {id})]
    {
      assert Slot(pending, offset, d).Some?;
      var entry := pending[d - offset].value;
      Put(entry.(dependents := entry.dependents + {id}));
    }

    method Insert(r: Irob, infer: bool) returns (ok: bool)
      requires Valid()
      requires r.placeholder ==> r.id !in View()
      modifies this
      ensures Valid() && Abs() == Inserted(old(Abs()), r, infer)
      ensures ok == Insertable(old(Abs()), r.id)
      decreases if r.placeholder then 0 else 1, 3
    {
      if r.id in past {
        return false;
      }
      var index := r.id - offset;
      assert 0 <= index < |pending| ==> Slot(pending, offset, r.id) == pending[index];
      if pending != [] && 0 <= index < |pending| && pending[index].Some? && !pending[index].value.placeholder {
        return false;
      }
      Accept(r, infer);
      return true;
    }

    /** The new entry takes over the placeholder it replaces. */
    method Accept(r: Irob, infer: bool)
      requires Valid() && Insertable(Abs(), r.id)
      requires r.placeholder ==> r.id !in View()
      modifies this
      ensures Valid() && Abs() == Inserted(old(Abs()), r, infer)
      decreases if r.placeholder then 0 else 1, 2
    {
      Reserve(r.id);
      var index := r.id - offset;
      assert Slot(pending, offset, r.id) == pending[index];
      var mine := r;
      if pending[index].Some? {
        mine := Adopt(r, pending[index].value);
      }
      if r.placeholder {
        Put(mine);
      } else {
        Attach(r, mine, infer);
      }
    }

    /** Stores the entry with its deps corrected, then links it to them. */
    method Attach(r: Irob, mine: Irob, infer: bool)
      requires Placed(pending, offset) && r.id == mine.id
      requires offset <= r.id < offset + |pending| && (r.id == offset || pending[0].Some?)
      modifies this
      ensures Valid() && past == old(past) && dropped == old(dropped) && count == old(count) + 1
      ensures var c := CorrectDeps(past, old(dominators), old(lastAnon), r, infer);
              && dominators == c.dominators && lastAnon == c.lastAnon
              && View() == Link(old(View())[r.id := mine.(deps := c.deps)], r.id, c.deps - past)
      decreases 1, 1
    {
      var deps := CorrectDependencies(r, infer);
      Put(mine.(deps := deps));
      LinkDependencies(r.id, deps);
      count := count + 1;
    }

    /** Adds `id` as a dependent of each unsatisfied dep, creating the placeholders it needs. */
    method LinkDependencies(id: int, deps: set<int>)
      requires Valid()
      modifies this
      ensures Valid() && View() == Link(old(View()), id, deps - past)
      ensures past == old(past) && dropped == old(dropped) && count == old(count)
      ensures dominators == old(dominators) && lastAnon == old(lastAnon)
      decreases 1, 0
    {
      var todo := deps;
      assert deps - past - todo == {};
      assert Link(View(), id, {}) == View();
      while todo != {}
        invariant Valid() && todo <= deps
        invariant View() == Link(old(View()), id, deps - past - todo)
        invariant past == old(past) && dropped == old(dropped) && count == old(count)
        invariant dominators == old(dominators) && lastAnon == old(lastAnon)
      {
        SomeMember(todo);
        var d: int :| d in todo;
        ghost var before := deps - past - todo;
        todo := todo - {d};
        if d in past {
          assert deps - past - todo == before;
          continue;
        }
        LinkOneMore(old(View()), id, before, d);
        assert deps - past - todo == before + {d};
        LinkOne(id, d);
      }
      assert deps - past - {} == deps - past;
    }

    method LinkOne(id: int, d: int)
      requires Valid() && d !in past
      modifies this
      ensures var was := old(View());
              var e := if d in was then was[d] else Placeholder(d);
              Valid() && View() == was[d := e.(dependents := e.dependents + {id})]
      ensures past == old(past) && dropped == old(dropped) && count == old(count)
      ensures dominators == old(dominators) && lastAnon == old(lastAnon)
      decreases 0, 4
    {
      var known := Find(d);
      if known.None? {
        var inserted := Insert(Placeholder(d), true);
        assert inserted;
      }
      AddDependent(d, id);
    }

    method CorrectDependencies(r: Irob, infer: bool) returns (deps: set<int>)
      modifies `dominators, `lastAnon
      ensures var c := CorrectDeps(past, old(dominators), old(lastAnon), r, infer);
              deps == c.deps && dominators == c.dominators && lastAnon == c.lastAnon
    {
      deps := r.deps;
      if !infer {
        deps := RemoveDepsIn(deps);
      } else if r.anonymous {
        if lastAnon >= 0 && dominators == {} {
          deps := deps + {lastAnon};
        } else {
          deps := deps + dominators;
          dominators := {};
        }
        lastAnon := r.id;
      } else {
        var isect := deps * dominators;
        if lastAnon >= 0 && isect == {} {
          deps := deps + {lastAnon};
        }
        dominators := dominators - isect + {r.id};
      }
    }

    /** Removes the satisfied deps one by one. */
    method RemoveDepsIn(deps: set<int>) returns (kept: set<int>)
      ensures kept == deps - past
    {
      kept := deps;
      var todo := deps;
      while todo != {}
        invariant todo <= deps && kept == deps - (past - todo)
      {
        SomeMember(todo);
        var d: int :| d in todo;
        todo := todo - {d};
        if d in past {
          kept := kept - {d};
        }
      }
    }

    method EraseLocked(id: int, atReceiver: bool) returns (ok: bool)
      requires Valid()
      modifies this
      ensures Valid() && Abs() == Erased(old(Abs()), id, atReceiver)
      ensures ok == (id in old(View()))
    {
      var index := id - offset;
      assert 0 <= index < |pending| ==> Slot(pending, offset, id) == pending[index];
      if index < 0 || index >= |pending| || pending[index].None? {
        return false;
      }
      past := past + {id};
      if atReceiver {
        dominators := dominators - {id};
      }
      var victim := pending[index].value;
      ClearView(pending, offset, id);
      pending := pending[index := None];
      TrimFront();
      if atReceiver {
        NotifyDependents(id, victim.dependents);
      }
      count := count - 1;
      return true;
    }

    /** Pops null slots off the front. */
    method TrimFront()
      requires Placed(pending, offset)
      modifies `pending, `offset
      ensures Valid() && View() == old(View())
    {
      while pending != [] && pending[0].None?
        invariant Placed(pending, offset) && View() == old(View())
        decreases |pending|
      {
        PopFrontView(pending, offset);
        pending := pending[1..];
        offset := offset + 1;
      }
    }

    method NotifyDependents(id: int, dependents: set<int>)
      requires Valid()
      modifies `pending
      ensures Valid() && View() == Satisfy(old(View()), id, dependents)
    {
      var todo := dependents;
      assert dependents - todo == {};
      assert Satisfy(View(), id, {}) == View();
      while todo != {}
        invariant Valid() && todo <= dependents
        invariant View() == Satisfy(old(View()), id, dependents - todo)
      {
        SomeMember(todo);
        var d: int :| d in todo;
        ghost var before := dependents - todo;
        todo := todo - {d};
        assert dependents - todo == before + {d};
        SatisfyOneMore(old(View()), id, before, d);
        var dependent := Find(d);
        if dependent.None? {
          continue;
        }
        assert Slot(pending, offset, d).Some?;
        Put(dependent.value.(deps := dependent.value.deps - {id}));
      }
      assert dependents - {} == dependents;
    }

    method DropOne(id: int)
      requires Valid() && id in View()
      modifies this
      ensures Valid() && Abs() == Erased(old(Abs()), id, false).(dropped := old(dropped) + {id})
      ensures |View()| < |old(View())|
    {
      var erased := EraseLocked(id, false);
      dropped := dropped + {id};
      assert View().Keys == old(View()).Keys - {id};
    }

    /** Takes the next victim off the queue; its dependents join the end. */
    method DropNext(victims: seq<int>, ghost start: State, ghost id: int, ghost gone: set<int>)
      returns (rest: seq<int>, ghost gone': set<int>)
      requires Valid() && victims != []
      requires Abs() == Dropped(start, gone) && Frontier(start.live, id, gone, victims)
      modifies this
      ensures Valid()
      ensures Abs() == Dropped(start, gone') && Frontier(start.live, id, gone', rest)
      ensures |View()| < |old(View())| || (View() == old(View()) && |rest| < |victims|)
    {
      var next := victims[0];
      rest, gone' := victims[1..], gone;
      var entry := Find(next);
      if entry.Some? {
        var more := Listed(entry.value.dependents);
        FrontierAdvances(start.live, id, gone, victims, more);
        DroppedOneMore(start, gone, next);
        rest, gone' := rest + more, gone + {next};
        DropOne(next);
      } else {
        FrontierSkips(start.live, id, gone, victims);
      }
    }

    /** Breadth-first removal of `id` and all that depends on it. */
    method DropIrobAndDependents(id: int)
      requires Valid()
      modifies this
      ensures Valid() && Abs() == Dropped(old(Abs()), Closure(old(View()), id))
    {
      var victims := [id];
      ghost var start, gone: set<int> := Abs(), {};
      DroppedNothing(start);
      FrontierStarts(start.live, id);
      while victims != []
        invariant Valid()
        invariant Abs() == Dropped(start, gone) && Frontier(start.live, id, gone, victims)
        decreases |View()|, |victims|
      {
        victims, gone := DropNext(victims, start, id, gone);
      }
      FrontierEnds(start.live, id, gone);
    }
  }

  /** The invariant of the breadth-first search. */
  ghost predicate Frontier(was: map<int, Irob>, id: int, gone: set<int>, victims: seq<int>) {
    && gone <= was.Keys
    && (id in was ==> id in gone || id in victims)
    && (forall k :: k in gone ==> Reaches(was, id, k))
    && (forall v :: v in victims && v in was ==> Reaches(was, id, v))
    && (forall k, d :: k in gone && d in was[k].dependents && d in was ==> d in gone || d in victims)
  }

  lemma FrontierStarts(was: map<int, Irob>, id: int)
    ensures Frontier(was, id, {}, [id])
  {
    if id in was {
      assert DependentPath(was, [id]);
    }
  }

  lemma FrontierSkips(was: map<int, Irob>, id: int, gone: set<int>, victims: seq<int>)
    requires Frontier(was, id, gone, victims) && victims != []
    requires victims[0] !in was || victims[0] in gone
    ensures Frontier(was, id, gone, victims[1..])
  {
    assert forall v :: v in victims <==> v == victims[0] || v in victims[1..];
  }

  lemma FrontierAdvances(was: map<int, Irob>, id: int, gone: set<int>, victims: seq<int>, more: seq<int>)
    requires Frontier(was, id, gone, victims) && victims != [] && victims[0] in was
    requires forall v :: v in more <==> v in was[victims[0]].dependents
    ensures Frontier(was, id, gone + {victims[0]}, victims[1..] + more)
  {
    var next := victims[0];
    assert forall v :: v in victims <==> v == next || v in victims[1..];
    assert forall v :: v in victims[1..] + more <==> v in victims[1..] || v in more;
    assert Reaches(was, id, next);
    forall v | v in more && v in was
      ensures Reaches(was, id, v)
    {
      ReachesStep(was, id, next, v);
    }
  }

  lemma FrontierEnds(was: map<int, Irob>, id: int, gone: set<int>)
    requires Frontier(was, id, gone, [])
    ensures gone == Closure(was, id)
  {
    forall k | k in Closure(was, id)
      ensures k in gone
    {
      var p :| DependentPath(was, p) && p[0] == id && p[|p| - 1] == k;
      ClosedHoldsPath(was, gone, p);
    }
  }

  lemma DroppedOneMore(s: State, gone: set<int>, next: int)
    requires gone <= s.live.Keys && next in s.live && next !in gone
    ensures var t := Dropped(s, gone);
            next in t.live && Erased(t, next, false).(dropped := t.dropped + {next}) == Dropped(s, gone + {next})
  {
  }

  method Listed(s: set<int>) returns (r: seq<int>)
    ensures forall x :: x in r <==> x in s
  {
    r := [];
    var todo := s;
    while todo != {}
      invariant todo <= s
      invariant forall x :: x in r <==> x in s - todo
    {
      SomeMember(todo);
      var x: int :| x in todo;
      todo := todo - {x};
      r := r + [x];
    }
  }
}
