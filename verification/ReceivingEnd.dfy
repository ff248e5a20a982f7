/** The receiving object: its message handlers and its read loop, step by step. */
module ReceivingEnd {
  import opened Sequences
  import opened Lattice
  import opened ReceiverIrob
  import opened Scheduling
  import opened Receiver
  import opened Delivery

  /** What one call of recv does: it reads until `len` bytes are gathered or nothing is ready,
      and without `waitAll` it stops after one finished IROB. */
  ghost function RecvResult(w: World, h: Sends, len: nat, waitAll: bool): (u: World)
    requires NonEmptySends(h) && Inv(w.s, h) && LogOk(w, h)
    ensures Inv(u.s, h) && LogOk(u, h)
    decreases len
  {
    if len == 0 || NextUp(w.s).None? then w
    else
      var u := Step(w, h, ReadUpTo(len));
      var got := |u.output| - |w.output|;
      if waitAll && |u.delivered| > |w.delivered| && 0 < got <= len
      then RecvResult(u, h, len - got, waitAll)
      else u
  }

  lemma ReadTakes(w: World, h: Sends, n: nat)
    requires NonEmptySends(h) && Inv(w.s, h) && LogOk(w, h) && n > 0 && NextUp(w.s).Some?
    ensures var u := Step(w, h, ReadUpTo(n));
            && |w.output| < |u.output| <= |w.output| + n && w.output <= u.output
            && (|u.delivered| <= |w.delivered| ==> |u.output| == |w.output| + n)
  {
    hide TakeFrom, Handle;
    NextUpDrains(w.s, h);
    var k := NextUp(w.s).value;
    ReadEffect(w, h, n);
    DrainStep(w.s.bodies[k], h[k].pieces, n);
  }

  /** Consecutive reads, as events of a run. */
  ghost function ReadAll(w: World, h: Sends, sizes: seq<nat>): (u: World)
    requires NonEmptySends(h) && Inv(w.s, h) && LogOk(w, h)
    ensures Inv(u.s, h) && LogOk(u, h)
    decreases |sizes|
  {
    hide InvBut, LogOk, Step;
    if sizes == [] then w else ReadAll(Step(w, h, ReadUpTo(sizes[0])), h, sizes[1..])
  }

  /** A call of recv is a run of single reads; without `waitAll`, of at most one. It returns
      short only when nothing more is ready or, without `waitAll`, at the end of an IROB. */
  lemma {:induction false} RecvIsReads(w: World, h: Sends, len: nat, waitAll: bool) returns (sizes: seq<nat>)
    requires NonEmptySends(h) && Inv(w.s, h) && LogOk(w, h)
    ensures var u := RecvResult(w, h, len, waitAll);
            && ReadAll(w, h, sizes) == u && (!waitAll ==> |sizes| <= 1)
            && w.output <= u.output && |u.output| <= |w.output| + len
            && (len > 0 && NextUp(w.s).Some? ==> |u.output| > |w.output|)
            && (waitAll && |u.output| < |w.output| + len ==> NextUp(u.s).None?)
            && (!waitAll && |u.output| < |w.output| + len ==> NextUp(w.s).None? || |u.delivered| > |w.delivered|)
    decreases len
  {
    hide Step, InvBut, LogOk, NextUp;
    if len == 0 || NextUp(w.s).None? {
      sizes := [];
    } else {
      ReadTakes(w, h, len);
      var u := Step(w, h, ReadUpTo(len));
      if |u.delivered| > |w.delivered| && waitAll {
        var rest := RecvIsReads(u, h, len - (|u.output| - |w.output|), waitAll);
        sizes := [len] + rest;
        assert sizes[1..] == rest;
      } else {
        sizes := [len];
        assert sizes[1..] == [];
        LogGrowsOnly(w, h, len);
      }
    }
  }

  lemma RecvUnfolds(w: World, h: Sends, len: nat, waitAll: bool)
    requires NonEmptySends(h) && Inv(w.s, h) && LogOk(w, h) && len > 0 && NextUp(w.s).Some?
    ensures var u := Step(w, h, ReadUpTo(len));
            && |w.output| < |u.output| <= |w.output| + len
            && (|u.delivered| <= |w.delivered| ==> |u.output| == |w.output| + len)
            && RecvResult(w, h, len, waitAll) ==
               if |u.delivered| > |w.delivered| && waitAll
               then RecvResult(u, h, len - (|u.output| - |w.output|), waitAll) else u
  {
    hide InvBut, LogOk, Step, NextUp;
    ReadTakes(w, h, len);
  }

  lemma RecvUnready(w: World, h: Sends, len: nat, waitAll: bool)
    requires NonEmptySends(h) && Inv(w.s, h) && LogOk(w, h) && (len == 0 || NextUp(w.s).None?)
    ensures RecvResult(w, h, len, waitAll) == w
  {
  }

  lemma LogGrowsOnly(w: World, h: Sends, n: nat)
    requires NonEmptySends(h) && Inv(w.s, h) && LogOk(w, h) && n > 0 && NextUp(w.s).Some?
    ensures |Step(w, h, ReadUpTo(n)).delivered| >= |w.delivered|
  {
    hide TakeFrom, Handle;
    ReadEffect(w, h, n);
  }

  lemma FirstUnique(ids: set<int>, key: int -> Task, a: int, b: int)
    requires forall k :: key(k).id == k && key(k).time == NEVER
    requires FirstOf(ids, key, a) && FirstOf(ids, key, b)
    ensures a == b
  {
  }

  class PendingReceiverIROBLattice {
    const incoming: PendingIROBLattice
    var bodies: map<int, Body>
    var ready: set<int>
    var reading: Option<int>
    var acks: set<int>
    var fatal: bool
    ghost var delivered: seq<int>
    ghost var output: seq<byte>

    ghost function Abs(): Recv
      reads this, incoming
    {
      Recv(incoming.Abs(), bodies, ready, reading, acks, fatal)
    }

    ghost function Log(): World
      reads this, incoming
    {
      World(Abs(), delivered, output)
    }

    ghost predicate Valid()
      reads this, incoming
    {
      incoming.Valid() && Matched(Abs())
    }

    constructor ()
      ensures Valid() && fresh(incoming) && Log() == NewWorld()
    {
      incoming := new PendingIROBLattice();
      bodies, ready, reading, acks, fatal := map[], {}, None, {}, false;
      delivered, output := [], [];
    }

    /** The ReadyIROB test, and the release it guards. */
    method ReleaseIfReady(id: int)
      requires Valid()
      modifies this`bodies, this`ready
      ensures Valid() && Abs() == Release(old(Abs()), {id})
    {
      var entry := incoming.Find(id);
      if entry.Some? && IsComplete(bodies[id]) && !entry.value.placeholder && entry.value.deps == {} {
        if !bodies[id].released {
          bodies := bodies[id := bodies[id].(released := true)];
          ready := ready + {id};
        } else {
          assert bodies[id].(released := true) == bodies[id];
        }
      }
    }

    method ReleaseDependents(dependents: set<int>)
      requires Valid()
      modifies this`bodies, this`ready
      ensures Valid() && Abs() == Release(old(Abs()), dependents)
    {
      var todo := dependents;
      ReleaseNone(Abs());
      assert dependents - todo == {};
      while todo != {}
        invariant Valid() && todo <= dependents
        invariant Abs() == Release(old(Abs()), dependents - todo)
      {
        SomeMember(todo);
        var d: int :| d in todo;
        ghost var before := dependents - todo;
        todo := todo - {d};
        assert dependents - todo == before + {d};
        ReleaseMore(old(Abs()), before, d);
        ReleaseIfReady(d);
      }
      assert dependents - {} == dependents;
    }

    /** Release if ready, and acknowledge if complete. */
    method FinishMessage(id: int)
      requires Valid() && id in bodies
      modifies this`bodies, this`ready, this`acks
      ensures Valid() && Abs() == Settle(old(Abs()), id)
    {
      var entry := incoming.Find(id);
      var done := IsComplete(bodies[id]);
      ReleaseIfReady(id);
      if done && !entry.value.placeholder {
        acks := acks + {id};
      }
    }

    /** Each placeholder the lattice made starts with an empty body. */
    method AddBodies(deps: set<int>)
      requires incoming.Valid()
      modifies this`bodies
      ensures bodies.Keys == old(bodies).Keys + (deps * incoming.View().Keys)
      ensures forall k :: k in old(bodies) ==> bodies[k] == old(bodies)[k]
      ensures forall k :: k in bodies && k !in old(bodies) ==> bodies[k] == Fresh()
    {
      var todo := deps;
      while todo != {}
        invariant todo <= deps
        invariant bodies.Keys == old(bodies).Keys + ((deps - todo) * incoming.View().Keys)
        invariant forall k :: k in old(bodies) ==> bodies[k] == old(bodies)[k]
        invariant forall k :: k in bodies && k !in old(bodies) ==> bodies[k] == Fresh()
      {
        SomeMember(todo);
        var d: int :| d in todo;
        todo := todo - {d};
        var entry := incoming.Find(d);
        if entry.Some? && d !in bodies {
          bodies := bodies[d := Fresh()];
        }
      }
    }

    method DoBeginIrob(id: int, deps: set<int>, ondemand: bool)
      requires Valid()
      modifies this`bodies, this`ready, this`acks, incoming
      ensures Valid() && Abs() == HandleBegin(old(Abs()), id, deps, ondemand)
    {
      hide Inserted, Settle, Subsume, Release;
      var inserted := incoming.Insert(NewIrob(id, deps, ondemand), false);
      if !inserted {
        RefusedBegin(old(Abs()), id, deps, ondemand);
        RefusedInsert(old(Abs()).lattice, NewIrob(id, deps, ondemand));
        return;
      }
      var mine := Fresh();
      if id in bodies {
        mine := Subsume(Fresh(), bodies[id]);
      }
      bodies := bodies[id := mine];
      AddBodies(deps);
      BeginBodies(old(Abs()), id, deps, ondemand, bodies);
      hide BeginEntry;
      FinishMessage(id);
    }

    /** Finds the entry for a chunk or End, making a placeholder when the id is new. */
    method EnsureEntry(id: int) returns (present: bool)
      requires Valid()
      modifies this`bodies, incoming
      ensures Valid() && Abs() == WithEntry(old(Abs()), id)
      ensures present == (id in bodies)
      ensures !present ==> id in old(Abs()).lattice.past && id !in old(Abs()).lattice.live
    {
      var entry := incoming.Find(id);
      if entry.None? {
        if id in incoming.past {
          return false;
        }
        var inserted := incoming.Insert(Placeholder(id), false);
        assert inserted;
        bodies := bodies[id := Fresh()];
      }
      return true;
    }

    method DoIrobChunk(id: int, c: Incoming)
      requires Valid()
      modifies this`bodies, this`ready, this`acks, this`fatal, incoming
      ensures Valid() && Abs() == HandleChunk(old(Abs()), id, c)
    {
      var present := EnsureEntry(id);
      if !present {
        return;
      }
      var r := AddChunk(bodies[id], c);
      bodies := bodies[id := r.body];
      if !r.ok && !IsComplete(r.body) {
        fatal := true;
        return;
      }
      FinishMessage(id);
    }

    method DoEndIrob(id: int, bytes: nat, count: nat)
      requires Valid()
      modifies this`bodies, this`ready, this`acks, incoming
      ensures Valid() && Abs() == HandleEnd(old(Abs()), id, bytes, count)
    {
      var present := EnsureEntry(id);
      if !present {
        acks := acks + {id};
        return;
      }
      var r := Finish(bodies[id], bytes, count);
      bodies := bodies[id := r.body];
      FinishMessage(id);
    }

    /** The partially read IROB if there is one, else the first ready one in scheduling order. */
    method GetReadyIrob() returns (r: Option<int>)
      requires Valid() && forall k :: k in ready ==> k in bodies
      modifies this`ready, this`reading
      ensures r == NextUp(old(Abs()))
      ensures reading == None && ready == (if r.Some? && old(reading).None? then old(ready) - {r.value} else old(ready))
      ensures r.None? <==> old(reading).None? && old(ready) == {}
      ensures old(reading).Some? ==> r == old(reading)
      ensures var live := incoming.View();
              old(reading).None? && r.Some? ==>
                r.value in old(ready) && r.value in live &&
                forall k :: k in old(ready) ==>
                  k in live && (live[k].ondemand ==> live[r.value].ondemand)
                  && (live[k].ondemand == live[r.value].ondemand ==> r.value <= k)
    {
      NextUpMeans(Abs());
      if reading.Some? {
        r := reading;
        reading := None;
        return;
      }
      if ready == {} {
        return None;
      }
      var first := FirstReady();
      FirstUnique(ready, Key(Abs()), first, NextUp(Abs()).value);
      ready := ready - {first};
      return Some(first);
    }

    method FirstReady() returns (first: int)
      requires Valid() && ready != {} && forall k :: k in ready ==> k in bodies
      ensures FirstOf(ready, Key(Abs()), first)
    {
      SomeMember(ready);
      first :| first in ready;
      var todo := ready - {first};
      var best := incoming.Find(first);
      ghost var key := Key(Abs());
      while todo != {}
        invariant todo <= ready && first in ready && first !in todo
        invariant best.Some? && best.value == Abs().lattice.live[first]
        invariant forall j :: j in ready && j !in todo ==> j == first || Before(key(first), key(j))
        decreases todo
      {
        SomeMember(todo);
        var j: int :| j in todo;
        todo := todo - {j};
        var other := incoming.Find(j);
        SameTimeTotalOrder(key(j), key(first), key(j));
        if Before(Task(j, other.value.ondemand, NEVER), Task(first, best.value.ondemand, NEVER)) {
          ghost var was := first;
          first, best := j, other;
          forall i | i in ready && i !in todo
            ensures i == first || Before(key(first), key(i))
          {
            SameTimeTotalOrder(key(j), key(was), key(i));
          }
        }
      }
    }

    /** Erases a finished IROB and releases what waited for it. */
    method EraseFinished(k: int)
      requires Valid() && k in bodies && k !in ready && reading == None
      modifies this`bodies, this`ready, incoming
      ensures Valid()
      ensures Abs() == Release(Gone(old(Abs()), k), old(Abs()).lattice.live[k].dependents)
    {
      var entry := incoming.Find(k);
      var erased := incoming.EraseLocked(k, true);
      bodies := bodies - {k};
      assert ready - {k} == ready;
      assert Abs() == Gone(old(Abs()), k);
      GoneMatched(old(Abs()), k);
      hide Gone, Erased, Release;
      ReleaseDependents(entry.value.dependents);
    }

    /** Reads from IROB `k`, which has just been taken off the ready set. */
    method TakeBytes(k: int, n: nat, ghost w: World) returns (buf: seq<byte>, finished: bool)
      requires Valid() && k in bodies && Readable(bodies[k])
      requires Log() == w.(s := w.s.(ready := w.s.ready - {k}, reading := None))
      modifies this, incoming
      ensures Valid() && Log() == TakeFrom(w, k, n)
      ensures output == old(output) + buf
      ensures finished <==> |delivered| > |old(delivered)|
    {
      var b := bodies[k];
      buf := Unread(b)[..Min(n, |Unread(b)|)];
      var a := RemoveBytes(b, n);
      finished := IsComplete(a) && a.numBytes == 0;
      Taken(w, k, n);
      hide Unread, RemoveBytes, IsComplete, Release, Gone, TakeFrom, Readable;
      output := output + buf;
      if finished {
        GoneFrom(w.s, Abs(), k);
        EraseFinished(k);
        delivered := delivered + [k];
      } else {
        bodies := bodies[k := a];
        reading := Some(k);
      }
    }

    /** One turn of the read loop. */
    method ReadOne(n: nat, ghost h: Sends) returns (buf: seq<byte>, finished: bool)
      requires Valid() && NonEmptySends(h) && Inv(Abs(), h) && LogOk(Log(), h)
      requires n > 0 && NextUp(Abs()).Some?
      modifies this, incoming
      ensures Valid() && Log() == Step(old(Log()), h, ReadUpTo(n))
      ensures output == old(output) + buf
      ensures finished <==> |delivered| > |old(delivered)|
    {
      hide InvBut, LogOk, Draining, TakeFrom, Step, NextUp, Deliverable;
      ghost var w := Log();
      NextUpDrains(w.s, h);
      InvFacts(w.s, h);
      StepTakes(w, h, n);
      ReadyWhileUp(w.s, h, NextUp(w.s).value);
      var up := GetReadyIrob();
      buf, finished := TakeBytes(up.value, n, w);
    }

    /** Reads up to `len` bytes of what is ready now. */
    method Receive(len: nat, waitAll: bool, ghost h: Sends) returns (buf: seq<byte>)
      requires Valid() && NonEmptySends(h) && Inv(Abs(), h) && LogOk(Log(), h)
      modifies this, incoming
      ensures Valid() && Inv(Abs(), h) && LogOk(Log(), h)
      ensures Log() == RecvResult(old(Log()), h, len, waitAll) && output == old(output) + buf
    {
      hide InvBut, LogOk, Step, RecvResult, NextUp, NonEmptySends;
      buf := [];
      ghost var w := Log();
      while |buf| < len
        invariant Valid() && NonEmptySends(h) && Inv(Abs(), h) && LogOk(Log(), h)
        invariant output == old(output) + buf && |buf| <= len
        invariant RecvResult(w, h, len, waitAll) == RecvResult(Log(), h, len - |buf|, waitAll)
        decreases len - |buf|
      {
        if reading.None? && ready == {} {
          RecvUnready(Log(), h, len - |buf|, waitAll);
          return;
        }
        ReadTakes(Log(), h, len - |buf|);
        RecvUnfolds(Log(), h, len - |buf|, waitAll);
        var piece, finished := ReadOne(len - |buf|, h);
        buf := buf + piece;
        if finished && !waitAll {
          return;
        }
        if !finished {
          assert |buf| == len;
          RecvUnready(Log(), h, 0, waitAll);
          return;
        }
      }
      RecvUnready(Log(), h, 0, waitAll);
    }
  }

  lemma ReleaseNone(s: Recv)
    ensures Release(s, {}) == s
  {
  }

  lemma ReleaseMore(s: Recv, ids: set<int>, d: int)
    ensures Release(Release(s, ids), {d}) == Release(s, ids + {d})
  {
  }

  lemma StepTakes(w: World, h: Sends, n: nat)
    requires NonEmptySends(h) && Inv(w.s, h) && LogOk(w, h) && n > 0 && NextUp(w.s).Some?
    ensures CanRead(w.s) && Step(w, h, ReadUpTo(n)) == TakeFrom(w, NextUp(w.s).value, n)
  {
    hide InvBut, LogOk, TakeFrom, Handle;
    NextUpDrains(w.s, h);
  }

  lemma Taken(w: World, k: int, n: nat)
    requires k in w.s.lattice.live && k in w.s.bodies && Readable(w.s.bodies[k])
    ensures var s, b := w.s, w.s.bodies[k];
            var a := RemoveBytes(b, n);
            var output := w.output + Unread(b)[..Min(n, |Unread(b)|)];
            TakeFrom(w, k, n) ==
              if IsComplete(a) && a.numBytes == 0 then
                World(Release(Gone(s, k), s.lattice.live[k].dependents), w.delivered + [k], output)
              else
                World(s.(bodies := s.bodies[k := a], ready := s.ready - {k}, reading := Some(k)), w.delivered, output)
  {
  }

  lemma RefusedInsert(s: State, r: Irob)
    requires !Insertable(s, r.id)
    ensures Inserted(s, r, false) == s
  {
  }

  lemma GoneMatched(s: Recv, k: int)
    requires Matched(s)
    ensures Matched(Gone(s, k))
  {
  }

  /** Taking `k` off the ready set first makes no difference to erasing it. */
  lemma GoneFrom(s: Recv, t: Recv, k: int)
    requires k in s.lattice.live && t == s.(ready := s.ready - {k}, reading := None)
    ensures Gone(t, k) == Gone(s, k)
  {
  }

  /** An IROB being read is not in the ready set. */
  lemma ReadyWhileUp(s: Recv, h: Sends, k: int)
    requires Inv(s, h) && NextUp(s) == Some(k)
    ensures s.reading.Some? ==> s.ready - {k} == s.ready
  {
    if s.reading.Some? {
      assert ReleasedRightly(s, k);
    }
  }

  lemma BeginBodies(s: Recv, id: int, deps: set<int>, ondemand: bool, bodies: map<int, Body>)
    requires Matched(s) && Insertable(s.lattice, id)
    requires var t := BeginEntry(s, id, deps, ondemand);
             var mine := if id in s.bodies then Subsume(Fresh(), s.bodies[id]) else Fresh();
             var start := s.bodies[id := mine];
             && bodies.Keys == start.Keys + (deps * t.lattice.live.Keys)
             && (forall k :: k in start ==> bodies[k] == start[k])
             && (forall k :: k in bodies && k !in start ==> bodies[k] == Fresh())
    ensures var t := BeginEntry(s, id, deps, ondemand);
            t == s.(lattice := Inserted(s.lattice, NewIrob(id, deps, ondemand), false), bodies := bodies)
  {
    BeginKeys(s, id, deps, ondemand);
    hide Subsume, Inserted;
  }

  lemma BeginKeys(s: Recv, id: int, deps: set<int>, ondemand: bool)
    requires Matched(s) && Insertable(s.lattice, id)
    ensures var live := Inserted(s.lattice, NewIrob(id, deps, ondemand), false).live;
            live.Keys == s.lattice.live.Keys + {id} + (deps * live.Keys)
  {
  }
}
