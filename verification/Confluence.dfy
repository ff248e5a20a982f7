/** Without reads, the receiver's state depends only on which messages have arrived. */
module Confluence {
  import opened Sequences
  import opened Lattice
  import opened ReceiverIrob
  import opened Receiver

  ghost predicate Begun(h: Sends, msgs: seq<Msg>, k: int) {
    k in h && BeginMsg(k, h[k].deps, h[k].ondemand) in msgs
  }

  ghost predicate Ended(h: Sends, msgs: seq<Msg>, k: int) {
    k in h && EndMsg(k, |Content(h, k)|, |h[k].pieces|) in msgs
  }

  ghost predicate Arrived(h: Sends, msgs: seq<Msg>, k: int, i: nat) {
    k in h && i < |h[k].pieces| && ChunkMsg(k, PieceMessage(h[k].pieces, i)) in msgs
  }

  /** Some message is about `k`, or announces an IROB that depends on it. */
  ghost predicate Heard(h: Sends, msgs: seq<Msg>, k: int) {
    (exists m :: m in msgs && m.id == k) || exists r :: Begun(h, msgs, r) && k in h[r].deps
  }

  /** Entry `k` of the lattice is what the messages say. */
  ghost predicate EntryExact(l: State, h: Sends, msgs: seq<Msg>, k: int)
    requires k in l.live
  {
    var e := l.live[k];
    && e.id == k && !e.anonymous
    && (!e.placeholder <==> Begun(h, msgs, k))
    && e.deps == (if Begun(h, msgs, k) then h[k].deps else {})
    && (e.ondemand <==> Begun(h, msgs, k) && h[k].ondemand)
    && forall r :: r in e.dependents <==> Begun(h, msgs, r) && k in h[r].deps
  }

  /** And so is its body. */
  ghost predicate BodyExact(s: Recv, h: Sends, msgs: seq<Msg>, k: int)
    requires k in s.bodies
  {
    && (forall i: nat :: Has(s.bodies[k].chunks, i) <==> Arrived(h, msgs, k, i))
    && (SeenEnd(s.bodies[k]) <==> Ended(h, msgs, k))
  }

  ghost predicate Finished(s: Recv, k: int) {
    k in s.lattice.live && k in s.bodies && !s.lattice.live[k].placeholder && IsComplete(s.bodies[k])
  }

  ghost predicate Quiet(s: Recv) {
    && s.reading.None? && s.lattice.past == {} && s.lattice.dropped == {}
    && s.lattice.dominators == {} && s.lattice.lastAnon == -1
    && s.lattice.count == |Real(s.lattice)|
  }

  ghost predicate Exact(s: Recv, h: Sends, msgs: seq<Msg>) {
    && Matched(s) && Quiet(s)
    && (forall k :: k in s.lattice.live <==> Heard(h, msgs, k))
    && (forall k :: k in s.lattice.live ==> EntryExact(s.lattice, h, msgs, k))
    && (forall k :: k in s.lattice.live ==> BodyExact(s, h, msgs, k))
    && (forall k :: k in s.acks <==> Finished(s, k))
  }

  // ----- The messages determine the state -----

  lemma TablesEqual(a: Table, b: Table, pieces: seq<seq<byte>>)
    requires Matches(a, pieces) && Matches(b, pieces)
    requires forall i: nat :: Has(a, i) <==> Has(b, i)
    ensures a == b
  {
    if a != [] {
      assert Has(a, |a| - 1);
    }
    if b != [] {
      assert Has(b, |b| - 1);
    }
    forall i | 0 <= i < |a|
      ensures a[i] == b[i]
    {
      assert Has(a, i) <==> Has(b, i);
    }
  }

  lemma BodiesEqual(s: Recv, t: Recv, h: Sends, a: seq<Msg>, b: seq<Msg>, k: int)
    requires Inv(s, h) && Inv(t, h) && Exact(s, h, a) && Exact(t, h, b)
    requires forall m :: m in a <==> m in b
    requires k in s.lattice.live && k in t.lattice.live
    ensures s.bodies[k] == t.bodies[k].(released := s.bodies[k].released)
  {
    assert EntryOk(s, h, k) && EntryOk(t, h, k);
    assert BodyExact(s, h, a, k) && BodyExact(t, h, b, k);
    if k in h {
      forall i: nat
        ensures Has(s.bodies[k].chunks, i) <==> Has(t.bodies[k].chunks, i)
      {
        assert Arrived(h, a, k, i) <==> Arrived(h, b, k, i);
      }
      TablesEqual(s.bodies[k].chunks, t.bodies[k].chunks, h[k].pieces);
    }
  }

  lemma EntriesEqual(s: Recv, t: Recv, h: Sends, a: seq<Msg>, b: seq<Msg>, k: int)
    requires Exact(s, h, a) && Exact(t, h, b)
    requires forall m :: m in a <==> m in b
    requires k in s.lattice.live && k in t.lattice.live
    ensures s.lattice.live[k] == t.lattice.live[k]
  {
    assert EntryExact(s.lattice, h, a, k) && EntryExact(t.lattice, h, b, k);
    assert forall r :: Begun(h, a, r) <==> Begun(h, b, r);
    var x, y := s.lattice.live[k].dependents, t.lattice.live[k].dependents;
    assert forall r :: r in x <==> r in y;
    SameInts(x, y);
  }

  /** Two states that are exact for the same messages are the same state. */
  lemma ExactDetermines(s: Recv, t: Recv, h: Sends, a: seq<Msg>, b: seq<Msg>)
    requires Inv(s, h) && Inv(t, h) && Exact(s, h, a) && Exact(t, h, b)
    requires forall m :: m in a <==> m in b
    ensures s == t
  {
    forall k
      ensures k in s.lattice.live <==> k in t.lattice.live
    {
      assert Heard(h, a, k) <==> Heard(h, b, k) by {
        assert forall r :: Begun(h, a, r) <==> Begun(h, b, r);
      }
    }
    forall k | k in s.lattice.live
      ensures s.lattice.live[k] == t.lattice.live[k] && s.bodies[k] == t.bodies[k]
      ensures k in s.ready <==> k in t.ready
    {
      EntriesEqual(s, t, h, a, b, k);
      BodiesEqual(s, t, h, a, b, k);
      assert ReleasedRightly(s, k) && ReleasedPromptly(s, k);
      assert ReleasedRightly(t, k) && ReleasedPromptly(t, k);
    }
    assert s.lattice.live == t.lattice.live;
    assert s.bodies == t.bodies;
    assert forall k :: k in s.ready ==> k in s.lattice.live;
    assert forall k :: k in t.ready ==> k in t.lattice.live;
    assert forall k :: k in s.ready <==> k in t.ready;
    SameInts(s.ready, t.ready);
    assert forall k :: Finished(s, k) <==> Finished(t, k);
    assert forall k :: k in s.acks <==> k in t.acks;
    SameInts(s.acks, t.acks);
  }

  // ----- Every handler keeps the state exact -----

  lemma NothingExact(h: Sends)
    ensures Exact(NewRecv(), h, [])
  {
    assert Real(NewRecv().lattice) == {};
  }

  /** A message about `m.id` other than its Begin announces nothing new. */
  lemma SameBegun(h: Sends, msgs: seq<Msg>, m: Msg)
    requires FromSender(h, m) && (m.BeginMsg? ==> Begun(h, msgs, m.id))
    ensures forall r :: Begun(h, msgs + [m], r) <==> Begun(h, msgs, r)
    ensures forall k :: Heard(h, msgs + [m], k) <==> Heard(h, msgs, k) || k == m.id
  {
    forall k
      ensures Heard(h, msgs + [m], k) <==> Heard(h, msgs, k) || k == m.id
    {
      assert m in msgs + [m];
      assert forall x :: x in msgs + [m] <==> x in msgs || x == m;
    }
  }

  lemma NewBegun(h: Sends, msgs: seq<Msg>, id: int)
    requires id in h
    ensures var m := BeginMsg(id, h[id].deps, h[id].ondemand);
            && (forall r :: Begun(h, msgs + [m], r) <==> Begun(h, msgs, r) || r == id)
            && forall k :: Heard(h, msgs + [m], k) <==> Heard(h, msgs, k) || k == id || k in h[id].deps
  {
    var m := BeginMsg(id, h[id].deps, h[id].ondemand);
    assert forall x :: x in msgs + [m] <==> x in msgs || x == m;
    forall k
      ensures Heard(h, msgs + [m], k) <==> Heard(h, msgs, k) || k == id || k in h[id].deps
    {
      assert m in msgs + [m] && Begun(h, msgs + [m], id);
    }
  }

  /** The lattice after a chunk or End. */
  lemma WithEntryExact(s: Recv, h: Sends, msgs: seq<Msg>, m: Msg)
    requires Exact(s, h, msgs) && FromSender(h, m) && !m.BeginMsg?
    ensures var e := WithEntry(s, m.id);
            && Quiet(e)
            && (forall k :: k in e.lattice.live <==> Heard(h, msgs + [m], k))
            && (forall k :: k in e.lattice.live ==> EntryExact(e.lattice, h, msgs + [m], k))
  {
    SameBegun(h, msgs, m);
    var e := WithEntry(s, m.id);
    if m.id !in s.lattice.live {
      InsertCounts(s.lattice, Placeholder(m.id), false);
      assert !Heard(h, msgs, m.id) && !Begun(h, msgs, m.id);
    }
    forall k | k in e.lattice.live
      ensures EntryExact(e.lattice, h, msgs + [m], k)
    {
      assert k in s.lattice.live ==> EntryExact(s.lattice, h, msgs, k);
    }
  }

  lemma ArrivedAfter(h: Sends, msgs: seq<Msg>, m: Msg, k: int)
    requires FromSender(h, m)
    ensures forall i: nat :: Arrived(h, msgs + [m], k, i) <==>
              Arrived(h, msgs, k, i) || (m.ChunkMsg? && m.id == k && m.chunk.seqno == i)
    ensures Ended(h, msgs + [m], k) <==> Ended(h, msgs, k) || (m.EndMsg? && m.id == k)
  {
    assert forall x :: x in msgs + [m] <==> x in msgs || x == m;
  }

  /** Bodies other than the message's own are as they were. */
  lemma OtherBodiesExact(s: Recv, t: Recv, h: Sends, msgs: seq<Msg>, m: Msg, b: Body, k: int)
    requires Exact(s, h, msgs) && FromSender(h, m) && Effect(s, t, m.id, b)
    requires k in t.lattice.live && k != m.id
    requires k !in s.lattice.live ==> t.bodies[k] == Fresh()
    ensures BodyExact(t, h, msgs + [m], k)
  {
    ArrivedAfter(h, msgs, m, k);
    if k in s.lattice.live {
      assert BodyExact(s, h, msgs, k);
    } else {
      assert !Heard(h, msgs, k);
      assert forall i: nat :: !Arrived(h, msgs, k, i);
      assert !Ended(h, msgs, k);
    }
  }

  lemma BodiesExact(s: Recv, t: Recv, h: Sends, msgs: seq<Msg>, m: Msg, b: Body)
    requires Exact(s, h, msgs) && FromSender(h, m) && Effect(s, t, m.id, b)
    requires forall k :: k in t.lattice.live && k !in s.lattice.live && k != m.id ==> t.bodies[k] == Fresh()
    requires forall i: nat :: Has(b.chunks, i) <==> Arrived(h, msgs + [m], m.id, i)
    requires SeenEnd(b) <==> Ended(h, msgs + [m], m.id)
    ensures forall k :: k in t.lattice.live ==> BodyExact(t, h, msgs + [m], k)
  {
    forall k | k in t.lattice.live && k != m.id
      ensures BodyExact(t, h, msgs + [m], k)
    {
      OtherBodiesExact(s, t, h, msgs, m, b, k);
    }
  }

  lemma OwnBodyBefore(s: Recv, h: Sends, msgs: seq<Msg>, id: int)
    requires Exact(s, h, msgs)
    ensures forall i: nat :: Has(BodyOf(s, id).chunks, i) <==> Arrived(h, msgs, id, i)
    ensures SeenEnd(BodyOf(s, id)) <==> Ended(h, msgs, id)
  {
    if id in s.lattice.live {
      assert BodyExact(s, h, msgs, id);
    } else {
      assert !Heard(h, msgs, id);
    }
  }

  /** The acknowledgements after a message for `id`. */
  lemma AcksExact(s: Recv, t: Recv, h: Sends, msgs: seq<Msg>, id: int, b: Body)
    requires Exact(s, h, msgs) && Effect(s, t, id, b)
    requires t.acks == if Finished(t, id) then s.acks + {id} else s.acks
    requires forall k :: k in t.lattice.live && k !in s.lattice.live && k != id ==> !Finished(t, k)
    requires forall k :: k in s.lattice.live && k in t.lattice.live && k != id ==>
               t.lattice.live[k].placeholder == s.lattice.live[k].placeholder
    requires Finished(s, id) ==> Finished(t, id)
    ensures forall k :: k in t.acks <==> Finished(t, k)
  {
  }

  /** What settling one entry leaves of the lattice and the acknowledgements. */
  lemma LandParts(s: Recv, id: int, b: Body)
    requires Matched(s) && id !in s.lattice.past
    ensures var e, t := WithEntry(s, id), Land(s, id, b);
            && t.lattice == e.lattice && t.reading == s.reading
            && t.bodies.Keys == e.bodies.Keys && id in t.bodies
            && IsComplete(t.bodies[id]) == IsComplete(b)
            && t.acks == (if Finished(t, id) then s.acks + {id} else s.acks)
            && (forall k :: k in t.lattice.live && k != id ==>
                  k in s.lattice.live && t.lattice.live[k] == s.lattice.live[k])
  {
    var e := WithEntry(s, id);
    SettleFrame(e.(bodies := e.bodies[id := b]), id);
  }

  lemma LandExact(s: Recv, h: Sends, msgs: seq<Msg>, m: Msg, b: Body)
    requires Inv(s, h) && Exact(s, h, msgs) && FromSender(h, m) && !m.BeginMsg?
    requires Effect(s, Land(s, m.id, b), m.id, b)
    requires forall i: nat :: Has(b.chunks, i) <==> Arrived(h, msgs + [m], m.id, i)
    requires SeenEnd(b) <==> Ended(h, msgs + [m], m.id)
    requires IsComplete(BodyOf(s, m.id)) ==> IsComplete(b)
    ensures Exact(Land(s, m.id, b), h, msgs + [m])
  {
    hide InvBut, Land, WithEntry, EntryExact, Heard, Begun, Arrived, Ended, FromSender, IsComplete;
    var t := Land(s, m.id, b);
    LandParts(s, m.id, b);
    WithEntryExact(s, h, msgs, m);
    forall k | k in t.lattice.live
      ensures EntryExact(t.lattice, h, msgs + [m], k)
    {
      assert EntryExact(WithEntry(s, m.id).lattice, h, msgs + [m], k);
    }
    BodiesExact(s, t, h, msgs, m, b);
    hide BodyExact;
    AcksExact(s, t, h, msgs, m.id, b);
  }

  lemma ChunkExact(s: Recv, h: Sends, msgs: seq<Msg>, id: int, c: Incoming)
    requires Inv(s, h) && Exact(s, h, msgs) && FromSender(h, ChunkMsg(id, c))
    ensures Exact(HandleChunk(s, id, c), h, msgs + [ChunkMsg(id, c)])
  {
    var m := ChunkMsg(id, c);
    ChunkEffect(s, h, id, c);
    OwnBodyBefore(s, h, msgs, id);
    ArrivedAfter(h, msgs, m, id);
    var b := BodyOf(s, id);
    assert IsComplete(b) ==> AddChunk(b, c).body == b;
    LandExact(s, h, msgs, m, AddChunk(b, c).body);
  }

  lemma EndExact(s: Recv, h: Sends, msgs: seq<Msg>, id: int, bytes: nat, count: nat)
    requires Inv(s, h) && Exact(s, h, msgs) && FromSender(h, EndMsg(id, bytes, count))
    ensures Exact(HandleEnd(s, id, bytes, count), h, msgs + [EndMsg(id, bytes, count)])
  {
    var m := EndMsg(id, bytes, count);
    EndEffect(s, h, id, bytes, count);
    OwnBodyBefore(s, h, msgs, id);
    ArrivedAfter(h, msgs, m, id);
    var b := BodyOf(s, id);
    assert IsComplete(b) ==> Finish(b, bytes, count).body == b;
    LandExact(s, h, msgs, m, Finish(b, bytes, count).body);
  }

  // ----- Begin -----

  lemma BeginEntryExact(l: State, h: Sends, msgs: seq<Msg>, id: int, k: int)
    requires id in h && Insertable(l, id) && l.past == {}
    requires k in l.live ==> EntryExact(l, h, msgs, k)
    requires k !in l.live ==> !Heard(h, msgs, k)
    requires k in Inserted(l, NewIrob(id, h[id].deps, h[id].ondemand), false).live
    ensures EntryExact(Inserted(l, NewIrob(id, h[id].deps, h[id].ondemand), false), h,
                       msgs + [BeginMsg(id, h[id].deps, h[id].ondemand)], k)
  {
    NewBegun(h, msgs, id);
    assert h[id].deps - l.past == h[id].deps;
    if k !in l.live {
      assert forall r :: Begun(h, msgs, r) ==> k !in h[r].deps;
      assert !Begun(h, msgs, k);
    }
  }

  lemma BeginLatticeExact(s: Recv, h: Sends, msgs: seq<Msg>, id: int)
    requires Exact(s, h, msgs) && id in h && Insertable(s.lattice, id)
    ensures var m := BeginMsg(id, h[id].deps, h[id].ondemand);
            var t := BeginEntry(s, id, h[id].deps, h[id].ondemand);
            && Quiet(t)
            && (forall k :: k in t.lattice.live <==> Heard(h, msgs + [m], k))
  {
    NewBegun(h, msgs, id);
    InsertCounts(s.lattice, NewIrob(id, h[id].deps, h[id].ondemand), false);
  }

  lemma BeginExact(s: Recv, h: Sends, msgs: seq<Msg>, id: int, deps: set<int>, ondemand: bool)
    requires Inv(s, h) && Exact(s, h, msgs) && FromSender(h, BeginMsg(id, deps, ondemand))
    ensures Exact(HandleBegin(s, id, deps, ondemand), h, msgs + [BeginMsg(id, deps, ondemand)])
  {
    var m := BeginMsg(id, deps, ondemand);
    if Insertable(s.lattice, id) {
      NewBeginExact(s, h, msgs, id);
    } else {
      assert EntryExact(s.lattice, h, msgs, id);
      SameBegun(h, msgs, m);
      forall k | k in s.lattice.live
        ensures EntryExact(s.lattice, h, msgs + [m], k) && BodyExact(s, h, msgs + [m], k)
      {
        assert EntryExact(s.lattice, h, msgs, k) && BodyExact(s, h, msgs, k);
        ArrivedAfter(h, msgs, m, k);
      }
    }
  }

  lemma NewBeginExact(s: Recv, h: Sends, msgs: seq<Msg>, id: int)
    requires Inv(s, h) && Exact(s, h, msgs) && id in h && Insertable(s.lattice, id)
    ensures Exact(HandleBegin(s, id, h[id].deps, h[id].ondemand), h,
                  msgs + [BeginMsg(id, h[id].deps, h[id].ondemand)])
  {
    hide InvBut, HandleBegin, BeginEntry, EntryExact, Heard, Begun, Inserted;
    var m := BeginMsg(id, h[id].deps, h[id].ondemand);
    var e := BeginEntry(s, id, h[id].deps, h[id].ondemand);
    var t := HandleBegin(s, id, h[id].deps, h[id].ondemand);
    BeginEffect(s, h, id, h[id].deps, h[id].ondemand);
    BeginEntryFrame(s, id, h[id].deps, h[id].ondemand);
    BeginLatticeExact(s, h, msgs, id);
    BeginAcks(s, id, h[id].deps, h[id].ondemand);
    NewBodiesFresh(s, id, h[id].deps, h[id].ondemand);
    forall k | k in t.lattice.live
      ensures EntryExact(t.lattice, h, msgs + [m], k)
    {
      assert k in s.lattice.live ==> EntryExact(s.lattice, h, msgs, k);
      BeginEntryExact(s.lattice, h, msgs, id, k);
      assert EntryExact(e.lattice, h, msgs + [m], k);
    }
    OwnBodyBefore(s, h, msgs, id);
    ArrivedAfter(h, msgs, m, id);
    BodiesExact(s, t, h, msgs, m, BodyOf(s, id));
    hide BodyExact;
    AcksExact(s, t, h, msgs, id, BodyOf(s, id));
  }

  lemma BeginAcks(s: Recv, id: int, deps: set<int>, ondemand: bool)
    requires Matched(s) && Insertable(s.lattice, id)
    ensures var t := HandleBegin(s, id, deps, ondemand);
            && Matched(t) && t.lattice == Inserted(s.lattice, NewIrob(id, deps, ondemand), false)
            && t.acks == if Finished(t, id) then s.acks + {id} else s.acks
  {
    BeginEntryFrame(s, id, deps, ondemand);
    SettleFrame(BeginEntry(s, id, deps, ondemand), id);
    NewBodiesFresh(s, id, deps, ondemand);
    hide Settle, Inserted;
  }

  lemma NewBodiesFresh(s: Recv, id: int, deps: set<int>, ondemand: bool)
    requires Matched(s) && Insertable(s.lattice, id)
    ensures var e, t := BeginEntry(s, id, deps, ondemand), HandleBegin(s, id, deps, ondemand);
            && (forall k :: k in t.lattice.live && k !in s.lattice.live && k != id ==>
                  k in t.bodies && t.bodies[k] == Fresh() && t.lattice.live[k].placeholder)
            && e.acks == s.acks
            && e.lattice == Inserted(s.lattice, NewIrob(id, deps, ondemand), false)
  {
  }

  lemma HandleExact(s: Recv, h: Sends, msgs: seq<Msg>, m: Msg)
    requires Inv(s, h) && Exact(s, h, msgs) && FromSender(h, m)
    ensures Exact(Handle(s, m), h, msgs + [m])
  {
    hide InvBut, Exact, HandleBegin, HandleChunk, HandleEnd;
    match m
    case BeginMsg(id, deps, ondemand) => BeginExact(s, h, msgs, id, deps, ondemand);
    case ChunkMsg(id, c) => ChunkExact(s, h, msgs, id, c);
    case EndMsg(id, bytes, count) => EndExact(s, h, msgs, id, bytes, count);
  }

  // ----- Confluence -----

  /** The state after a series of arrivals. */
  ghost function Arrivals(h: Sends, msgs: seq<Msg>): (s: Recv)
    requires forall m :: m in msgs ==> FromSender(h, m)
    ensures Inv(s, h)
  {
    if msgs == [] then
      NewRecvInv(h);
      NewRecv()
    else
      var s := Arrivals(h, msgs[..|msgs| - 1]);
      HandleKeepsInv(s, h, msgs[|msgs| - 1]);
      Handle(s, msgs[|msgs| - 1])
  }

  lemma {:induction false} ArrivalsExact(h: Sends, msgs: seq<Msg>)
    requires forall m :: m in msgs ==> FromSender(h, m)
    ensures Exact(Arrivals(h, msgs), h, msgs)
  {
    hide InvBut, Exact, Handle;
    if msgs == [] {
      NothingExact(h);
    } else {
      var before := msgs[..|msgs| - 1];
      ArrivalsExact(h, before);
      HandleExact(Arrivals(h, before), h, before, msgs[|msgs| - 1]);
      assert msgs == before + [msgs[|msgs| - 1]];
    }
  }

  /** Order and duplicates make no difference: two arrival sequences with the same messages
      leave the receiver in the same state, down to every counter and table. */
  lemma ArrivalOrderIrrelevant(h: Sends, a: seq<Msg>, b: seq<Msg>)
    requires forall m :: m in a ==> FromSender(h, m)
    requires forall m :: m in a <==> m in b
    ensures Arrivals(h, a) == Arrivals(h, b)
  {
    hide InvBut, Exact;
    ArrivalsExact(h, a);
    ArrivalsExact(h, b);
    ExactDetermines(Arrivals(h, a), Arrivals(h, b), h, a, b);
  }
}
