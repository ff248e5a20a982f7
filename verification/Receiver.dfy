/** The receiving half of a multisocket: Begin, Chunk and End handlers, release of complete
    and unblocked IROBs, and reading them out; with the invariant every step keeps. */
module Receiver {
  import opened Sequences
  import opened Lattice
  import opened ReceiverIrob
  import opened Scheduling

  /** `reading` is the partially read IROB; `acks` the ids waiting to be acknowledged;
      `fatal` records that a chunk was rejected as invalid. */
  datatype Recv = Recv(lattice: State, bodies: map<int, Body>, ready: set<int>,
                       reading: Option<int>, acks: set<int>, fatal: bool)

  datatype Msg =
    | BeginMsg(id: int, deps: set<int>, ondemand: bool)
    | ChunkMsg(id: int, chunk: Incoming)
    | EndMsg(id: int, bytes: nat, count: nat)

  function NewRecv(): Recv {
    Recv(Empty(), map[], {}, None, {}, false)
  }

  predicate Matched(s: Recv) {
    s.lattice.live.Keys == s.bodies.Keys
  }

  /** Complete, real, and not waiting for anything. */
  predicate Deliverable(s: Recv, k: int) {
    && k in s.lattice.live && k in s.bodies
    && !s.lattice.live[k].placeholder && s.lattice.live[k].deps == {}
    && IsComplete(s.bodies[k])
  }

  /** Releases those of `ids` that are deliverable and were not released before. */
  function Release(s: Recv, ids: set<int>): Recv {
    s.(bodies := map k | k in s.bodies ::
         if k in ids && Deliverable(s, k) then s.bodies[k].(released := true) else s.bodies[k],
       ready := s.ready + set k | k in ids && Deliverable(s, k) && !s.bodies[k].released)
  }

  /** The common end of the handlers: release if ready, acknowledge if complete. */
  function Settle(s: Recv, id: int): Recv
    requires id in s.lattice.live && id in s.bodies
  {
    var t := Release(s, {id});
    if IsComplete(s.bodies[id]) && !s.lattice.live[id].placeholder then t.(acks := t.acks + {id}) else t
  }

  function NewIrob(id: int, deps: set<int>, ondemand: bool): Irob {
    Irob(id, deps, {}, false, false, ondemand)
  }

  function HandleBegin(s: Recv, id: int, deps: set<int>, ondemand: bool): Recv
    requires Matched(s)
  {
    if !Insertable(s.lattice, id) then s
    else Settle(BeginEntry(s, id, deps, ondemand), id)
  }

  function BeginEntry(s: Recv, id: int, deps: set<int>, ondemand: bool): Recv
    requires Matched(s) && Insertable(s.lattice, id)
    ensures id in BeginEntry(s, id, deps, ondemand).lattice.live && id in BeginEntry(s, id, deps, ondemand).bodies
  {
    var lattice := Inserted(s.lattice, NewIrob(id, deps, ondemand), false);
    var mine := if id in s.bodies then Subsume(Fresh(), s.bodies[id]) else Fresh();
    s.(lattice := lattice,
       bodies := map k | k in lattice.live ::
         if k == id then mine else if k in s.bodies then s.bodies[k] else Fresh())
  }

  /** A chunk or End for an unknown IROB goes to a new placeholder. */
  function WithEntry(s: Recv, id: int): Recv {
    if id in s.lattice.live || id in s.lattice.past then s
    else s.(lattice := Inserted(s.lattice, Placeholder(id), false), bodies := s.bodies[id := Fresh()])
  }

  function HandleChunk(s: Recv, id: int, c: Incoming): Recv
    requires Matched(s)
  {
    if id !in s.lattice.live && id in s.lattice.past then s
    else
      var e := WithEntry(s, id);
      var r := AddChunk(e.bodies[id], c);
      var t := e.(bodies := e.bodies[id := r.body]);
      if !r.ok && !IsComplete(r.body) then t.(fatal := true) else Settle(t, id)
  }

  function HandleEnd(s: Recv, id: int, bytes: nat, count: nat): Recv
    requires Matched(s)
  {
    if id !in s.lattice.live && id in s.lattice.past then s.(acks := s.acks + {id})
    else
      var e := WithEntry(s, id);
      var r := Finish(e.bodies[id], bytes, count);
      Settle(e.(bodies := e.bodies[id := r.body]), id)
  }

  function Handle(s: Recv, m: Msg): Recv
    requires Matched(s)
  {
    match m
    case BeginMsg(id, deps, ondemand) => HandleBegin(s, id, deps, ondemand)
    case ChunkMsg(id, c) => HandleChunk(s, id, c)
    case EndMsg(id, bytes, count) => HandleEnd(s, id, bytes, count)
  }

  // ----- Reading -----

  function Key(s: Recv): int -> Task {
    k => Task(k, k in s.lattice.live && s.lattice.live[k].ondemand, NEVER)
  }

  /** The IROB the next read takes bytes from: the partially read one, else the first ready. */
  ghost function NextUp(s: Recv): (r: Option<int>)
    ensures r.None? <==> s.reading.None? && s.ready == {}
    ensures r.Some? ==> r == s.reading || (s.reading.None? && FirstOf(s.ready, Key(s), r.value))
  {
    if s.reading.Some? then s.reading
    else if s.ready == {} then None
    else
      FirstExists(s.ready, Key(s));
      var k :| FirstOf(s.ready, Key(s), k);
      Some(k)
  }

  /** When nothing is partly read, reading turns to a foreground IROB if one is ready, and to the
      lowest id of those labelled as it is. */
  lemma NextUpMeans(s: Recv)
    requires Matched(s) && (forall k :: k in s.ready ==> k in s.lattice.live)
    ensures var r := NextUp(s);
            && (s.reading.Some? ==> r == s.reading)
            && (s.reading.None? && r.None? ==> s.ready == {})
            && (s.reading.None? && r.Some? ==>
                  r.value in s.ready && forall k :: k in s.ready ==>
                    (s.lattice.live[k].ondemand ==> s.lattice.live[r.value].ondemand)
                    && (s.lattice.live[k].ondemand == s.lattice.live[r.value].ondemand ==> r.value <= k))
  {
    if s.reading.None? && NextUp(s).Some? {
      var r := NextUp(s).value;
      FirstMeans(s.ready, Key(s), r);
      forall k | k in s.ready
        ensures (s.lattice.live[k].ondemand ==> s.lattice.live[r].ondemand)
                && (s.lattice.live[k].ondemand == s.lattice.live[r].ondemand ==> r <= k)
      {
        assert Key(s)(k).ondemand == s.lattice.live[k].ondemand && Key(s)(r).ondemand == s.lattice.live[r].ondemand;
      }
    }
  }

  /** What the receiver has given to the application so far. */
  datatype World = World(s: Recv, delivered: seq<int>, output: seq<byte>)

  function NewWorld(): World {
    World(NewRecv(), [], [])
  }

  /** One turn of the read loop, taking up to `n` bytes from IROB `k`. */
  function TakeFrom(w: World, k: int, n: nat): World
    requires k in w.s.lattice.live && k in w.s.bodies && Readable(w.s.bodies[k])
  {
    var s := w.s;
    var b := s.bodies[k];
    var a := RemoveBytes(b, n);
    var output := w.output + Unread(b)[..Min(n, |Unread(b)|)];
    if IsComplete(a) && a.numBytes == 0 then
      World(Release(Gone(s, k), s.lattice.live[k].dependents), w.delivered + [k], output)
    else
      World(s.(bodies := s.bodies[k := a], ready := s.ready - {k}, reading := Some(k)), w.delivered, output)
  }

  ghost predicate CanRead(s: Recv) {
    NextUp(s).Some? ==> NextUp(s).value in s.lattice.live && NextUp(s).value in s.bodies
                        && Readable(s.bodies[NextUp(s).value])
  }

  ghost function Read(w: World, n: nat): World
    requires CanRead(w.s)
  {
    if n == 0 || NextUp(w.s).None? then w else TakeFrom(w, NextUp(w.s).value, n)
  }

  // ----- The sender's history, as far as the receiver can see it -----

  /** `closed`: the application ended the IROB and all its bytes have been cut into `pieces`. */
  datatype Sent = Sent(deps: set<int>, ondemand: bool, pieces: seq<seq<byte>>, closed: bool)

  type Sends = map<int, Sent>

  function Content(h: Sends, k: int): seq<byte>
    requires k in h
  {
    Concat(h[k].pieces)
  }

  /** A finished IROB is not empty. */
  ghost predicate NonEmptySends(h: Sends) {
    forall k :: k in h && h[k].closed ==> |Content(h, k)| > 0
  }

  predicate FromSender(h: Sends, m: Msg) {
    && m.id in h
    && match m
       case BeginMsg(id, deps, ondemand) => deps == h[id].deps && ondemand == h[id].ondemand
       case ChunkMsg(id, c) => c.seqno < |h[id].pieces| && c == PieceMessage(h[id].pieces, c.seqno)
       case EndMsg(id, bytes, count) => h[id].closed && bytes == |Content(h, id)| && count == |h[id].pieces|
  }

  // ----- The invariant -----

  /** What entry `k` holds, leaving aside whether it was released. */
  ghost predicate EntryOk(s: Recv, h: Sends, k: int)
    requires k in s.lattice.live && k in s.bodies
  {
    var e, b := s.lattice.live[k], s.bodies[k];
    && (e.placeholder ==> e.deps == {})
    && (!e.placeholder ==> k in h && e.deps == h[k].deps - s.lattice.past && e.ondemand == h[k].ondemand)
    && (k !in h ==> b == Fresh())
    && (k in h ==> if s.reading == Some(k) then h[k].closed && Draining(b, h[k].pieces)
                   else Assembling(b, h[k].pieces, h[k].closed))
  }

  /** Released only when deliverable, and then ready until it is being read. */
  ghost predicate ReleasedRightly(s: Recv, k: int)
    requires k in s.bodies
  {
    && (s.bodies[k].released ==> Deliverable(s, k))
    && (k in s.ready <==> s.bodies[k].released && s.reading != Some(k))
  }

  ghost predicate ReleasedPromptly(s: Recv, k: int)
    requires k in s.bodies
  {
    Deliverable(s, k) ==> s.bodies[k].released
  }

  /** An id the receiver can have heard of. */
  ghost predicate Known(h: Sends, k: int) {
    k in h || exists r :: r in h && k in h[r].deps
  }

  ghost predicate Shape(s: Recv, h: Sends) {
    && Matched(s) && Linked(s.lattice) && !s.fatal
    && (forall k :: k in s.ready ==> k in s.lattice.live)
    && (s.reading.Some? ==> s.reading.value in s.lattice.live && s.bodies[s.reading.value].released)
    && (forall k :: k in s.lattice.past ==> k in h && h[k].closed)
    && (forall k :: k in s.lattice.live ==> Known(h, k))
  }

  /** The invariant, except that `late` entries may still have to be released. */
  ghost predicate InvBut(s: Recv, h: Sends, late: set<int>) {
    && Shape(s, h)
    && (forall k :: k in s.lattice.live ==> EntryOk(s, h, k))
    && (forall k :: k in s.lattice.live ==> ReleasedRightly(s, k))
    && (forall k :: k in s.lattice.live && k !in late ==> ReleasedPromptly(s, k))
  }

  ghost predicate Inv(s: Recv, h: Sends) {
    InvBut(s, h, {})
  }

  lemma InvFacts(s: Recv, h: Sends)
    requires Inv(s, h)
    ensures Matched(s) && forall k :: k in s.ready ==> k in s.bodies
  {
  }

  lemma NewRecvInv(h: Sends)
    ensures Inv(NewRecv(), h)
  {
  }

  /** Releasing the late entries restores the invariant. */
  lemma ReleaseRestores(s: Recv, h: Sends, late: set<int>)
    requires InvBut(s, h, late)
    ensures Inv(Release(s, late), h)
    ensures Release(s, late).acks == s.acks && Release(s, late).lattice == s.lattice
  {
    var t := Release(s, late);
    forall k | k in t.lattice.live
      ensures EntryOk(t, h, k) && ReleasedRightly(t, k) && ReleasedPromptly(t, k)
    {
      assert EntryOk(s, h, k) && ReleasedRightly(s, k);
      assert k !in late ==> ReleasedPromptly(s, k);
      assert Deliverable(t, k) <==> Deliverable(s, k);
    }
  }

  lemma SettleRestores(s: Recv, h: Sends, id: int)
    requires InvBut(s, h, {id}) && id in s.lattice.live
    ensures Inv(Settle(s, id), h)
  {
    ReleaseRestores(s, h, {id});
    var t := Release(s, {id});
    var u := Settle(s, id);
    forall k | k in u.lattice.live
      ensures EntryOk(u, h, k) && ReleasedRightly(u, k) && ReleasedPromptly(u, k)
    {
      assert EntryOk(t, h, k) && ReleasedRightly(t, k) && ReleasedPromptly(t, k);
    }
  }

  lemma WithEntryKeeps(s: Recv, h: Sends, id: int)
    requires Inv(s, h) && id !in s.lattice.past && id in h
    ensures var e := WithEntry(s, id);
            && Inv(e, h) && id in e.lattice.live
            && (id !in s.lattice.live ==> e.bodies[id] == Fresh() && e.lattice.live[id].placeholder)
            && (forall k :: k in s.lattice.live ==> e.lattice.live[k] == s.lattice.live[k] && e.bodies[k] == s.bodies[k])
  {
    if id !in s.lattice.live {
      var e := WithEntry(s, id);
      InsertKeepsLinked(s.lattice, Placeholder(id), false);
      forall k | k in e.lattice.live
        ensures EntryOk(e, h, k) && ReleasedRightly(e, k) && ReleasedPromptly(e, k)
      {
        if k != id {
          assert EntryOk(s, h, k) && ReleasedRightly(s, k) && ReleasedPromptly(s, k);
        }
      }
    }
  }

  /** Changing one body in place. */
  lemma UpdateBody(s: Recv, h: Sends, id: int, b: Body)
    requires Inv(s, h) && id in s.lattice.live && id in h
    requires s.reading == Some(id) ==> b == s.bodies[id]
    requires s.reading != Some(id) ==> Assembling(b, h[id].pieces, h[id].closed)
    requires b.released == s.bodies[id].released && (IsComplete(s.bodies[id]) ==> b == s.bodies[id])
    ensures InvBut(s.(bodies := s.bodies[id := b]), h, {id})
  {
    var t := s.(bodies := s.bodies[id := b]);
    forall k | k in t.lattice.live
      ensures EntryOk(t, h, k) && ReleasedRightly(t, k) && (k != id ==> ReleasedPromptly(t, k))
    {
      assert EntryOk(s, h, k) && ReleasedRightly(s, k) && ReleasedPromptly(s, k);
    }
  }

  lemma ChunkKeepsInv(s: Recv, h: Sends, id: int, c: Incoming)
    requires Inv(s, h) && FromSender(h, ChunkMsg(id, c))
    ensures Inv(HandleChunk(s, id, c), h)
  {
    if id !in s.lattice.past {
      WithEntryKeeps(s, h, id);
      var e := WithEntry(s, id);
      assert EntryOk(e, h, id);
      var b := e.bodies[id];
      if e.reading != Some(id) {
        AddPiece(b, h[id].pieces, h[id].closed, c.seqno);
      }
      var r := AddChunk(b, c);
      UpdateBody(e, h, id, r.body);
      SettleRestores(e.(bodies := e.bodies[id := r.body]), h, id);
    }
  }

  lemma EndKeepsInv(s: Recv, h: Sends, id: int, bytes: nat, count: nat)
    requires Inv(s, h) && FromSender(h, EndMsg(id, bytes, count))
    ensures Inv(HandleEnd(s, id, bytes, count), h)
  {
    if id in s.lattice.past {
      var t := HandleEnd(s, id, bytes, count);
      forall k | k in t.lattice.live
        ensures EntryOk(t, h, k) && ReleasedRightly(t, k) && ReleasedPromptly(t, k)
      {
        assert EntryOk(s, h, k) && ReleasedRightly(s, k) && ReleasedPromptly(s, k);
      }
    } else {
      WithEntryKeeps(s, h, id);
      var e := WithEntry(s, id);
      assert EntryOk(e, h, id);
      var b := e.bodies[id];
      if e.reading != Some(id) {
        FinishPieces(b, h[id].pieces);
      }
      var r := Finish(b, bytes, count);
      UpdateBody(e, h, id, r.body);
      SettleRestores(e.(bodies := e.bodies[id := r.body]), h, id);
    }
  }

  lemma BeginKeepsInv(s: Recv, h: Sends, id: int, deps: set<int>, ondemand: bool)
    requires Inv(s, h) && FromSender(h, BeginMsg(id, deps, ondemand))
    ensures Inv(HandleBegin(s, id, deps, ondemand), h)
  {
    if Insertable(s.lattice, id) {
      BeginEntryKeeps(s, h, id, deps, ondemand);
      SettleRestores(BeginEntry(s, id, deps, ondemand), h, id);
    }
  }

  lemma BeginEntryBodies(s: Recv, h: Sends, id: int, deps: set<int>, ondemand: bool)
    requires Inv(s, h) && FromSender(h, BeginMsg(id, deps, ondemand)) && Insertable(s.lattice, id)
    ensures var t := BeginEntry(s, id, deps, ondemand);
            && t.bodies.Keys == t.lattice.live.Keys
            && forall k :: k in t.lattice.live ==> t.bodies[k] == if k in s.bodies then s.bodies[k] else Fresh()
  {
    hide Subsume;
    if id in s.lattice.live {
      assert EntryOk(s, h, id) && ReleasedRightly(s, id);
      SubsumeIsTakeover(s.bodies[id], h[id].pieces, h[id].closed);
    }
  }

  /** The lattice after a Begin, entry by entry. */
  lemma BeginEntryLattice(s: Recv, id: int, deps: set<int>, ondemand: bool)
    requires Matched(s) && Insertable(s.lattice, id)
    ensures var t, u := BeginEntry(s, id, deps, ondemand), s.lattice;
            && t == s.(lattice := t.lattice, bodies := t.bodies) && t.lattice.past == u.past
            && (forall k :: k in u.live ==> k in t.lattice.live)
            && (forall k :: k in t.lattice.live ==>
                  var e := t.lattice.live[k];
                  if k == id then !e.placeholder && e.deps == deps - u.past && e.ondemand == ondemand
                  else if k in u.live then e.placeholder == u.live[k].placeholder && e.deps == u.live[k].deps
                                           && e.ondemand == u.live[k].ondemand
                  else e.placeholder && e.deps == {} && k in deps)
  {
    hide Subsume;
  }

  lemma BeginEntryOf(s: Recv, h: Sends, id: int, deps: set<int>, ondemand: bool, k: int)
    requires Inv(s, h) && FromSender(h, BeginMsg(id, deps, ondemand)) && Insertable(s.lattice, id)
    requires k in BeginEntry(s, id, deps, ondemand).lattice.live
    ensures var t := BeginEntry(s, id, deps, ondemand);
            && k in t.bodies && EntryOk(t, h, k) && ReleasedRightly(t, k)
            && (k != id ==> ReleasedPromptly(t, k)) && Known(h, k)
  {
    hide BeginEntry, Assembling, Draining, IsComplete;
    BeginEntryBodies(s, h, id, deps, ondemand);
    BeginEntryLattice(s, id, deps, ondemand);
    if k in s.lattice.live {
      assert EntryOk(s, h, k) && ReleasedRightly(s, k) && ReleasedPromptly(s, k) && Known(h, k);
    } else if k in h {
      FreshAssembling(h[k].pieces, h[k].closed);
    }
  }

  lemma BeginEntryKeeps(s: Recv, h: Sends, id: int, deps: set<int>, ondemand: bool)
    requires Inv(s, h) && FromSender(h, BeginMsg(id, deps, ondemand)) && Insertable(s.lattice, id)
    ensures var t := BeginEntry(s, id, deps, ondemand);
            && InvBut(t, h, {id})
            && t.bodies[id] == (if id in s.bodies then s.bodies[id] else Fresh())
  {
    hide Subsume, EntryOk, ReleasedPromptly, Known, IsComplete, Inserted, Linked;
    var t := BeginEntry(s, id, deps, ondemand);
    BeginEntryBodies(s, h, id, deps, ondemand);
    BeginEntryLattice(s, id, deps, ondemand);
    InsertKeepsLinked(s.lattice, NewIrob(id, deps, ondemand), false);
    forall k | k in t.lattice.live
      ensures EntryOk(t, h, k) && ReleasedRightly(t, k) && (k != id ==> ReleasedPromptly(t, k)) && Known(h, k)
    {
      BeginEntryOf(s, h, id, deps, ondemand, k);
    }
    if s.reading.Some? {
      var r := s.reading.value;
      assert r in s.lattice.live;
    }
  }

  lemma HandleKeepsInv(s: Recv, h: Sends, m: Msg)
    requires Inv(s, h) && FromSender(h, m)
    ensures Inv(Handle(s, m), h)
  {
    hide Inv, HandleBegin, HandleChunk, HandleEnd;
    match m
    case BeginMsg(id, deps, ondemand) => BeginKeepsInv(s, h, id, deps, ondemand);
    case ChunkMsg(id, c) => ChunkKeepsInv(s, h, id, c);
    case EndMsg(id, bytes, count) => EndKeepsInv(s, h, id, bytes, count);
  }

  // ----- What one message changes -----

  ghost predicate SameBytes(a: Body, b: Body) {
    a == b || a == b.(released := true)
  }

  /** A message for `id` leaves body `b` there, and every other entry as it was. */
  ghost predicate Effect(s: Recv, t: Recv, id: int, b: Body) {
    && t.lattice.past == s.lattice.past && t.reading == s.reading && Matched(s) && Matched(t)
    && id in t.lattice.live && SameBytes(t.bodies[id], b)
    && (forall k :: k in s.lattice.live ==> k in t.lattice.live)
    && (forall k :: k in s.lattice.live && k != id ==> SameBytes(t.bodies[k], s.bodies[k]))
    && (forall k :: k in s.lattice.live && !s.lattice.live[k].placeholder ==> !t.lattice.live[k].placeholder)
  }

  lemma SettleFrame(s: Recv, id: int)
    requires id in s.lattice.live && id in s.bodies
    ensures var t := Settle(s, id);
            && t.lattice == s.lattice && t.reading == s.reading && t.fatal == s.fatal
            && t.bodies.Keys == s.bodies.Keys
            && (forall k :: k in s.bodies ==> SameBytes(t.bodies[k], s.bodies[k]))
            && t.acks == (if IsComplete(s.bodies[id]) && !s.lattice.live[id].placeholder then s.acks + {id} else s.acks)
  {
  }

  /** The body `id` has now, or would start with. */
  function BodyOf(s: Recv, id: int): Body {
    if id in s.bodies then s.bodies[id] else Fresh()
  }

  /** The state after the body of `id` becomes `b`, entry and release included. */
  function Land(s: Recv, id: int, b: Body): Recv
    requires Matched(s) && id !in s.lattice.past
  {
    var e := WithEntry(s, id);
    Settle(e.(bodies := e.bodies[id := b]), id)
  }

  lemma LandEffect(s: Recv, h: Sends, id: int, b: Body)
    requires Inv(s, h) && id in h && id !in s.lattice.past
    ensures Effect(s, Land(s, id, b), id, b)
  {
    WithEntryKeeps(s, h, id);
    var e := WithEntry(s, id);
    var t := e.(bodies := e.bodies[id := b]);
    SettleFrame(t, id);
    hide InvBut, Settle;
  }

  lemma BodyOfOk(s: Recv, h: Sends, id: int)
    requires Inv(s, h) && id in h && id !in s.lattice.past
    ensures WithEntry(s, id).bodies[id] == BodyOf(s, id)
    ensures if s.reading == Some(id) then IsComplete(BodyOf(s, id)) && SeenEnd(BodyOf(s, id))
            else Assembling(BodyOf(s, id), h[id].pieces, h[id].closed)
  {
    WithEntryKeeps(s, h, id);
    if id in s.lattice.live {
      assert EntryOk(s, h, id);
    }
  }

  lemma ChunkEffect(s: Recv, h: Sends, id: int, c: Incoming)
    requires Inv(s, h) && FromSender(h, ChunkMsg(id, c)) && id !in s.lattice.past
    ensures var b, a := BodyOf(s, id), AddChunk(BodyOf(s, id), c).body;
            && HandleChunk(s, id, c) == Land(s, id, a) && Effect(s, HandleChunk(s, id, c), id, a)
            && (s.reading == Some(id) ==> a == b)
            && (s.reading != Some(id) ==>
                  && Assembling(a, h[id].pieces, h[id].closed) && SeenEnd(a) == SeenEnd(b)
                  && forall j: nat :: Has(a.chunks, j) <==> Has(b.chunks, j) || j == c.seqno)
  {
    BodyOfOk(s, h, id);
    if s.reading != Some(id) {
      AddPiece(BodyOf(s, id), h[id].pieces, h[id].closed, c.seqno);
    }
    LandEffect(s, h, id, AddChunk(BodyOf(s, id), c).body);
    hide InvBut, Settle, Effect, Assembling;
  }

  /** What makes the receiver give up: a chunk that is not taken although its IROB is neither passed on
      nor complete, and nothing else. */
  lemma FatalIff(s: Recv, m: Msg)
    requires Matched(s)
    ensures Handle(s, m).fatal <==>
              s.fatal
              || (m.ChunkMsg? && (m.id in s.lattice.live || m.id !in s.lattice.past)
                  && !AddChunk(BodyOf(s, m.id), m.chunk).ok && !IsComplete(BodyOf(s, m.id)))
  {
    hide AddChunk, Finish, IsComplete, Deliverable, Subsume, Inserted;
    if m.ChunkMsg? {
      ChunkLeaves(BodyOf(s, m.id), m.chunk);
    }
  }

  lemma ChunkLeaves(b: Body, c: Incoming)
    ensures !AddChunk(b, c).ok ==> AddChunk(b, c).body == b
  {
  }

  lemma EndEffect(s: Recv, h: Sends, id: int, bytes: nat, count: nat)
    requires Inv(s, h) && FromSender(h, EndMsg(id, bytes, count)) && id !in s.lattice.past
    ensures var b, a := BodyOf(s, id), Finish(BodyOf(s, id), bytes, count).body;
            && HandleEnd(s, id, bytes, count) == Land(s, id, a) && Effect(s, HandleEnd(s, id, bytes, count), id, a)
            && SeenEnd(a) && a.chunks == b.chunks
            && (s.reading == Some(id) ==> a == b)
            && (s.reading != Some(id) ==> Assembling(a, h[id].pieces, h[id].closed))
  {
    BodyOfOk(s, h, id);
    if s.reading != Some(id) {
      FinishPieces(BodyOf(s, id), h[id].pieces);
    }
    LandEffect(s, h, id, Finish(BodyOf(s, id), bytes, count).body);
    hide InvBut, Settle, Effect, Assembling;
  }

  lemma BeginEntryFrame(s: Recv, id: int, deps: set<int>, ondemand: bool)
    requires Matched(s) && Insertable(s.lattice, id)
    ensures var t := BeginEntry(s, id, deps, ondemand);
            && Matched(t) && t.lattice.past == s.lattice.past && t.reading == s.reading
            && id in t.lattice.live && !t.lattice.live[id].placeholder
            && forall k :: k in s.lattice.live && k != id ==>
                 k in t.lattice.live && t.bodies[k] == s.bodies[k]
                 && t.lattice.live[k].placeholder == s.lattice.live[k].placeholder
  {
  }

  lemma BeginEffect(s: Recv, h: Sends, id: int, deps: set<int>, ondemand: bool)
    requires Inv(s, h) && FromSender(h, BeginMsg(id, deps, ondemand)) && Insertable(s.lattice, id)
    ensures var t := HandleBegin(s, id, deps, ondemand);
            && Effect(s, t, id, BodyOf(s, id))
            && !t.lattice.live[id].placeholder
  {
    BeginEntryKeeps(s, h, id, deps, ondemand);
    BeginEntryFrame(s, id, deps, ondemand);
    SettleFrame(BeginEntry(s, id, deps, ondemand), id);
    hide BeginEntry, Settle, InvBut, EntryOk, ReleasedRightly;
    assert HandleBegin(s, id, deps, ondemand) == Settle(BeginEntry(s, id, deps, ondemand), id);
  }

  // ----- Reading keeps the invariant -----

  /** Whatever is next up is complete, unblocked and readable. */
  lemma NextUpDrains(s: Recv, h: Sends)
    requires Inv(s, h) && NonEmptySends(h) && NextUp(s).Some?
    ensures var k := NextUp(s).value;
            && k in s.lattice.live && k in h && h[k].closed && Deliverable(s, k)
            && Draining(s.bodies[k], h[k].pieces) && s.bodies[k].released
    ensures CanRead(s)
  {
    var k := NextUp(s).value;
    assert EntryOk(s, h, k) && ReleasedRightly(s, k);
    if s.reading != Some(k) {
      CompleteIff(s.bodies[k], h[k].pieces, h[k].closed);
      CompleteDrains(s.bodies[k], h[k].pieces, h[k].closed);
    }
  }

  lemma PartialKeepsInv(s: Recv, h: Sends, k: int, a: Body)
    requires Inv(s, h) && k in s.lattice.live && Deliverable(s, k) && s.bodies[k].released
    requires k in h && h[k].closed && Draining(a, h[k].pieces) && a.released
    requires s.reading == Some(k) || s.reading.None?
    ensures Inv(s.(bodies := s.bodies[k := a], ready := s.ready - {k}, reading := Some(k)), h)
  {
    var t := s.(bodies := s.bodies[k := a], ready := s.ready - {k}, reading := Some(k));
    forall j | j in t.lattice.live
      ensures EntryOk(t, h, j) && ReleasedRightly(t, j) && ReleasedPromptly(t, j)
    {
      assert EntryOk(s, h, j) && ReleasedRightly(s, j) && ReleasedPromptly(s, j);
    }
  }

  /** The state after `k` is erased, before its dependents are looked at. */
  function Gone(s: Recv, k: int): Recv {
    s.(lattice := Erased(s.lattice, k, true), bodies := s.bodies - {k}, ready := s.ready - {k}, reading := None)
  }

  lemma EraseKeepsInv(s: Recv, h: Sends, k: int)
    requires Inv(s, h) && k in s.lattice.live && k in h && h[k].closed
    requires s.reading == Some(k) || s.reading.None?
    ensures Inv(Release(Gone(s, k), s.lattice.live[k].dependents), h)
  {
    var t := Gone(s, k);
    EraseKeepsLinked(s.lattice, k, true);
    assert t.lattice.live.Keys == s.lattice.live.Keys - {k};
    forall j | j in t.lattice.live
      ensures EntryOk(t, h, j) && ReleasedRightly(t, j)
      ensures j !in s.lattice.live[k].dependents ==> ReleasedPromptly(t, j)
    {
      assert EntryOk(s, h, j) && ReleasedRightly(s, j) && ReleasedPromptly(s, j);
      assert k in s.lattice.live[j].deps ==> j in s.lattice.live[k].dependents;
    }
    ReleaseRestores(t, h, s.lattice.live[k].dependents);
  }

  /** One read, spelled out: it either finishes the IROB that was next up or leaves it next up. */
  lemma ReadEffect(w: World, h: Sends, n: nat)
    requires Inv(w.s, h) && NonEmptySends(h) && n > 0 && NextUp(w.s).Some?
    ensures CanRead(w.s) && Inv(Read(w, n).s, h)
    ensures var s, u, k := w.s, Read(w, n), NextUp(w.s).value;
            var b := s.bodies[k];
            var a := RemoveBytes(b, n);
            && u.output == w.output + Unread(b)[..Min(n, |Unread(b)|)]
            && (forall j :: j in s.lattice.live && j != k ==>
                  j in u.s.lattice.live && SameBytes(u.s.bodies[j], s.bodies[j])
                  && u.s.lattice.live[j].placeholder == s.lattice.live[j].placeholder)
            && u.s.acks == s.acks
            && if a.numBytes == 0 then
                 && u.delivered == w.delivered + [k] && u.s.reading == None
                 && u.s.lattice.past == s.lattice.past + {k}
                 && u.s.lattice.live.Keys == s.lattice.live.Keys - {k}
               else
                 && u.delivered == w.delivered && u.s.reading == Some(k)
                 && u.s.lattice == s.lattice && k in u.s.bodies && u.s.bodies[k] == a
  {
    hide InvBut, RemoveBytes, Draining, Unread, Release;
    InvFacts(w.s, h);
    NextUpDrains(w.s, h);
    var s, k := w.s, NextUp(w.s).value;
    DrainStep(s.bodies[k], h[k].pieces, n);
    if RemoveBytes(s.bodies[k], n).numBytes == 0 {
      EraseKeepsInv(s, h, k);
      ReleaseFrame(Gone(s, k), s.lattice.live[k].dependents);
      assert Gone(s, k).lattice.live.Keys == s.lattice.live.Keys - {k};
    } else {
      PartialKeepsInv(s, h, k, RemoveBytes(s.bodies[k], n));
    }
  }

  lemma ReleaseFrame(s: Recv, ids: set<int>)
    ensures var t := Release(s, ids);
            && t.lattice == s.lattice && t.reading == s.reading && t.acks == s.acks
            && t.bodies.Keys == s.bodies.Keys
            && forall k :: k in s.bodies ==> SameBytes(t.bodies[k], s.bodies[k])
  {
  }

  lemma ReadKeepsInv(w: World, h: Sends, n: nat)
    requires Inv(w.s, h) && NonEmptySends(h)
    ensures CanRead(w.s) && Inv(Read(w, n).s, h)
  {
    hide Inv, TakeFrom;
    if NextUp(w.s).Some? {
      NextUpDrains(w.s, h);
      if n > 0 {
        ReadEffect(w, h, n);
      }
    }
  }
}
