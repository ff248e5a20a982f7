/** Whole runs of the receiver: isolation, order, exactly-once delivery, and progress. */
module Delivery {
  import opened Sequences
  import opened Lattice
  import opened ReceiverIrob
  import opened Receiver

  // ----- What was delivered -----

  /** The full contents of the given IROBs, one after another. */
  function Contents(h: Sends, ids: seq<int>): seq<byte>
    requires forall k :: k in ids ==> k in h
  {
    if ids == [] then [] else Contents(h, ids[..|ids| - 1]) + Content(h, ids[|ids| - 1])
  }

  /** The part of the partially read IROB that the application already has. */
  function PartialPrefix(w: World, h: Sends): seq<byte>
    requires w.s.reading.Some? ==> w.s.reading.value in h && w.s.reading.value in w.s.bodies
  {
    if w.s.reading.None? then []
    else
      var all := Content(h, w.s.reading.value);
      var left := w.s.bodies[w.s.reading.value].numBytes;
      if 0 <= left <= |all| then all[..|all| - left] else []
  }

  ghost predicate InDependencyOrder(h: Sends, ids: seq<int>) {
    forall i :: 0 <= i < |ids| ==> ids[i] in h && h[ids[i]].deps <= Elements(ids[..i])
  }

  ghost predicate LogOk(w: World, h: Sends) {
    && NoDuplicates(w.delivered) && Elements(w.delivered) == w.s.lattice.past
    && (forall k :: k in w.delivered ==> k in h && h[k].closed)
    && InDependencyOrder(h, w.delivered)
    && (w.s.reading.Some? ==> w.s.reading.value in h && w.s.reading.value in w.s.bodies)
    && w.output == Contents(h, w.delivered) + PartialPrefix(w, h)
  }

  // ----- Steps -----

  lemma EffectFrame(s: Recv, h: Sends, t: Recv, id: int, b: Body)
    requires Inv(s, h) && Effect(s, t, id, b) && (s.reading == Some(id) ==> b == s.bodies[id])
    ensures Untouched(s, t)
  {
    if s.reading.Some? {
      assert ReleasedRightly(s, s.reading.value);
    }
  }

  /** Nothing was delivered, and the body being read is the same. */
  ghost predicate Untouched(s: Recv, t: Recv) {
    && t.lattice.past == s.lattice.past && t.reading == s.reading
    && (s.reading.Some? ==> s.reading.value in s.bodies && s.reading.value in t.bodies
                            && t.bodies[s.reading.value] == s.bodies[s.reading.value])
  }

  /** Arrivals leave what was delivered, and the body being read, alone. */
  lemma HandleFrame(s: Recv, h: Sends, m: Msg)
    requires Inv(s, h) && FromSender(h, m)
    ensures Untouched(s, Handle(s, m))
  {
    hide Effect, HandleBegin, EntryOk, AddChunk, Finish;
    match m
    case BeginMsg(id, deps, ondemand) =>
      if Insertable(s.lattice, id) {
        BeginEffect(s, h, id, deps, ondemand);
        EffectFrame(s, h, Handle(s, m), id, BodyOf(s, id));
      } else {
        assert HandleBegin(s, id, deps, ondemand) == s by { RefusedBegin(s, id, deps, ondemand); }
      }
    case ChunkMsg(id, c) =>
      if id !in s.lattice.past {
        ChunkEffect(s, h, id, c);
        EffectFrame(s, h, Handle(s, m), id, AddChunk(BodyOf(s, id), c).body);
      }
    case EndMsg(id, bytes, count) =>
      if id !in s.lattice.past {
        EndEffect(s, h, id, bytes, count);
        EffectFrame(s, h, Handle(s, m), id, Finish(BodyOf(s, id), bytes, count).body);
      }
  }

  lemma RefusedBegin(s: Recv, id: int, deps: set<int>, ondemand: bool)
    requires Matched(s) && !Insertable(s.lattice, id)
    ensures HandleBegin(s, id, deps, ondemand) == s
  {
  }

  lemma HandleKeepsLog(w: World, h: Sends, m: Msg)
    requires Inv(w.s, h) && LogOk(w, h) && FromSender(h, m)
    ensures LogOk(World(Handle(w.s, m), w.delivered, w.output), h)
  {
    HandleFrame(w.s, h, m);
    hide Handle, InvBut;
  }

  lemma ElementsSnoc(ids: seq<int>, k: int)
    ensures Elements(ids + [k]) == Elements(ids) + {k}
  {
    var u := ids + [k];
    assert forall i :: 0 <= i < |ids| ==> u[i] == ids[i];
    assert u[|ids|] == k;
    forall x | x in Elements(u)
      ensures x in Elements(ids) + {k}
    {
      var i :| 0 <= i < |u| && u[i] == x;
      assert i < |ids| ==> ids[i] == x;
    }
    forall x | x in Elements(ids)
      ensures x in Elements(u)
    {
      var i :| 0 <= i < |ids| && ids[i] == x;
      assert u[i] == x;
    }
  }

  lemma SnocKeepsOrder(h: Sends, ids: seq<int>, k: int)
    requires InDependencyOrder(h, ids) && k in h && h[k].deps <= Elements(ids)
    ensures InDependencyOrder(h, ids + [k])
  {
    var u := ids + [k];
    forall i | 0 <= i < |u|
      ensures u[i] in h && h[u[i]].deps <= Elements(u[..i])
    {
      if i < |ids| {
        assert u[..i] == ids[..i];
      } else {
        assert u[..i] == ids;
      }
    }
  }

  /** What has been read of the IROB that is next up. */
  lemma ReadPrefix(w: World, h: Sends, k: int)
    requires Inv(w.s, h) && NonEmptySends(h) && LogOk(w, h) && NextUp(w.s) == Some(k)
    ensures k in w.s.lattice.live && k in h && h[k].closed && Draining(w.s.bodies[k], h[k].pieces)
    ensures PartialPrefix(w, h) == Content(h, k)[..|Content(h, k)| - w.s.bodies[k].numBytes]
    ensures k !in w.delivered && h[k].deps <= Elements(w.delivered)
  {
    NextUpDrains(w.s, h);
    assert EntryOk(w.s, h, k);
    if w.s.reading.None? {
      CompleteIff(w.s.bodies[k], h[k].pieces, h[k].closed);
      assert Content(h, k)[..0] == [];
    }
    NothingLeft(h[k].deps, w.s.lattice.past);
    assert k in w.delivered <==> k in Elements(w.delivered);
  }

  /** Appending the bytes just read to the part already read. */
  lemma PrefixGrows(base: seq<byte>, all: seq<byte>, left: nat, left': nat, piece: seq<byte>)
    requires left' <= left <= |all| && piece == all[|all| - left..|all| - left']
    ensures base + all[..|all| - left] + piece == base + all[..|all| - left']
  {
  }

  /** Finishing an IROB puts it after everything it depends on. */
  lemma FinishKeepsLog(w: World, u: World, h: Sends, k: int)
    requires LogOk(w, h) && k in h && h[k].closed && k !in w.delivered
    requires h[k].deps <= Elements(w.delivered)
    requires u.delivered == w.delivered + [k] && u.s.reading == None && u.s.lattice.past == w.s.lattice.past + {k}
    requires u.output == Contents(h, w.delivered) + Content(h, k)
    ensures LogOk(u, h)
  {
    ElementsSnoc(w.delivered, k);
    SnocKeepsOrder(h, w.delivered, k);
    assert u.delivered[..|u.delivered| - 1] == w.delivered;
    assert u.output == Contents(h, u.delivered) + [];
  }

  /** A read hands out the next bytes of the IROB that is next up. */
  lemma ReadAppends(w: World, h: Sends, n: nat)
    requires Inv(w.s, h) && NonEmptySends(h) && LogOk(w, h) && n > 0 && NextUp(w.s).Some?
    ensures CanRead(w.s)
    ensures var k := NextUp(w.s).value;
            k in w.s.bodies && k in h && Readable(w.s.bodies[k]) &&
            var left := RemoveBytes(w.s.bodies[k], n).numBytes;
            0 <= left < w.s.bodies[k].numBytes <= |Content(h, k)| &&
            Read(w, n).output == Contents(h, w.delivered) + Content(h, k)[..|Content(h, k)| - left]
  {
    hide TakeFrom, InvBut;
    var k := NextUp(w.s).value;
    ReadPrefix(w, h, k);
    ReadEffect(w, h, n);
    var b, all := w.s.bodies[k], Content(h, k);
    DrainStep(b, h[k].pieces, n);
    hide *;
    PrefixGrows(Contents(h, w.delivered), all, b.numBytes, RemoveBytes(b, n).numBytes, Unread(b)[..Min(n, |Unread(b)|)]);
  }

  lemma ReadKeepsLog(w: World, h: Sends, n: nat)
    requires Inv(w.s, h) && NonEmptySends(h) && LogOk(w, h)
    ensures CanRead(w.s) && LogOk(Read(w, n), h)
  {
    hide TakeFrom, InvBut, RemoveBytes, Content, Draining;
    ReadKeepsInv(w, h, n);
    if n > 0 && NextUp(w.s).Some? {
      var k := NextUp(w.s).value;
      ReadPrefix(w, h, k);
      ReadEffect(w, h, n);
      ReadAppends(w, h, n);
      hide Read;
      if RemoveBytes(w.s.bodies[k], n).numBytes == 0 {
        var all := Content(h, k);
        assert all[..|all|] == all;
        FinishKeepsLog(w, Read(w, n), h, k);
      }
    }
  }

  // ----- Runs -----

  /** Messages arrive in any order, any number of times, or never; reads come in between. */
  datatype Event = Arrive(m: Msg) | ReadUpTo(n: nat)

  ghost predicate Possible(h: Sends, e: Event) {
    e.Arrive? ==> FromSender(h, e.m)
  }

  ghost function Step(w: World, h: Sends, e: Event): (u: World)
    requires NonEmptySends(h) && Inv(w.s, h) && LogOk(w, h) && Possible(h, e)
    ensures Inv(u.s, h) && LogOk(u, h)
  {
    match e
    case Arrive(m) =>
      HandleKeepsInv(w.s, h, m);
      HandleKeepsLog(w, h, m);
      World(Handle(w.s, m), w.delivered, w.output)
    case ReadUpTo(n) =>
      ReadKeepsInv(w, h, n);
      ReadKeepsLog(w, h, n);
      Read(w, n)
  }

  ghost predicate PossibleRun(h: Sends, events: seq<Event>) {
    NonEmptySends(h) && forall e :: e in events ==> Possible(h, e)
  }

  ghost function Run(h: Sends, events: seq<Event>): (w: World)
    requires PossibleRun(h, events)
    ensures Inv(w.s, h) && LogOk(w, h)
  {
    if events == [] then
      NewRecvInv(h);
      NewWorld()
    else
      Step(Run(h, events[..|events| - 1]), h, events[|events| - 1])
  }

  /** Isolation, order and exactly-once, over every run: the application has the full contents
      of distinct IROBs, never interleaved, each after all it depends on, and then a prefix of
      at most one more whose own dependencies have all been delivered. No valid chunk is ever
      rejected. */
  lemma DeliveryOverRuns(h: Sends, events: seq<Event>)
    requires PossibleRun(h, events)
    ensures var w := Run(h, events);
            && w.output == Contents(h, w.delivered) + PartialPrefix(w, h)
            && NoDuplicates(w.delivered) && InDependencyOrder(h, w.delivered)
            && (w.s.reading.Some? ==> w.s.reading.value !in w.delivered
                                      && h[w.s.reading.value].deps <= Elements(w.delivered))
            && !w.s.fatal
  {
    var w := Run(h, events);
    hide Run;
    if w.s.reading.Some? {
      ReadPrefix(w, h, w.s.reading.value);
    }
  }

  /** What was delivered stays delivered, in place; an id once delivered is never live again. */
  lemma DeliveredForGood(h: Sends, events: seq<Event>, e: Event, k: int)
    requires PossibleRun(h, events + [e]) && PossibleRun(h, events)
    ensures var w, u := Run(h, events), Run(h, events + [e]);
            && w.delivered <= u.delivered && w.output <= u.output
            && (k in w.delivered ==> k in u.s.lattice.past && k !in u.s.lattice.live && u.s.reading != Some(k))
  {
    var all := events + [e];
    assert all[..|all| - 1] == events && e == all[|all| - 1] && e in all;
    var w, u := Run(h, events), Run(h, all);
    assert u == Step(w, h, e);
    hide Run, Handle, TakeFrom;
    if e.Arrive? {
      HandleFrame(w.s, h, e.m);
    } else if e.n > 0 && NextUp(w.s).Some? {
      ReadEffect(w, h, e.n);
    }
    hide Step, Read;
    if k in w.delivered {
      assert k in Elements(w.delivered) && k in u.delivered;
      assert k in Elements(u.delivered);
    }
  }

  // ----- Nothing received is forgotten -----

  /** The effect of a message is still visible, or its IROB has been delivered. */
  ghost predicate Recorded(s: Recv, m: Msg) {
    || m.id in s.lattice.past
    || (&& m.id in s.lattice.live && m.id in s.bodies
        && match m
           case BeginMsg(id, _, _) => !s.lattice.live[id].placeholder
           case ChunkMsg(id, c) => IsComplete(s.bodies[id]) || Has(s.bodies[id].chunks, c.seqno)
           case EndMsg(id, _, _) => SeenEnd(s.bodies[id]))
  }

  /** A step that keeps every entry keeps what was recorded about it. */
  lemma EffectKeepsRecorded(s: Recv, t: Recv, id: int, b: Body, m: Msg)
    requires Effect(s, t, id, b) && Recorded(s, m)
    requires m.id == id && id !in s.lattice.past ==> id in s.bodies && Kept(s.bodies[id], b)
    ensures Recorded(t, m)
  {
  }

  /** `b` has at least what `a` has. */
  ghost predicate Kept(a: Body, b: Body) {
    && (IsComplete(a) ==> IsComplete(b)) && (SeenEnd(a) ==> SeenEnd(b))
    && forall j: nat :: Has(a.chunks, j) ==> Has(b.chunks, j)
  }

  lemma BeginRecords(s: Recv, h: Sends, id: int, deps: set<int>, ondemand: bool, before: Msg)
    requires Inv(s, h) && FromSender(h, BeginMsg(id, deps, ondemand))
    ensures var t := HandleBegin(s, id, deps, ondemand);
            Recorded(t, BeginMsg(id, deps, ondemand)) && (Recorded(s, before) ==> Recorded(t, before))
  {
    hide HandleBegin;
    if Insertable(s.lattice, id) {
      BeginEffect(s, h, id, deps, ondemand);
      if Recorded(s, before) {
        EffectKeepsRecorded(s, HandleBegin(s, id, deps, ondemand), id, BodyOf(s, id), before);
      }
    } else {
      RefusedBegin(s, id, deps, ondemand);
    }
  }

  lemma ChunkRecords(s: Recv, h: Sends, id: int, c: Incoming, before: Msg)
    requires Inv(s, h) && FromSender(h, ChunkMsg(id, c))
    ensures var t := HandleChunk(s, id, c);
            Recorded(t, ChunkMsg(id, c)) && (Recorded(s, before) ==> Recorded(t, before))
  {
    if id !in s.lattice.past {
      ChunkEffect(s, h, id, c);
      BodyOfOk(s, h, id);
      var b, a := BodyOf(s, id), AddChunk(BodyOf(s, id), c).body;
      assert IsComplete(b) ==> a == b;
      hide AddChunk, HandleChunk, Assembling, InvBut;
      assert Kept(b, a);
      if Recorded(s, before) {
        EffectKeepsRecorded(s, HandleChunk(s, id, c), id, a, before);
      }
    }
  }

  lemma EndRecords(s: Recv, h: Sends, id: int, bytes: nat, count: nat, before: Msg)
    requires Inv(s, h) && FromSender(h, EndMsg(id, bytes, count))
    ensures var t := HandleEnd(s, id, bytes, count);
            Recorded(t, EndMsg(id, bytes, count)) && (Recorded(s, before) ==> Recorded(t, before))
  {
    if id !in s.lattice.past {
      EndEffect(s, h, id, bytes, count);
      BodyOfOk(s, h, id);
      var b, a := BodyOf(s, id), Finish(BodyOf(s, id), bytes, count).body;
      assert IsComplete(b) ==> a == b;
      hide Finish, HandleEnd, Assembling, InvBut;
      assert Kept(b, a);
      if Recorded(s, before) {
        EffectKeepsRecorded(s, HandleEnd(s, id, bytes, count), id, a, before);
      }
    }
  }

  lemma HandleRecords(s: Recv, h: Sends, m: Msg, before: Msg)
    requires Inv(s, h) && FromSender(h, m)
    ensures Recorded(Handle(s, m), m) && (Recorded(s, before) ==> Recorded(Handle(s, m), before))
  {
    hide InvBut, HandleBegin, HandleChunk, HandleEnd, Recorded;
    match m
    case BeginMsg(id, deps, ondemand) => BeginRecords(s, h, id, deps, ondemand, before);
    case ChunkMsg(id, c) => ChunkRecords(s, h, id, c, before);
    case EndMsg(id, bytes, count) => EndRecords(s, h, id, bytes, count, before);
  }

  lemma ReadKeepsRecorded(w: World, h: Sends, n: nat, m: Msg)
    requires Inv(w.s, h) && NonEmptySends(h) && Recorded(w.s, m)
    ensures CanRead(w.s) && Recorded(Read(w, n).s, m)
  {
    hide TakeFrom, RemoveBytes, InvBut, Draining, Unread;
    ReadKeepsInv(w, h, n);
    if n > 0 && NextUp(w.s).Some? {
      NextUpDrains(w.s, h);
      var k := NextUp(w.s).value;
      ReadEffect(w, h, n);
      DrainStep(w.s.bodies[k], h[k].pieces, n);
      InvFacts(Read(w, n).s, h);
      hide Read, NextUp;
    }
  }

  lemma {:induction false} RunRecords(h: Sends, events: seq<Event>, m: Msg)
    requires PossibleRun(h, events) && Arrive(m) in events
    ensures Recorded(Run(h, events).s, m)
  {
    var before, e := events[..|events| - 1], events[|events| - 1];
    assert events == before + [e];
    var w := Run(h, before);
    assert Possible(h, Arrive(m));
    if Arrive(m) in before {
      RunRecords(h, before, m);
    }
    assert Run(h, events) == Step(w, h, e);
    hide Run, Recorded, InvBut, LogOk, Handle, Read;
    match e
    case Arrive(m') => HandleRecords(w.s, h, m', m);
    case ReadUpTo(n) => if Arrive(m) in before { ReadKeepsRecorded(w, h, n, m); }
  }

  // ----- Progress -----

  /** Every IROB is finished, depends only on IROBs of this history, and not on itself,
      directly or through others: `rank` decreases along dependencies. */
  ghost predicate WholeHistory(h: Sends, rank: int -> nat) {
    forall k :: k in h ==> h[k].closed && forall d :: d in h[k].deps ==> d in h && rank(d) < rank(k)
  }

  /** All that was sent for `k` has arrived. */
  ghost predicate AllArrived(s: Recv, k: int) {
    || k in s.lattice.past
    || (k in s.lattice.live && k in s.bodies && !s.lattice.live[k].placeholder && IsComplete(s.bodies[k]))
  }

  lemma ArrivedWhenRecorded(s: Recv, h: Sends, k: int)
    requires Inv(s, h) && NonEmptySends(h) && k in h && h[k].closed
    requires forall m :: FromSender(h, m) && m.id == k ==> Recorded(s, m)
    ensures AllArrived(s, k)
  {
    assert Recorded(s, BeginMsg(k, h[k].deps, h[k].ondemand));
    assert Recorded(s, EndMsg(k, |Content(h, k)|, |h[k].pieces|));
    if k !in s.lattice.past {
      assert EntryOk(s, h, k);
      if s.reading != Some(k) && !IsComplete(s.bodies[k]) {
        forall i | 0 <= i < |h[k].pieces|
          ensures Has(s.bodies[k].chunks, i)
        {
          var m := ChunkMsg(k, PieceMessage(h[k].pieces, i));
          assert FromSender(h, m) && Recorded(s, m);
        }
        CompleteIff(s.bodies[k], h[k].pieces, h[k].closed);
      }
    }
  }

  lemma {:induction false} LowestRank(ids: set<int>, rank: int -> nat)
    requires ids != {}
    ensures exists k :: k in ids && forall j :: j in ids ==> rank(k) <= rank(j)
    decreases |ids|
  {
    SomeMember(ids);
    var a: int :| a in ids;
    var rest := ids - {a};
    if rest != {} {
      LowestRank(rest, rank);
      var k :| k in rest && forall j :: j in rest ==> rank(k) <= rank(j);
      assert forall j :: j in ids ==> j == a || j in rest;
      assert rank(k) <= rank(a) ==> forall j :: j in ids ==> rank(k) <= rank(j);
      assert rank(a) <= rank(k) ==> forall j :: j in ids ==> rank(a) <= rank(j);
    } else {
      assert forall j :: j in ids ==> j == a || j in rest;
    }
  }

  lemma DepsLive(s: Recv, h: Sends, k: int)
    requires Inv(s, h) && k in s.lattice.live && !s.lattice.live[k].placeholder
    ensures k in h && s.lattice.live[k].deps <= s.lattice.live.Keys && s.lattice.live[k].deps <= h[k].deps
  {
    assert EntryOk(s, h, k);
    forall d | d in s.lattice.live[k].deps
      ensures d in s.lattice.live
    {
      assert d !in s.lattice.past;
    }
  }

  /** No deadlock: while anything complete is pending, something can be read. */
  lemma SomethingReady(s: Recv, h: Sends, rank: int -> nat)
    requires Inv(s, h) && WholeHistory(h, rank)
    requires forall k :: k in s.lattice.live ==> AllArrived(s, k)
    requires s.lattice.live != map[]
    ensures NextUp(s).Some?
  {
    assert s.lattice.live.Keys != {};
    forall k | k in s.lattice.live
      ensures s.lattice.live[k].deps <= s.lattice.live.Keys && s.lattice.live[k].deps <= h[k].deps
    {
      DepsLive(s, h, k);
    }
    LowestRank(s.lattice.live.Keys, rank);
    var k :| k in s.lattice.live.Keys && forall j :: j in s.lattice.live.Keys ==> rank(k) <= rank(j);
    assert EntryOk(s, h, k) && ReleasedRightly(s, k) && ReleasedPromptly(s, k);
    var deps := s.lattice.live[k].deps;
    assert forall d :: d in deps ==> rank(d) < rank(k) <= rank(d);
    NoMember(deps);
  }

  ghost function ReadMany(w: World, h: Sends, n: nat, times: nat): (u: World)
    requires NonEmptySends(h) && Inv(w.s, h) && LogOk(w, h)
    ensures Inv(u.s, h) && LogOk(u, h)
    decreases times
  {
    if times == 0 then w else ReadMany(Step(w, h, ReadUpTo(n)), h, n, times - 1)
  }

  ghost function Ahead(s: Recv): nat
  {
    var k := NextUp(s);
    if k.Some? && k.value in s.bodies && s.bodies[k.value].numBytes > 0 then s.bodies[k.value].numBytes else 0
  }

  lemma ReadProgress(w: World, h: Sends, n: nat)
    requires Inv(w.s, h) && NonEmptySends(h) && LogOk(w, h) && n > 0 && NextUp(w.s).Some?
    requires forall k :: k in w.s.lattice.live ==> AllArrived(w.s, k)
    ensures var u := Step(w, h, ReadUpTo(n));
            && (forall k :: k in u.s.lattice.live ==> AllArrived(u.s, k))
            && (forall k :: k in w.s.lattice.live || k in w.s.lattice.past <==>
                  k in u.s.lattice.live || k in u.s.lattice.past)
            && (|u.s.lattice.live| < |w.s.lattice.live|
                || (|u.s.lattice.live| == |w.s.lattice.live| && Ahead(u.s) < Ahead(w.s)))
  {
    hide TakeFrom, RemoveBytes, Handle, InvBut, LogOk, Draining, Content, Contents, Unread, Read, PartialPrefix;
    var k := NextUp(w.s).value;
    ReadAppends(w, h, n);
    ReadEffect(w, h, n);
    NextUpDrains(w.s, h);
    DrainStep(w.s.bodies[k], h[k].pieces, n);
    var u := Read(w, n);
    assert Step(w, h, ReadUpTo(n)) == u;
    InvFacts(u.s, h);
    hide Step;
    if RemoveBytes(w.s.bodies[k], n).numBytes == 0 {
      assert |w.s.lattice.live.Keys - {k}| == |w.s.lattice.live.Keys| - 1;
    } else {
      assert NextUp(u.s) == Some(k);
    }
  }

  lemma LiveFacts(s: Recv, h: Sends)
    requires Inv(s, h)
    ensures s.lattice.live == map[] || s.lattice.live.Keys != {}
  {
  }

  /** Repeated reads of any nonzero size empty the lattice. */
  lemma {:induction false} ReadsDrain(w: World, h: Sends, rank: int -> nat, n: nat) returns (times: nat)
    requires Inv(w.s, h) && NonEmptySends(h) && LogOk(w, h) && WholeHistory(h, rank) && n > 0
    requires forall k :: k in w.s.lattice.live ==> AllArrived(w.s, k)
    ensures var u := ReadMany(w, h, n, times);
            && u.s.lattice.live == map[]
            && forall k :: k in w.s.lattice.live || k in w.s.lattice.past ==> k in u.s.lattice.past
    decreases |w.s.lattice.live|, Ahead(w.s)
  {
    hide InvBut, LogOk, Step, NextUp, WholeHistory, AllArrived, NonEmptySends, Ahead;
    LiveFacts(w.s, h);
    if w.s.lattice.live == map[] {
      times := 0;
    } else {
      SomethingReady(w.s, h, rank);
      ReadProgress(w, h, n);
      times := ReadsDrain(Step(w, h, ReadUpTo(n)), h, rank, n);
      times := times + 1;
    }
  }

  /** Reliability: once every message has arrived at least once - whatever the order, the
      duplicates and the reads in between - enough further reads deliver every IROB in full. */
  lemma EverythingDelivered(h: Sends, events: seq<Event>, rank: int -> nat, n: nat) returns (times: nat)
    requires PossibleRun(h, events) && WholeHistory(h, rank) && n > 0
    requires forall m :: FromSender(h, m) ==> Arrive(m) in events
    ensures var u := ReadMany(Run(h, events), h, n, times);
            && (forall k :: k in h <==> k in u.delivered)
            && NoDuplicates(u.delivered) && InDependencyOrder(h, u.delivered)
            && u.output == Contents(h, u.delivered)
  {
    var w := Run(h, events);
    forall k | k in h
      ensures AllArrived(w.s, k)
    {
      forall m | FromSender(h, m) && m.id == k
        ensures Recorded(w.s, m)
      {
        RunRecords(h, events, m);
      }
      ArrivedWhenRecorded(w.s, h, k);
    }
    LiveWasSent(w.s, h, rank);
    times := ReadsDrain(w, h, rank, n);
    var u := ReadMany(w, h, n, times);
    assert forall k :: k in u.delivered <==> k in Elements(u.delivered);
    assert u.output == Contents(h, u.delivered) + [];
  }

  /** In a whole history every live entry belongs to an IROB that was sent. */
  lemma LiveWasSent(s: Recv, h: Sends, rank: int -> nat)
    requires Inv(s, h) && WholeHistory(h, rank)
    requires forall k :: k in h ==> AllArrived(s, k)
    ensures forall k :: k in s.lattice.live ==> k in h
  {
  }
}
