/** Sender, messages in flight and receiver together: acknowledgements, data checks and
    resends over links that lose, duplicate and reorder. */
module Protocol {
  import opened Sequences
  import L = Lattice
  import D = Dominators
  import opened ReceiverIrob
  import S = SenderIrob
  import R = Receiver
  import V = Delivery

  /** How the receiver decides, on a data check, whether to ask for the End: as the code has
      it, or as the comment on the resend request describes it. */
  datatype Rule = AsWritten | AsDocumented

  /** A resend request: the Begin, one chunk, the End and everything from a seqno on. */
  datatype Packet =
    | Data(m: R.Msg)
    | Ack(id: int)
    | Check(id: int)
    | Resend(id: int, deps: bool, chunk: Option<nat>, end: Option<nat>)

  datatype Wanted = Wanted(deps: bool, data: bool, end: bool)

  datatype Outgoing = Outgoing(ondemand: bool, st: S.Sending)

  /** `irobs` keeps the IROBs the sender has finished with, so that what they contained can
      still be spoken of; `bag` holds every message ever sent, any of which may arrive again. */
  datatype Net = Net(track: D.Track, irobs: map<int, Outgoing>, bag: set<Packet>,
                     world: R.World, wanted: map<int, Wanted>, acked: set<int>)

  function NewNet(): Net {
    Net(D.NewTrack(), map[], {}, R.NewWorld(), map[], {})
  }

  predicate Closed(st: S.Sending) {
    st.complete && S.AllBytesChunked(st)
  }

  predicate SameIds(net: Net) {
    net.irobs.Keys == net.track.deps.Keys
  }

  /** The sender's history as the receiver may see it. */
  function History(net: Net): R.Sends
    requires SameIds(net)
  {
    map k | k in net.irobs ::
      R.Sent(net.track.deps[k], net.irobs[k].ondemand, S.Pieces(net.irobs[k].st), Closed(net.irobs[k].st))
  }

  predicate Sending(net: Net, id: int) {
    id in net.track.lattice.live && id in net.irobs && id in net.track.deps
  }

  // ----- Actions -----

  datatype Action =
    | AppBegin(id: int, deps: set<int>, ondemand: bool)
    | AppSend(id: int, data: seq<byte>, ondemand: bool)
    | AppWrite(id: int, data: seq<byte>)
    | AppEnd(id: int)
    | AppDrop(id: int)
    | GoRedundant(id: int)
    | EmitBegin(id: int)
    | EmitChunk(id: int, csock: nat, requested: nat)
    | EmitEnd(id: int)
    | EmitCheck(id: int)
    | EmitAck(id: int)
    | EmitResend(id: int)
    | Deliver(p: Packet)
    | AppRead(n: nat)

  function NewEntry(id: int, deps: set<int>, anonymous: bool, ondemand: bool): L.Irob {
    L.Irob(id, deps, {}, anonymous, false, ondemand)
  }

  function SetIrob(net: Net, id: int, st: S.Sending): Net
    requires id in net.irobs
  {
    net.(irobs := net.irobs[id := net.irobs[id].(st := st)])
  }

  function Post(net: Net, p: Packet): Net {
    net.(bag := net.bag + {p})
  }

  predicate Undeliverable(net: Net, deps: set<int>) {
    deps * net.track.lattice.dropped != {}
  }

  /** What a data check makes of a pending IROB. */
  function CheckResult(s: R.Recv, id: int, rule: Rule): Wanted
    requires id in s.lattice.live && id in s.bodies
  {
    Wanted(s.lattice.live[id].placeholder, Missing(s.bodies[id]) != [],
           if rule.AsWritten? then SeenEnd(s.bodies[id]) else !SeenEnd(s.bodies[id]))
  }

  /** Whether the reply to a data check is an acknowledgement. */
  predicate CheckAcks(s: R.Recv, id: int, rule: Rule)
    requires R.Matched(s)
  {
    if id in s.lattice.live then CheckResult(s, id, rule) == Wanted(false, false, false)
    else id in s.lattice.past
  }

  /** A request already waiting for the same IROB is not replaced. */
  function CheckArrives(net: Net, id: int, rule: Rule): Net
    requires R.Matched(net.world.s)
  {
    var s := net.world.s;
    if CheckAcks(s, id, rule) then net.(world := net.world.(s := s.(acks := s.acks + {id})))
    else if id in net.wanted then net
    else
      var w := if id in s.lattice.live then CheckResult(s, id, rule) else Wanted(true, true, true);
      net.(wanted := net.wanted[id := w])
  }

  /** The messages that ask for what is wanted, as far as it is still missing. */
  function ResendPackets(s: R.Recv, id: int, w: Wanted): seq<Packet>
    requires R.Matched(s)
  {
    var missing := if w.data && id in s.lattice.live then Missing(s.bodies[id]) else [];
    var next := if id in s.lattice.live then |s.bodies[id].chunks| else 0;
    if !w.deps && missing == [] && !w.end then []
    else
      [Resend(id, w.deps, if missing == [] then None else Some(missing[0]), if w.end then Some(next) else None)]
      + (if missing == [] then []
         else seq(|missing| - 1, i requires 0 <= i < |missing| - 1 => Resend(id, false, Some(missing[i + 1]), None)))
  }

  /** The sender marks what it is asked to send again. */
  function Serve(st: S.Sending, p: Packet): S.Sending
    requires p.Resend?
  {
    var a := if p.chunk.Some? then S.MarkNotReceived(st, p.chunk.value) else st;
    if p.end.Some? then S.MarkDropPoint(a, p.end.value) else a
  }

  function Arrive(net: Net, p: Packet, rule: Rule): Net
    requires R.Matched(net.world.s)
  {
    match p
    case Data(m) => net.(world := net.world.(s := R.Handle(net.world.s, m)))
    case Ack(id) =>
      if Sending(net, id) && net.irobs[id].st.complete
      then net.(track := D.Retire(net.track, id), acked := net.acked + {id}) else net
    case Check(id) => CheckArrives(net, id, rule)
    case Resend(id, deps, chunk, end) =>
      if Sending(net, id) then SetIrob(net, id, Serve(net.irobs[id].st, p)) else net
  }

  ghost predicate Enabled(net: Net, a: Action) {
    match a
    case AppBegin(id, deps, ondemand) =>
      D.Acceptable(net.track, NewEntry(id, deps, false, ondemand)) && !Undeliverable(net, deps)
    case AppSend(id, data, ondemand) =>
      D.Acceptable(net.track, NewEntry(id, {}, true, ondemand)) && data != []
    case AppWrite(id, _) => Sending(net, id) && !net.irobs[id].st.complete
    case AppEnd(id) => Sending(net, id) && !net.irobs[id].st.complete && S.Bytes(net.irobs[id].st) != []
    case AppDrop(id) => true
    case GoRedundant(id) => Sending(net, id)
    case EmitBegin(id) => Sending(net, id)
    case EmitChunk(id, _, _) => Sending(net, id)
    case EmitEnd(id) => Sending(net, id) && Closed(net.irobs[id].st)
    case EmitCheck(id) => id in net.irobs
    case EmitAck(id) => id in net.world.s.acks
    case EmitResend(id) => id in net.wanted
    case Deliver(p) => p in net.bag
    case AppRead(n) => true
  }

  ghost function Act(net: Net, a: Action, rule: Rule): Net
    requires SameIds(net) && R.Matched(net.world.s) && R.CanRead(net.world.s) && Enabled(net, a)
  {
    match a
    case AppBegin(id, deps, ondemand) =>
      net.(track := D.Begin(net.track, NewEntry(id, deps, false, ondemand)),
           irobs := net.irobs[id := Outgoing(ondemand, S.NewSending())])
    case AppSend(id, data, ondemand) =>
      net.(track := D.Begin(net.track, NewEntry(id, {}, true, ondemand)),
           irobs := net.irobs[id := Outgoing(ondemand, S.EndApp(S.AddApp(S.NewSending(), data)))])
    case AppWrite(id, data) => SetIrob(net, id, S.AddApp(net.irobs[id].st, data))
    case AppEnd(id) => SetIrob(net, id, S.EndApp(net.irobs[id].st))
    case AppDrop(id) => net.(track := D.Abandon(net.track, id))
    case GoRedundant(id) => SetIrob(net, id, net.irobs[id].st.(onAll := true))
    case EmitBegin(id) => Post(net, Data(R.BeginMsg(id, net.track.deps[id], net.irobs[id].ondemand)))
    case EmitChunk(id, csock, requested) =>
      var r := S.GetReady(net.irobs[id].st, csock, requested);
      if r.length == 0 then net
      else Post(SetIrob(net, id, r.st), Data(R.ChunkMsg(id, Incoming(r.seqno, r.offset, Some(r.data)))))
    case EmitEnd(id) =>
      Post(net, Data(R.EndMsg(id, |S.Bytes(net.irobs[id].st)|, |net.irobs[id].st.sent|)))
    case EmitCheck(id) => Post(net, Check(id))
    case EmitAck(id) =>
      Post(net.(world := net.world.(s := net.world.s.(acks := net.world.s.acks - {id}))), Ack(id))
    case EmitResend(id) =>
      var ps := ResendPackets(net.world.s, id, net.wanted[id]);
      net.(bag := net.bag + (set p | p in ps), wanted := net.wanted - {id})
    case Deliver(p) => Arrive(net, p, rule)
    case AppRead(n) => net.(world := R.Read(net.world, n))
  }

  // ----- Growing histories -----

  /** The sender only adds: IROBs, pieces, and finally the End. */
  ghost predicate Grows(h: R.Sends, g: R.Sends) {
    forall k :: k in h ==>
      && k in g && g[k].deps == h[k].deps && g[k].ondemand == h[k].ondemand
      && h[k].pieces <= g[k].pieces && (h[k].closed ==> g[k] == h[k])
  }

  lemma FromSenderGrows(h: R.Sends, g: R.Sends, m: R.Msg)
    requires Grows(h, g) && R.FromSender(h, m)
    ensures R.FromSender(g, m)
  {
    if m.ChunkMsg? {
      var more := g[m.id].pieces[|h[m.id].pieces|..];
      assert g[m.id].pieces == h[m.id].pieces + more;
      PieceOffsetExtends(h[m.id].pieces, more, m.chunk.seqno);
    }
  }

  lemma EntryGrows(s: R.Recv, h: R.Sends, g: R.Sends, k: int)
    requires Grows(h, g) && k in s.lattice.live && k in s.bodies && R.EntryOk(s, h, k)
    ensures s.reading != Some(k) || k in h ==> R.EntryOk(s, g, k)
  {
    if k in h {
      var more := g[k].pieces[|h[k].pieces|..];
      assert g[k].pieces == h[k].pieces + more;
      if s.reading != Some(k) {
        if h[k].closed {
          assert more == [];
        }
        AssemblingExtends(s.bodies[k], h[k].pieces, h[k].closed, more, g[k].closed);
      }
    } else if k in g {
      assert Stored([]) == [] && Count([]) == 0;
    }
  }

  lemma InvGrows(s: R.Recv, h: R.Sends, g: R.Sends)
    requires Grows(h, g) && R.Inv(s, h)
    ensures R.Inv(s, g)
  {
    forall k | k in s.lattice.live
      ensures R.EntryOk(s, g, k) && R.ReleasedRightly(s, k) && R.ReleasedPromptly(s, k) && R.Known(g, k)
    {
      assert R.EntryOk(s, h, k) && R.ReleasedRightly(s, k) && R.ReleasedPromptly(s, k) && R.Known(h, k);
      EntryGrows(s, h, g, k);
      if k !in h {
        var r :| r in h && k in h[r].deps;
        assert r in g && k in g[r].deps;
      }
    }
  }

  lemma {:induction false} ContentsGrow(h: R.Sends, g: R.Sends, ids: seq<int>)
    requires Grows(h, g) && forall k :: k in ids ==> k in h && h[k].closed
    ensures V.Contents(g, ids) == V.Contents(h, ids)
  {
    if ids != [] {
      ContentsGrow(h, g, ids[..|ids| - 1]);
    }
  }

  lemma OrderGrows(h: R.Sends, g: R.Sends, ids: seq<int>)
    requires Grows(h, g) && V.InDependencyOrder(h, ids)
    ensures V.InDependencyOrder(g, ids)
  {
    hide Elements;
    forall i | 0 <= i < |ids|
      ensures ids[i] in g && g[ids[i]].deps <= Elements(ids[..i])
    {
      var k := ids[i];
      assert k in h && h[k].deps <= Elements(ids[..i]);
      assert k in g && g[k].deps == h[k].deps;
    }
  }

  lemma LogGrows(w: R.World, h: R.Sends, g: R.Sends)
    requires Grows(h, g) && R.Inv(w.s, h) && V.LogOk(w, h)
    ensures V.LogOk(w, g)
  {
    hide R.ReleasedRightly, R.ReleasedPromptly, Elements, V.Contents, V.InDependencyOrder;
    ContentsGrow(h, g, w.delivered);
    OrderGrows(h, g, w.delivered);
    if w.s.reading.Some? {
      assert R.EntryOk(w.s, h, w.s.reading.value);
    }
  }

  // ----- What has fully arrived stays so -----

  lemma HandleKeepsArrived(s: R.Recv, h: R.Sends, m: R.Msg, k: int)
    requires R.Inv(s, h) && R.FromSender(h, m)
    ensures V.AllArrived(s, k) ==> V.AllArrived(R.Handle(s, m), k)
    ensures k in R.Handle(s, m).acks ==> k in s.acks || V.AllArrived(R.Handle(s, m), k)
  {
    match m
    case BeginMsg(id, deps, ondemand) => BeginKeepsArrived(s, h, id, deps, ondemand, k);
    case ChunkMsg(id, c) =>
      if id !in s.lattice.past {
        R.ChunkEffect(s, h, id, c);
        LandKeepsArrived(s, h, id, AddChunk(R.BodyOf(s, id), c).body, k);
      }
    case EndMsg(id, bytes, count) =>
      if id !in s.lattice.past {
        R.EndEffect(s, h, id, bytes, count);
        LandKeepsArrived(s, h, id, Finish(R.BodyOf(s, id), bytes, count).body, k);
      }
  }

  lemma LandKeepsArrived(s: R.Recv, h: R.Sends, id: int, b: Body, k: int)
    requires R.Inv(s, h) && id in h && id !in s.lattice.past
    requires R.Effect(s, R.Land(s, id, b), id, b)
    requires IsComplete(R.BodyOf(s, id)) ==> b == R.BodyOf(s, id)
    ensures var t := R.Land(s, id, b);
            && (V.AllArrived(s, k) ==> V.AllArrived(t, k))
            && (k in t.acks ==> k in s.acks || V.AllArrived(t, k))
  {
    hide R.InvBut, R.Settle, IsComplete;
    var e := R.WithEntry(s, id);
    R.WithEntryKeeps(s, h, id);
    R.SettleFrame(e.(bodies := e.bodies[id := b]), id);
    SameCompletion(R.Land(s, id, b).bodies[id], b);
    forall j | j in s.lattice.live && j != id
      ensures IsComplete(R.Land(s, id, b).bodies[j]) == IsComplete(s.bodies[j])
    {
      SameCompletion(R.Land(s, id, b).bodies[j], s.bodies[j]);
    }
    hide R.WithEntry, R.Land;
  }

  lemma SameCompletion(a: Body, b: Body)
    requires R.SameBytes(a, b)
    ensures IsComplete(a) == IsComplete(b)
  {
  }

  lemma BeginKeepsArrived(s: R.Recv, h: R.Sends, id: int, deps: set<int>, ondemand: bool, k: int)
    requires R.Inv(s, h) && R.FromSender(h, R.BeginMsg(id, deps, ondemand))
    ensures var t := R.HandleBegin(s, id, deps, ondemand);
            && (V.AllArrived(s, k) ==> V.AllArrived(t, k))
            && (k in t.acks ==> k in s.acks || V.AllArrived(t, k))
  {
    hide R.InvBut, R.HandleBegin, R.BeginEntry;
    R.InvFacts(s, h);
    if L.Insertable(s.lattice, id) {
      R.BeginEffect(s, h, id, deps, ondemand);
      BeginAcks(s, id, deps, ondemand);
      hide R.Settle;
    } else {
      V.RefusedBegin(s, id, deps, ondemand);
    }
  }

  lemma BeginAcks(s: R.Recv, id: int, deps: set<int>, ondemand: bool)
    requires R.Matched(s) && L.Insertable(s.lattice, id)
    ensures var t := R.HandleBegin(s, id, deps, ondemand);
            forall k :: k in t.acks ==> k in s.acks || V.AllArrived(t, k)
  {
    var e := R.BeginEntry(s, id, deps, ondemand);
    R.BeginEntryFrame(s, id, deps, ondemand);
    R.SettleFrame(e, id);
    assert e.acks == s.acks;
    hide R.BeginEntry, R.Settle;
  }

  lemma ReadKeepsArrived(w: R.World, h: R.Sends, n: nat, k: int)
    requires R.Inv(w.s, h) && R.NonEmptySends(h)
    ensures R.CanRead(w.s)
    ensures V.AllArrived(w.s, k) ==> V.AllArrived(R.Read(w, n).s, k)
    ensures R.Read(w, n).s.acks == w.s.acks
  {
    hide R.TakeFrom, RemoveBytes, R.InvBut, Draining, Unread;
    R.ReadKeepsInv(w, h, n);
    if n > 0 && R.NextUp(w.s).Some? {
      R.NextUpDrains(w.s, h);
      var j := R.NextUp(w.s).value;
      R.ReadEffect(w, h, n);
      DrainStep(w.s.bodies[j], h[j].pieces, n);
      R.InvFacts(R.Read(w, n).s, h);
      hide R.Read, R.NextUp;
    }
  }

  /** Fully arrived: the sender had finished, and the receiver has passed the bytes on or
      still holds exactly the part it has not passed on. */
  lemma ArrivedMeans(s: R.Recv, h: R.Sends, k: int)
    requires R.Inv(s, h) && V.AllArrived(s, k)
    ensures k in h && h[k].closed
    ensures k in s.lattice.past
            || (k in s.bodies && s.reading != Some(k) && Unread(s.bodies[k]) == R.Content(h, k))
            || (k in s.bodies && s.reading == Some(k) && Draining(s.bodies[k], h[k].pieces))
  {
    if k !in s.lattice.past {
      assert R.EntryOk(s, h, k);
      if s.reading != Some(k) {
        CompleteIff(s.bodies[k], h[k].pieces, h[k].closed);
      }
    }
  }

  // ----- Data checks -----

  /** Begun, no gap so far, and no End seen: the check as written then acknowledges. */
  ghost predicate Trapped(s: R.Recv, id: int) {
    && id in s.lattice.live && id in s.bodies && !s.lattice.live[id].placeholder
    && Missing(s.bodies[id]) == [] && !SeenEnd(s.bodies[id])
  }

  lemma NothingMissing(b: Body, pieces: seq<seq<byte>>, closed: bool)
    requires Assembling(b, pieces, closed) && SeenEnd(b) && Missing(b) == []
    ensures IsComplete(b)
  {
    var n := if b.expectedChunks > |b.chunks| then b.expectedChunks else |b.chunks|;
    MissingBelowIs(b.chunks, n);
    forall i | 0 <= i < |pieces|
      ensures Has(b.chunks, i)
    {
      assert i !in Missing(b);
    }
    CompleteIff(b, pieces, closed);
  }

  /** The reply to a data check acknowledges what has not arrived exactly when the rule is the
      one written and the IROB is begun, gapless and without its End. */
  lemma CheckUnsoundIff(s: R.Recv, h: R.Sends, id: int, rule: Rule)
    requires R.Inv(s, h)
    ensures CheckAcks(s, id, rule) && !V.AllArrived(s, id) <==> rule.AsWritten? && Trapped(s, id)
  {
    if id in s.lattice.live {
      assert R.EntryOk(s, h, id);
      var b := s.bodies[id];
      if !s.lattice.live[id].placeholder && SeenEnd(b) && Missing(b) == [] && s.reading != Some(id) {
        NothingMissing(b, h[id].pieces, h[id].closed);
      }
      if s.reading != Some(id) && !s.lattice.live[id].placeholder {
        CompleteIff(b, h[id].pieces, h[id].closed);
      }
    }
  }

  // ----- The invariant -----

  ghost predicate IrobOk(o: Outgoing) {
    S.Valid(o.st) && (o.st.complete ==> S.Bytes(o.st) != [])
  }

  ghost predicate SenderOk(net: Net) {
    && SameIds(net) && D.Sound(net.track)
    && forall k :: k in net.irobs ==> IrobOk(net.irobs[k])
  }

  ghost predicate ReceiverOk(net: Net)
    requires SameIds(net)
  {
    R.Inv(net.world.s, History(net)) && V.LogOk(net.world, History(net))
  }

  /** What was sent says of the sender only what is true. */
  ghost predicate PacketFair(net: Net, p: Packet)
    requires SameIds(net)
  {
    match p
    case Data(m) => R.FromSender(History(net), m)
    case Ack(id) => id in net.irobs
    case Check(id) => id in net.irobs
    case Resend(id, _, chunk, _) => id in net.irobs && (chunk.Some? ==> chunk.value < |net.irobs[id].st.sent|)
  }

  ghost predicate BagFair(net: Net)
    requires SameIds(net)
  {
    && (forall p :: p in net.bag ==> PacketFair(net, p))
    && (forall k :: k in net.wanted || k in net.world.s.acks ==> k in net.irobs)
  }

  /** The invariant of sender, bag and receiver, whatever the receiver acknowledges. */
  ghost predicate Fair(net: Net) {
    SenderOk(net) && ReceiverOk(net) && BagFair(net)
  }

  /** An acknowledgement has been scheduled, sent or acted on. */
  predicate Acknowledged(net: Net, k: int) {
    k in net.world.s.acks || Ack(k) in net.bag || k in net.acked
  }

  /** Only what has fully arrived is acknowledged. */
  ghost predicate AcksHold(net: Net) {
    forall k :: Acknowledged(net, k) ==> V.AllArrived(net.world.s, k)
  }

  ghost predicate Good(net: Net) {
    Fair(net) && AcksHold(net)
  }

  lemma FairReads(net: Net)
    requires Fair(net)
    ensures SameIds(net) && R.NonEmptySends(History(net)) && R.CanRead(net.world.s) && R.Matched(net.world.s)
  {
    var h := History(net);
    forall k | k in h && h[k].closed
      ensures |R.Content(h, k)| > 0
    {
      assert IrobOk(net.irobs[k]);
      S.PiecesPartition(net.irobs[k].st);
    }
    R.InvFacts(net.world.s, h);
    if R.NextUp(net.world.s).Some? {
      R.NextUpDrains(net.world.s, h);
    }
  }

  lemma NewNetFair()
    ensures Fair(NewNet())
  {
    D.NewTrackSound();
    R.NewRecvInv(History(NewNet()));
  }

  /** A step of the sender alone: its history grows, and the receiver sees no difference. */
  lemma SenderStep(net: Net, next: Net)
    requires Fair(net) && SenderOk(next) && next.world == net.world
    requires Grows(History(net), History(next))
    requires forall k :: k in net.irobs ==> k in next.irobs && |net.irobs[k].st.sent| <= |next.irobs[k].st.sent|
    requires next.wanted == net.wanted
    requires forall p :: p in next.bag ==> p in net.bag || PacketFair(next, p)
    ensures Fair(next)
  {
    InvGrows(net.world.s, History(net), History(next));
    LogGrows(net.world, History(net), History(next));
    forall p | p in next.bag
      ensures PacketFair(next, p)
    {
      if p in net.bag {
        assert PacketFair(net, p);
        if p.Data? {
          FromSenderGrows(History(net), History(next), p.m);
        }
      }
    }
  }

  // ----- Every action keeps the invariant -----

  lemma HistoryOfSet(net: Net, id: int, st: S.Sending)
    requires SameIds(net) && id in net.irobs
    requires S.Pieces(net.irobs[id].st) <= S.Pieces(st)
    requires Closed(net.irobs[id].st) ==> Closed(st) && S.Pieces(st) == S.Pieces(net.irobs[id].st)
    ensures SameIds(SetIrob(net, id, st)) && Grows(History(net), History(SetIrob(net, id, st)))
  {
    hide S.Pieces, Closed;
  }

  /** Changing one IROB's sending state. */
  lemma SetKeepsFair(net: Net, id: int, st: S.Sending)
    requires Fair(net) && Sending(net, id) && IrobOk(net.irobs[id].(st := st))
    requires S.Pieces(net.irobs[id].st) <= S.Pieces(st) && |net.irobs[id].st.sent| <= |st.sent|
    requires Closed(net.irobs[id].st) ==> Closed(st) && S.Pieces(st) == S.Pieces(net.irobs[id].st)
    ensures Fair(SetIrob(net, id, st))
  {
    hide S.Pieces, Closed, IrobOk, ReceiverOk, PacketFair, D.Sound;
    HistoryOfSet(net, id, st);
    SenderStep(net, SetIrob(net, id, st));
  }

  lemma HistoryOfBegin(net: Net, r: L.Irob, o: Outgoing)
    requires SenderOk(net) && D.Acceptable(net.track, r) && IrobOk(o)
    ensures var next := net.(track := D.Begin(net.track, r), irobs := net.irobs[r.id := o]);
            SenderOk(next) && Grows(History(net), History(next)) && r.id !in net.irobs
  {
    hide S.Valid, S.Bytes, S.Pieces, Closed, D.Begin, D.Sound;
    D.BeginKeepsSound(net.track, r);
    BeginDeps(net.track, r);
    NewId(net, r);
  }

  lemma BeginDeps(t: D.Track, r: L.Irob)
    ensures D.Begin(t, r).deps == t.deps[r.id := D.Announced(t, r)]
  {
  }

  lemma NewId(net: Net, r: L.Irob)
    requires SenderOk(net) && D.Acceptable(net.track, r)
    ensures r.id !in net.irobs
  {
  }

  lemma BeginKeepsFair(net: Net, r: L.Irob, o: Outgoing)
    requires Fair(net) && D.Acceptable(net.track, r) && IrobOk(o)
    ensures Fair(net.(track := D.Begin(net.track, r), irobs := net.irobs[r.id := o]))
  {
    hide SenderOk, ReceiverOk, PacketFair, IrobOk, D.Begin, D.Acceptable;
    var next := net.(track := D.Begin(net.track, r), irobs := net.irobs[r.id := o]);
    HistoryOfBegin(net, r, o);
    SenderStep(net, next);
  }

  lemma AppendKeepsFair(net: Net, id: int, data: seq<byte>)
    requires Fair(net) && Sending(net, id) && !net.irobs[id].st.complete
    ensures Fair(SetIrob(net, id, S.AddApp(net.irobs[id].st, data)))
  {
    hide D.Sound, ReceiverOk, BagFair, S.Valid, S.Bytes, S.Pieces;
    var st := net.irobs[id].st;
    assert IrobOk(net.irobs[id]);
    S.AddAppKeeps(st, data);
    assert !S.AddApp(st, data).complete;
    SetKeepsFair(net, id, S.AddApp(st, data));
  }

  lemma EndKeepsFair(net: Net, id: int)
    requires Fair(net) && Sending(net, id) && !net.irobs[id].st.complete && S.Bytes(net.irobs[id].st) != []
    ensures Fair(SetIrob(net, id, S.EndApp(net.irobs[id].st)))
  {
    var st := net.irobs[id].st;
    assert IrobOk(net.irobs[id]);
    S.EndAppKeeps(st);
    hide D.Sound, ReceiverOk, BagFair, S.Valid, S.Bytes, S.Pieces;
    SetKeepsFair(net, id, S.EndApp(st));
  }

  lemma RedundantKeepsFair(net: Net, id: int)
    requires Fair(net) && Sending(net, id)
    ensures Fair(SetIrob(net, id, net.irobs[id].st.(onAll := true)))
  {
    var st := net.irobs[id].st;
    assert IrobOk(net.irobs[id]);
    S.SendOnAllKeeps(st);
    assert S.Bytes(st.(onAll := true)) == S.Bytes(st) && S.Pieces(st.(onAll := true)) == S.Pieces(st);
    hide D.Sound, ReceiverOk, BagFair, S.Valid, S.Bytes, S.Pieces;
    SetKeepsFair(net, id, st.(onAll := true));
  }

  /** A closed IROB has nothing left to cut. */
  lemma ClosedStays(st: S.Sending, r: S.Ready)
    requires S.Valid(st) && Closed(st) && S.HandsOutPiece(st, r)
    ensures Closed(r.st) && S.Pieces(r.st) == S.Pieces(st)
  {
    S.PiecesPartition(st);
    S.PiecesPartition(r.st);
    hide S.Valid, S.Bytes, S.SentBytes, S.AllBytesChunked;
    var p, q := S.Pieces(st), S.Pieces(r.st);
    if |p| < |q| {
      NewPieceNotEmpty(r.st, |p|);
    }
    OnePieceMore(p, q);
    assert r.st.complete && S.Bytes(r.st) == S.Bytes(st);
  }

  lemma OnePieceMore(p: seq<seq<byte>>, q: seq<seq<byte>>)
    requires p <= q && |q| <= |p| + 1
    ensures |q| > |p| ==> |Concat(q)| == |Concat(p)| + |q[|p|]|
    ensures |q| == |p| ==> q == p
  {
    if |q| > |p| {
      assert q == p + [q[|p|]];
      ConcatSnoc(p, q[|p|]);
    }
  }

  lemma NewPieceNotEmpty(st: S.Sending, i: nat)
    requires S.Valid(st) && i < |st.sent|
    ensures |S.Pieces(st)[i]| > 0
    ensures |Concat(S.Pieces(st))| <= |S.Bytes(st)|
  {
    S.CutInside(st, i);
    S.PieceAt(S.Bytes(st), st.sent, i);
    S.PiecesPartition(st);
  }

  lemma ChunkKeepsFair(net: Net, id: int, csock: nat, requested: nat)
    requires Fair(net) && Sending(net, id)
    ensures var r := S.GetReady(net.irobs[id].st, csock, requested);
            r.length > 0 ==>
              Fair(Post(SetIrob(net, id, r.st), Data(R.ChunkMsg(id, Incoming(r.seqno, r.offset, Some(r.data))))))
  {
    hide D.Sound, ReceiverOk, S.Valid, S.Bytes, S.Pieces, S.GetReady, Closed, S.AllBytesChunked;
    var st := net.irobs[id].st;
    assert IrobOk(net.irobs[id]);
    S.GetReadyHandsOutPieces(st, csock, requested);
    var r := S.GetReady(st, csock, requested);
    if r.length > 0 {
      var next := SetIrob(net, id, r.st);
      var m := R.ChunkMsg(id, Incoming(r.seqno, r.offset, Some(r.data)));
      if Closed(st) {
        ClosedStays(st, r);
      }
      S.PiecesPartition(r.st);
      assert m.chunk == PieceMessage(S.Pieces(r.st), r.seqno);
      SentPieces(st);
      SentPieces(r.st);
      assert PacketFair(next, Data(m));
      SetKeepsFair(net, id, r.st);
      PostKeepsFair(next, Data(m));
    }
  }

  lemma SentPieces(st: S.Sending)
    ensures |S.Pieces(st)| == |st.sent|
  {
  }

  lemma PostKeepsFair(net: Net, p: Packet)
    requires Fair(net) && PacketFair(net, p)
    ensures Fair(Post(net, p))
  {
    hide D.Sound, ReceiverOk, S.Valid;
    var next := Post(net, p);
    assert History(next) == History(net);
    assert PacketFair(next, p);
    SenderStep(net, next);
  }

  lemma EmitBeginFair(net: Net, id: int)
    requires Fair(net) && Sending(net, id)
    ensures Fair(Post(net, Data(R.BeginMsg(id, net.track.deps[id], net.irobs[id].ondemand))))
  {
    hide D.Sound, ReceiverOk, S.Valid;
    PostKeepsFair(net, Data(R.BeginMsg(id, net.track.deps[id], net.irobs[id].ondemand)));
  }

  lemma EmitEndFair(net: Net, id: int)
    requires Fair(net) && Sending(net, id) && Closed(net.irobs[id].st)
    ensures Fair(Post(net, Data(R.EndMsg(id, |S.Bytes(net.irobs[id].st)|, |net.irobs[id].st.sent|))))
  {
    hide D.Sound, ReceiverOk, S.Valid, S.Bytes, S.Pieces, S.AllBytesChunked;
    assert IrobOk(net.irobs[id]);
    S.PiecesPartition(net.irobs[id].st);
    SentPieces(net.irobs[id].st);
    PostKeepsFair(net, Data(R.EndMsg(id, |S.Bytes(net.irobs[id].st)|, |net.irobs[id].st.sent|)));
  }

  /** Only the sender's lattice changes. */
  lemma TrackKeepsFair(net: Net, track: D.Track, acked: set<int>)
    requires Fair(net) && D.Sound(track) && track.deps == net.track.deps
    ensures Fair(net.(track := track, acked := acked))
  {
    hide D.Sound, ReceiverOk, S.Valid;
    var next := net.(track := track, acked := acked);
    assert History(next) == History(net);
    SenderStep(net, next);
  }

  /** A step of the receiver alone. */
  lemma ReceiverStep(net: Net, world: R.World)
    requires Fair(net)
    requires R.Inv(world.s, History(net)) && V.LogOk(world, History(net))
    requires forall k :: k in world.s.acks ==> k in net.irobs
    ensures Fair(net.(world := world))
  {
    hide D.Sound, R.InvBut, V.LogOk, S.Valid, V.AllArrived;
    var next := net.(world := world);
    assert History(next) == History(net);
    forall p | p in next.bag
      ensures PacketFair(next, p)
    {
      assert PacketFair(net, p);
    }
  }

  /** A message makes the receiver acknowledge only what it knows. */
  lemma DataAcksKnown(net: Net, m: R.Msg)
    requires Fair(net) && Data(m) in net.bag && R.Matched(net.world.s)
    requires R.Inv(R.Handle(net.world.s, m), History(net))
    ensures forall k :: k in R.Handle(net.world.s, m).acks ==> k in net.irobs
  {
    hide D.Sound, R.InvBut, V.LogOk, S.Valid, V.AllArrived, R.Handle;
    var h, t := History(net), R.Handle(net.world.s, m);
    assert PacketFair(net, Data(m));
    forall k | k in t.acks
      ensures k in net.irobs
    {
      HandleKeepsArrived(net.world.s, h, m, k);
      if V.AllArrived(t, k) {
        ArrivedMeans(t, h, k);
      }
    }
  }

  lemma DataKeepsFair(net: Net, m: R.Msg)
    requires Fair(net) && Data(m) in net.bag
    ensures R.Matched(net.world.s) && Fair(net.(world := net.world.(s := R.Handle(net.world.s, m))))
  {
    hide D.Sound, R.InvBut, V.LogOk, S.Valid, V.AllArrived, R.Handle;
    FairReads(net);
    assert PacketFair(net, Data(m));
    var h := History(net);
    R.HandleKeepsInv(net.world.s, h, m);
    V.HandleKeepsLog(net.world, h, m);
    DataAcksKnown(net, m);
    ReceiverStep(net, net.world.(s := R.Handle(net.world.s, m)));
  }

  lemma ReadKeepsFair(net: Net, n: nat)
    requires Fair(net)
    ensures R.CanRead(net.world.s) && Fair(net.(world := R.Read(net.world, n)))
  {
    hide D.Sound, R.InvBut, V.LogOk, S.Valid, V.AllArrived, R.Read;
    FairReads(net);
    var h := History(net);
    R.ReadKeepsInv(net.world, h, n);
    V.ReadKeepsLog(net.world, h, n);
    ReadKeepsArrived(net.world, h, n, 0);
    ReceiverStep(net, R.Read(net.world, n));
  }

  // ----- Control messages -----

  lemma BagOk(net: Net, p: Packet)
    requires Fair(net) && p in net.bag
    ensures PacketFair(net, p)
  {
  }

  lemma CheckKeepsFair(net: Net, id: int, rule: Rule)
    requires Fair(net) && id in net.irobs
    ensures R.Matched(net.world.s) && Fair(CheckArrives(net, id, rule))
  {
    hide Fair, R.Matched, CheckAcks;
    FairReads(net);
    if CheckAcks(net.world.s, id, rule) {
      AckLater(net, id);
    } else {
      WantedStay(net);
      WantedKeepsFair(net, CheckArrives(net, id, rule).wanted);
    }
  }

  lemma AckLater(net: Net, id: int)
    requires Fair(net) && id in net.irobs
    ensures Fair(net.(world := net.world.(s := net.world.s.(acks := net.world.s.acks + {id}))))
  {
    hide D.Sound, R.InvBut, S.Valid, V.LogOk, V.AllArrived, PacketFair;
    AckScheduled(net.world.s, History(net), id);
    AckedLog(net.world, History(net), id);
    ReceiverStep(net, net.world.(s := net.world.s.(acks := net.world.s.acks + {id})));
  }

  lemma AckScheduled(s: R.Recv, h: R.Sends, id: int)
    requires R.Inv(s, h)
    ensures R.Inv(s.(acks := s.acks + {id}), h)
    ensures forall k :: V.AllArrived(s.(acks := s.acks + {id}), k) <==> V.AllArrived(s, k)
  {
    var t := s.(acks := s.acks + {id});
    forall k | k in t.lattice.live
      ensures R.EntryOk(t, h, k) && R.ReleasedRightly(t, k) && R.ReleasedPromptly(t, k)
    {
      assert R.EntryOk(s, h, k) && R.ReleasedRightly(s, k) && R.ReleasedPromptly(s, k);
    }
  }

  lemma AckTaken(s: R.Recv, h: R.Sends, id: int)
    requires R.Inv(s, h)
    ensures R.Inv(s.(acks := s.acks - {id}), h)
    ensures forall k :: V.AllArrived(s.(acks := s.acks - {id}), k) <==> V.AllArrived(s, k)
  {
    var t := s.(acks := s.acks - {id});
    forall k | k in t.lattice.live
      ensures R.EntryOk(t, h, k) && R.ReleasedRightly(t, k) && R.ReleasedPromptly(t, k)
    {
      assert R.EntryOk(s, h, k) && R.ReleasedRightly(s, k) && R.ReleasedPromptly(s, k);
    }
  }

  lemma AckedLog(w: R.World, h: R.Sends, id: int)
    requires V.LogOk(w, h)
    ensures V.LogOk(w.(s := w.s.(acks := w.s.acks + {id})), h)
    ensures V.LogOk(w.(s := w.s.(acks := w.s.acks - {id})), h)
  {
  }

  lemma WantedKeepsFair(net: Net, wanted: map<int, Wanted>)
    requires Fair(net) && forall k :: k in wanted ==> k in net.irobs
    ensures Fair(net.(wanted := wanted))
  {
    hide D.Sound, R.InvBut, S.Valid, V.LogOk, V.AllArrived;
    var next := net.(wanted := wanted);
    assert History(next) == History(net);
    forall p | p in next.bag
      ensures PacketFair(next, p)
    {
      assert PacketFair(net, p);
    }
  }

  lemma EmitAckFair(net: Net, id: int)
    requires Fair(net) && id in net.world.s.acks
    ensures Fair(Post(net.(world := net.world.(s := net.world.s.(acks := net.world.s.acks - {id}))), Ack(id)))
  {
    hide D.Sound, R.InvBut, S.Valid, V.LogOk, V.AllArrived, PacketFair;
    var s := net.world.s;
    AckTaken(s, History(net), id);
    AckedLog(net.world, History(net), id);
    var next := net.(world := net.world.(s := s.(acks := s.acks - {id})));
    ReceiverStep(net, next.world);
    AckPacket(next, id);
    hide Fair;
    PostKeepsFair(next, Ack(id));
  }

  lemma AckPacket(net: Net, id: int)
    requires SameIds(net) && id in net.irobs
    ensures PacketFair(net, Ack(id))
  {
  }

  /** The sender removes an acknowledged IROB. */
  lemma AckKeepsFair(net: Net, id: int)
    requires Fair(net)
    ensures Fair(net.(track := D.Retire(net.track, id), acked := net.acked + {id}))
  {
    hide D.Sound, D.Retire, ReceiverOk, S.Valid, V.AllArrived;
    D.RetireKeepsSound(net.track, id);
    RetireDeps(net.track, id);
    TrackKeepsFair(net, D.Retire(net.track, id), net.acked + {id});
  }

  lemma RetireDeps(t: D.Track, id: int)
    ensures D.Retire(t, id).deps == t.deps && D.Abandon(t, id).deps == t.deps
  {
  }

  lemma DropKeepsFair(net: Net, id: int)
    requires Fair(net)
    ensures Fair(net.(track := D.Abandon(net.track, id)))
  {
    hide D.Sound, D.Abandon, ReceiverOk, S.Valid, V.AllArrived;
    D.AbandonKeepsSound(net.track, id);
    RetireDeps(net.track, id);
    TrackKeepsFair(net, D.Abandon(net.track, id), net.acked);
    assert net.(track := D.Abandon(net.track, id)) == net.(track := D.Abandon(net.track, id), acked := net.acked);
  }

  /** No seqno the receiver asks for is beyond what the sender has cut. */
  lemma MissingWasSent(s: R.Recv, h: R.Sends, id: int, i: nat)
    requires R.Inv(s, h) && id in s.lattice.live && id in h && id in s.bodies && i in Missing(s.bodies[id])
    ensures i < |h[id].pieces|
  {
    var b := s.bodies[id];
    MissingBelowIs(b.chunks, if b.expectedChunks > |b.chunks| then b.expectedChunks else |b.chunks|);
    assert R.EntryOk(s, h, id);
    if s.reading == Some(id) {
      CountFull(b.chunks);
    }
  }

  /** What the receiver lists as missing, if asked for data. */
  function MissingOf(s: R.Recv, id: int, w: Wanted): seq<nat>
    requires R.Matched(s)
  {
    if w.data && id in s.lattice.live then Missing(s.bodies[id]) else []
  }

  lemma RequestShape(s: R.Recv, id: int, w: Wanted, p: Packet)
    requires R.Matched(s) && p in ResendPackets(s, id, w)
    ensures p.Resend? && p.id == id && (p.chunk.Some? ==> p.chunk.value in MissingOf(s, id, w))
  {
    var missing := MissingOf(s, id, w);
    forall i | 0 <= i < |missing|
      ensures missing[i] in missing
    {
    }
    hide Missing;
  }

  lemma RequestsOk(net: Net, id: int, w: Wanted, p: Packet)
    requires SenderOk(net) && ReceiverOk(net) && R.Matched(net.world.s) && id in net.irobs
    requires p in ResendPackets(net.world.s, id, w)
    ensures PacketFair(net, p)
  {
    hide D.Sound, R.InvBut, S.Valid, V.LogOk, Missing, ResendPackets;
    var s := net.world.s;
    RequestShape(s, id, w, p);
    if p.chunk.Some? {
      MissingWasSent(s, History(net), id, p.chunk.value);
      SentPieces(net.irobs[id].st);
    }
  }

  lemma EmitResendFair(net: Net, id: int)
    requires Fair(net) && id in net.wanted
    ensures R.Matched(net.world.s)
    ensures Fair(net.(bag := net.bag + (set p | p in ResendPackets(net.world.s, id, net.wanted[id])),
                      wanted := net.wanted - {id}))
  {
    hide D.Sound, R.InvBut, S.Valid, V.LogOk, ResendPackets, V.AllArrived, PacketFair, IrobOk;
    FairReads(net);
    var ps := ResendPackets(net.world.s, id, net.wanted[id]);
    forall p | p in ps
      ensures PacketFair(net, p)
    {
      RequestsOk(net, id, net.wanted[id], p);
    }
    BagKeepsFair(net, set p | p in ps);
    hide Fair;
    var mid := net.(bag := net.bag + (set p | p in ps));
    WantedStay(net);
    WantedKeepsFair(mid, net.wanted - {id});
    assert mid.(wanted := net.wanted - {id}) == net.(bag := mid.bag, wanted := net.wanted - {id});
  }

  lemma WantedStay(net: Net)
    requires Fair(net)
    ensures forall k :: k in net.wanted ==> k in net.irobs
  {
  }

  lemma BagKeepsFair(net: Net, more: set<Packet>)
    requires Fair(net) && forall p :: p in more ==> PacketFair(net, p)
    ensures Fair(net.(bag := net.bag + more))
  {
    hide D.Sound, R.InvBut, S.Valid, V.LogOk, V.AllArrived, IrobOk;
    var mid := net.(bag := net.bag + more);
    assert History(mid) == History(net);
    forall p | p in mid.bag
      ensures PacketFair(mid, p)
    {
      assert PacketFair(net, p);
    }
  }

  lemma ServeKeeps(st: S.Sending, p: Packet)
    requires S.Valid(st) && p.Resend? && (p.chunk.Some? ==> p.chunk.value < |st.sent|)
    ensures var t := Serve(st, p);
            && S.Valid(t) && S.Bytes(t) == S.Bytes(st) && S.Pieces(t) == S.Pieces(st)
            && t == st.(resend := t.resend) && (Closed(t) <==> Closed(st))
  {
    hide S.Valid;
    var a := if p.chunk.Some? then S.MarkNotReceived(st, p.chunk.value) else st;
    if p.chunk.Some? {
      S.MarksKeep(st, p.chunk.value, 0);
    }
    if p.end.Some? {
      S.MarksKeep(a, |a.sent| + 1, p.end.value);
    }
  }

  lemma ResendKeepsFair(net: Net, p: Packet)
    requires Fair(net) && p in net.bag && p.Resend? && Sending(net, p.id)
    ensures Fair(SetIrob(net, p.id, Serve(net.irobs[p.id].st, p)))
  {
    hide D.Sound, ReceiverOk, S.Valid, S.Bytes, S.Pieces, Closed, Serve;
    assert PacketFair(net, p) && IrobOk(net.irobs[p.id]);
    ServeKeeps(net.irobs[p.id].st, p);
    SetKeepsFair(net, p.id, Serve(net.irobs[p.id].st, p));
  }

  // ----- Every step, guarded by nothing -----

  lemma ArriveKeepsFair(net: Net, p: Packet, rule: Rule)
    requires Fair(net) && p in net.bag
    ensures R.Matched(net.world.s) && Fair(Arrive(net, p, rule))
  {
    hide Fair, SenderOk, ReceiverOk, R.Handle, R.CanRead, R.NonEmptySends, D.Retire, CheckArrives, Serve, History;
    FairReads(net);
    BagOk(net, p);
    match p
    case Data(m) => DataKeepsFair(net, m);
    case Ack(id) => AckKeepsFair(net, id);
    case Check(id) => CheckKeepsFair(net, id, rule);
    case Resend(id, deps, chunk, end) =>
      if Sending(net, id) {
        ResendKeepsFair(net, p);
      }
  }

  lemma FreshIrobsOk(data: seq<byte>)
    ensures S.Valid(S.NewSending()) && S.Bytes(S.NewSending()) == []
    ensures var st := S.EndApp(S.AddApp(S.NewSending(), data));
            S.Valid(st) && S.Bytes(st) == data
  {
    S.NewSendingValid();
    S.AddAppKeeps(S.NewSending(), data);
    S.EndAppKeeps(S.AddApp(S.NewSending(), data));
    assert S.AppData([]) == [];
    assert [] + data == data;
  }

  lemma ActKeepsFair(net: Net, a: Action, rule: Rule)
    requires Fair(net) && Enabled(net, a)
    ensures SameIds(net) && R.Matched(net.world.s) && R.CanRead(net.world.s) && Fair(Act(net, a, rule))
  {
    hide Fair, SenderOk, ReceiverOk, BagFair, D.Acceptable, Undeliverable, D.Begin, D.Abandon, S.AddApp, S.EndApp,
         S.GetReady, Closed, R.Read, R.CanRead, R.NonEmptySends, ResendPackets, Arrive, S.NewSending, S.Bytes, S.Valid,
         History, PacketFair;
    FairReads(net);
    match a
    case AppBegin(id, deps, ondemand) =>
      FreshIrobsOk([]);
      NotEnded();
      BeginKeepsFair(net, NewEntry(id, deps, false, ondemand), Outgoing(ondemand, S.NewSending()));
    case AppSend(id, data, ondemand) =>
      FreshIrobsOk(data);
      BeginKeepsFair(net, NewEntry(id, {}, true, ondemand), Outgoing(ondemand, S.EndApp(S.AddApp(S.NewSending(), data))));
    case AppWrite(id, data) => AppendKeepsFair(net, id, data);
    case AppEnd(id) => EndKeepsFair(net, id);
    case AppDrop(id) => DropKeepsFair(net, id);
    case GoRedundant(id) => RedundantKeepsFair(net, id);
    case EmitBegin(id) => EmitBeginFair(net, id);
    case EmitChunk(id, csock, requested) => ChunkKeepsFair(net, id, csock, requested);
    case EmitEnd(id) => EmitEndFair(net, id);
    case EmitCheck(id) =>
      CheckPacket(net, id);
      PostKeepsFair(net, Check(id));
    case EmitAck(id) => EmitAckFair(net, id);
    case EmitResend(id) => EmitResendFair(net, id);
    case Deliver(p) => ArriveKeepsFair(net, p, rule);
    case AppRead(n) => ReadKeepsFair(net, n);
  }

  lemma CheckPacket(net: Net, id: int)
    requires SameIds(net) && id in net.irobs
    ensures PacketFair(net, Check(id))
  {
  }

  lemma NotEnded()
    ensures !S.NewSending().complete
  {
  }

  /** One action, if it can be taken. */
  ghost function Try(net: Net, a: Action, rule: Rule): Net {
    if SameIds(net) && R.Matched(net.world.s) && R.CanRead(net.world.s) && Enabled(net, a) then Act(net, a, rule) else net
  }

  lemma TryKeepsFair(net: Net, a: Action, rule: Rule)
    requires Fair(net)
    ensures Fair(Try(net, a, rule))
    ensures Enabled(net, a) ==> SameIds(net) && R.Matched(net.world.s) && R.CanRead(net.world.s)
                                && Try(net, a, rule) == Act(net, a, rule)
  {
    hide Fair, Enabled, Act, R.Matched, R.CanRead;
    if Enabled(net, a) {
      ActKeepsFair(net, a, rule);
    }
  }

  // ----- Acknowledgements -----

  /** What has arrived stays so, whatever the step. */
  lemma ActKeepsArrived(net: Net, a: Action, rule: Rule, k: int)
    requires Fair(net) && Enabled(net, a) && V.AllArrived(net.world.s, k)
    requires SameIds(net) && R.Matched(net.world.s) && R.CanRead(net.world.s)
    ensures V.AllArrived(Act(net, a, rule).world.s, k)
  {
    hide R.InvBut, V.LogOk, D.Sound, S.Valid, S.GetReady, R.Read, R.Handle, ResendPackets, D.Begin, D.Retire, D.Abandon,
         S.AddApp, S.EndApp, Undeliverable, D.Acceptable, Closed, S.Bytes, Serve, V.AllArrived, Arrive;
    if a.AppRead? {
      FairReads(net);
      ReadKeepsArrived(net.world, History(net), a.n, k);
    } else if a.Deliver? && a.p.Data? {
      assert PacketFair(net, a.p);
      DataArrives(net, a.p.m, rule);
      HandleKeepsArrived(net.world.s, History(net), a.p.m, k);
    } else if a.Deliver? {
      OtherArrives(net, a.p, rule);
      SameArrivals(net.world.s, Act(net, a, rule).world.s, k);
    } else {
      SameArrivals(net.world.s, Act(net, a, rule).world.s, k);
    }
  }

  lemma DataArrives(net: Net, m: R.Msg, rule: Rule)
    requires R.Matched(net.world.s)
    ensures Arrive(net, Data(m), rule) == net.(world := net.world.(s := R.Handle(net.world.s, m)))
  {
    hide R.Handle;
  }

  /** Messages that are not data leave the receiver as it is, but for what it is to acknowledge. */
  lemma OtherArrives(net: Net, p: Packet, rule: Rule)
    requires R.Matched(net.world.s) && !p.Data?
    ensures var next := Arrive(net, p, rule);
            && next.world.s == net.world.s.(acks := next.world.s.acks)
            && (next.world.s.acks == net.world.s.acks
                || (p.Check? && CheckAcks(net.world.s, p.id, rule) && next.world.s.acks == net.world.s.acks + {p.id}))
            && next.bag == net.bag && (next.acked == net.acked || (p.Ack? && next.acked == net.acked + {p.id}))
  {
    hide D.Retire, Serve, CheckAcks, R.Matched;
  }

  lemma SameArrivals(s: R.Recv, t: R.Recv, k: int)
    requires t == s.(acks := t.acks)
    ensures V.AllArrived(s, k) == V.AllArrived(t, k)
  {
  }

  /** A data check that reaches a trapped IROB schedules an acknowledgement for it. */
  lemma TrappedCheckAcks(net: Net, id: int)
    requires Fair(net) && Trapped(net.world.s, id)
    ensures R.Matched(net.world.s)
    ensures var next := CheckArrives(net, id, AsWritten);
            next == net.(world := next.world) && next.world.s == net.world.s.(acks := next.world.s.acks)
            && id in next.world.s.acks && !V.AllArrived(next.world.s, id)
  {
    hide R.InvBut, D.Sound, PacketFair, S.Valid;
    R.InvFacts(net.world.s, History(net));
    CheckUnsoundIff(net.world.s, History(net), id, AsWritten);
  }

  /** And the acknowledgement makes the sender give up its only copy. */
  lemma AckErases(net: Net, id: int, rule: Rule)
    requires Sending(net, id) && net.irobs[id].st.complete && R.Matched(net.world.s)
    ensures var next := Arrive(net, Ack(id), rule);
            id in next.acked && id !in next.track.lattice.live && next.world == net.world
  {
  }

  /** With the rule as written, a data check must not reach a trapped IROB. */
  ghost predicate Safe(net: Net, a: Action, rule: Rule) {
    rule.AsWritten? && a.Deliver? && a.p.Check? && a.p in net.bag ==> !Trapped(net.world.s, a.p.id)
  }

  /** What is newly acknowledged in a step. */
  lemma NewlyAcknowledged(net: Net, a: Action, rule: Rule, k: int)
    requires Fair(net) && Enabled(net, a) && !Acknowledged(net, k)
    requires SameIds(net) && R.Matched(net.world.s) && R.CanRead(net.world.s)
    requires Acknowledged(Act(net, a, rule), k)
    ensures V.AllArrived(Act(net, a, rule).world.s, k)
            || (a == Deliver(Check(k)) && CheckAcks(net.world.s, k, rule) && !V.AllArrived(net.world.s, k))
  {
    hide R.InvBut, V.LogOk, D.Sound, S.Valid, S.GetReady, R.Read, R.Handle, ResendPackets, D.Begin, D.Retire, D.Abandon,
         S.AddApp, S.EndApp, Undeliverable, D.Acceptable, Closed, S.Bytes, Serve, V.AllArrived, Arrive, CheckAcks;
    if a.AppRead? {
      FairReads(net);
      ReadKeepsArrived(net.world, History(net), a.n, k);
    } else if a.Deliver? && a.p.Data? {
      assert PacketFair(net, a.p);
      DataArrives(net, a.p.m, rule);
      HandleKeepsArrived(net.world.s, History(net), a.p.m, k);
    } else if a.Deliver? {
      OtherArrives(net, a.p, rule);
      SameArrivals(net.world.s, Act(net, a, rule).world.s, k);
    } else if a.EmitResend? {
      forall p | p in ResendPackets(net.world.s, a.id, net.wanted[a.id])
        ensures p.Resend?
      {
        RequestShape(net.world.s, a.id, net.wanted[a.id], p);
      }
    }
  }

  /** A step keeps acknowledgements sound exactly when it is not such a check. */
  lemma StepKeepsAcksIff(net: Net, a: Action, rule: Rule)
    requires Good(net)
    ensures AcksHold(Try(net, a, rule)) <==> Safe(net, a, rule)
  {
    hide Fair, Enabled, Act, R.Matched, R.CanRead, V.AllArrived, Trapped, Acknowledged;
    TryKeepsFair(net, a, rule);
    if Enabled(net, a) {
      forall k | V.AllArrived(net.world.s, k)
        ensures V.AllArrived(Act(net, a, rule).world.s, k)
      {
        ActKeepsArrived(net, a, rule, k);
      }
      forall k | Acknowledged(Act(net, a, rule), k) && !Acknowledged(net, k)
        ensures V.AllArrived(Act(net, a, rule).world.s, k) || !Safe(net, a, rule)
      {
        NewlyAcknowledged(net, a, rule, k);
        UnsoundChecks(net, a, rule, k);
      }
      if !Safe(net, a, rule) {
        UnsafeAcks(net, a, rule);
      }
    } else {
      NotEnabledSafe(net, a, rule);
    }
  }

  lemma UnsafeAcks(net: Net, a: Action, rule: Rule)
    requires Fair(net) && Enabled(net, a) && !Safe(net, a, rule)
    requires SameIds(net) && R.Matched(net.world.s) && R.CanRead(net.world.s)
    ensures !AcksHold(Act(net, a, rule))
  {
    hide Fair, R.Matched, R.CanRead, V.AllArrived, Trapped, CheckArrives;
    TrappedCheckAcks(net, a.p.id);
    assert Acknowledged(Act(net, a, rule), a.p.id);
  }

  lemma NotEnabledSafe(net: Net, a: Action, rule: Rule)
    requires !Enabled(net, a)
    ensures Safe(net, a, rule)
  {
  }

  lemma UnsoundChecks(net: Net, a: Action, rule: Rule, k: int)
    requires Fair(net) && Enabled(net, a) && R.Matched(net.world.s)
    ensures a == Deliver(Check(k)) && CheckAcks(net.world.s, k, rule) && !V.AllArrived(net.world.s, k) ==>
              !Safe(net, a, rule)
  {
    hide R.InvBut, V.LogOk, D.Sound, S.Valid, V.AllArrived, CheckAcks, Trapped;
    CheckUnsoundIff(net.world.s, History(net), k, rule);
  }

  // ----- Runs -----

  /** Actions that are not enabled are skipped. */
  ghost function From(net: Net, acts: seq<Action>, rule: Rule): Net {
    if acts == [] then net else Try(From(net, acts[..|acts| - 1], rule), acts[|acts| - 1], rule)
  }

  ghost function Run(acts: seq<Action>, rule: Rule): Net {
    From(NewNet(), acts, rule)
  }

  lemma {:induction false} FromFair(net: Net, acts: seq<Action>, rule: Rule)
    requires Fair(net)
    ensures Fair(From(net, acts, rule))
  {
    hide Fair, Try;
    if acts != [] {
      FromFair(net, acts[..|acts| - 1], rule);
      TryKeepsFair(From(net, acts[..|acts| - 1], rule), acts[|acts| - 1], rule);
    }
  }

  /** The invariant of sender, bag and receiver holds over every run, under either rule. */
  lemma RunFair(acts: seq<Action>, rule: Rule)
    ensures Fair(Run(acts, rule))
  {
    hide Fair, From, NewNet;
    NewNetFair();
    FromFair(NewNet(), acts, rule);
  }

  lemma FromNext(net: Net, acts: seq<Action>, rule: Rule, k: nat)
    requires k < |acts|
    ensures From(net, acts[..k + 1], rule) == Try(From(net, acts[..k], rule), acts[k], rule)
  {
    hide Try;
    assert acts[..k + 1][..k] == acts[..k];
  }

  lemma {:induction false} FromAppend(net: Net, a: seq<Action>, b: seq<Action>, rule: Rule)
    ensures From(net, a + b, rule) == From(From(net, a, rule), b, rule)
    decreases |b|
  {
    hide Try;
    if b == [] {
      assert a + b == a;
    } else {
      assert (a + b)[..|a + b| - 1] == a + b[..|b| - 1];
      FromAppend(net, a, b[..|b| - 1], rule);
    }
  }

  /** No data check reaches a trapped IROB. */
  ghost predicate SafeRun(acts: seq<Action>, rule: Rule) {
    acts == [] || (SafeRun(acts[..|acts| - 1], rule) && Safe(Run(acts[..|acts| - 1], rule), acts[|acts| - 1], rule))
  }

  /** At no point is anything acknowledged that has not fully arrived. */
  ghost predicate AcksAlwaysHold(acts: seq<Action>, rule: Rule) {
    AcksHold(Run(acts, rule)) && (acts == [] || AcksAlwaysHold(acts[..|acts| - 1], rule))
  }

  /** Over every run, under either rule: acknowledgements are sound throughout exactly when no
      data check reaches a trapped IROB - and under the documented rule none matters. */
  lemma {:induction false} AcksSoundIff(acts: seq<Action>, rule: Rule)
    ensures AcksAlwaysHold(acts, rule) <==> SafeRun(acts, rule)
    ensures rule.AsDocumented? ==> SafeRun(acts, rule)
  {
    hide Fair, Safe, Try, AcksHold, NewNet;
    if acts == [] {
      NothingAcknowledged();
    } else {
      var before := acts[..|acts| - 1];
      AcksSoundIff(before, rule);
      RunFair(before, rule);
      DocumentedSafe(Run(before, rule), acts[|acts| - 1], rule);
      if SafeRun(before, rule) {
        SoundNow(before, rule);
        StepKeepsAcksIff(Run(before, rule), acts[|acts| - 1], rule);
      }
    }
  }

  lemma SoundNow(acts: seq<Action>, rule: Rule)
    requires AcksAlwaysHold(acts, rule)
    ensures AcksHold(Run(acts, rule))
  {
  }

  lemma DocumentedSafe(net: Net, a: Action, rule: Rule)
    ensures rule.AsDocumented? ==> Safe(net, a, rule)
  {
  }

  lemma NothingAcknowledged()
    ensures AcksHold(NewNet())
  {
  }

  lemma RunGood(acts: seq<Action>, rule: Rule)
    requires rule.AsDocumented? || SafeRun(acts, rule)
    ensures Good(Run(acts, rule))
  {
    hide Fair, AcksHold, Run, SafeRun;
    RunFair(acts, rule);
    AcksSoundIff(acts, rule);
    SoundNow(acts, rule);
  }

  /** The receiver has passed on every byte of `id`, or holds exactly those it has not. */
  ghost predicate Held(net: Net, id: int) {
    var w := net.world;
    && SameIds(net) && id in net.irobs && net.irobs[id].st.complete && V.AllArrived(w.s, id)
    && (|| id in w.delivered
        || (w.s.reading != Some(id) && id in w.s.bodies && Unread(w.s.bodies[id]) == S.Bytes(net.irobs[id].st))
        || (w.s.reading == Some(id) && id in w.s.bodies
            && V.PartialPrefix(w, History(net)) + Unread(w.s.bodies[id]) == S.Bytes(net.irobs[id].st)))
  }

  lemma ArrivedHeld(net: Net, id: int)
    requires Fair(net) && V.AllArrived(net.world.s, id)
    ensures Held(net, id)
  {
    hide D.Sound, S.Valid, S.Bytes, S.Pieces, BagFair, S.AllBytesChunked;
    var h, w := History(net), net.world;
    ArrivedMeans(w.s, h, id);
    assert IrobOk(net.irobs[id]);
    S.PiecesPartition(net.irobs[id].st);
    hide R.InvBut, Draining;
    assert id in Elements(w.delivered) <==> id in w.delivered;
    if w.s.reading == Some(id) && id !in w.s.lattice.past {
      PrefixAndRest(w, h, id);
    }
  }

  lemma PrefixAndRest(w: R.World, h: R.Sends, k: int)
    requires w.s.reading == Some(k) && k in h && k in w.s.bodies && Draining(w.s.bodies[k], h[k].pieces)
    ensures V.PartialPrefix(w, h) + Unread(w.s.bodies[k]) == R.Content(h, k)
  {
    var all, left := R.Content(h, k), w.s.bodies[k].numBytes;
    hide Unread;
    assert all[..|all| - left] + all[|all| - left..] == all;
  }

  /** Whenever the sender has given up its copy because of an acknowledgement, the IROB was
      finished and the receiver has passed on all its bytes or still holds what it has not. */
  lemma AckSoundness(acts: seq<Action>, rule: Rule, id: int)
    requires rule.AsDocumented? || SafeRun(acts, rule)
    ensures var net := Run(acts, rule);
            Acknowledged(net, id) ==> Held(net, id)
  {
    hide Run, SafeRun, Fair, Held, V.AllArrived;
    RunGood(acts, rule);
    if Acknowledged(Run(acts, rule), id) {
      ArrivedHeld(Run(acts, rule), id);
    }
  }

  // ----- What is given up too early -----

  /** The sender has given up an IROB that it had not wholly cut. */
  predicate GivenUp(net: Net, k: int) {
    k in net.irobs && k !in net.track.lattice.live && !Closed(net.irobs[k].st)
  }

  lemma StaysGivenUp(net: Net, a: Action, rule: Rule, k: int)
    requires Fair(net) && GivenUp(net, k)
    ensures GivenUp(Try(net, a, rule), k)
  {
    hide R.Handle, R.Read, R.CanRead, R.Matched, ReceiverOk, BagFair, S.GetReady, S.AddApp, S.EndApp, Closed, CheckArrives,
         ResendPackets, Serve, Undeliverable, S.Bytes, IrobOk, D.Undominated, D.Dominating, D.AnonymousOrdered,
         L.CorrectDeps, L.Closure;
    if a.Deliver? && a.p.Check? && R.Matched(net.world.s) {
      OtherArrives(net, a.p, rule);
      CheckLeavesSender(net, a.p.id, rule);
    }
  }

  lemma CheckLeavesSender(net: Net, id: int, rule: Rule)
    requires R.Matched(net.world.s)
    ensures var next := CheckArrives(net, id, rule);
            next.track == net.track && next.acked == net.acked && next.irobs == net.irobs
  {
    hide CheckAcks, CheckResult;
  }

  /** Then it never fully arrives, whatever happens next. */
  lemma {:induction false} GivenUpForever(net: Net, acts: seq<Action>, rule: Rule, k: int)
    requires Fair(net) && GivenUp(net, k)
    ensures var next := From(net, acts, rule);
            GivenUp(next, k) && !V.AllArrived(next.world.s, k)
  {
    hide GivenUp, Try, V.AllArrived;
    if acts == [] {
      NotArrived(net, k);
    } else {
      var before := acts[..|acts| - 1];
      GivenUpForever(net, before, rule, k);
      FromFair(net, before, rule);
      FromFair(net, acts, rule);
      hide Fair;
      StaysGivenUp(From(net, before, rule), acts[|acts| - 1], rule, k);
      NotArrived(From(net, acts, rule), k);
    }
  }

  lemma NotArrived(net: Net, k: int)
    requires Fair(net) && GivenUp(net, k)
    ensures !V.AllArrived(net.world.s, k)
  {
    hide D.Sound, R.InvBut, V.AllArrived, Closed, IrobOk, V.LogOk;
    if V.AllArrived(net.world.s, k) {
      ArrivedMeans(net.world.s, History(net), k);
    }
  }
}
