/** Repair as it happens: a request for what is missing, served and answered among any other
    steps of sender, links and receiver, completes the IROB. */
module RepairRuns {
  import opened Sequences
  import L = Lattice
  import D = Dominators
  import opened ReceiverIrob
  import S = SenderIrob
  import R = Receiver
  import V = Delivery
  import opened Protocol
  import opened Repair
  import Y = Reliability

  // ----- What no step changes -----

  /** The whole IROB is cut: `o` is what the receiver is to get. */
  ghost predicate Whole(net: Net, id: int, o: R.Sent) {
    SameIds(net) && id in net.irobs && Closed(net.irobs[id].st) && History(net)[id] == o
  }

  lemma ReadyKeepsPieces(st: S.Sending, csock: nat, requested: nat)
    requires S.Valid(st) && Closed(st)
    ensures var r := S.GetReady(st, csock, requested);
            Closed(r.st) && S.Pieces(r.st) == S.Pieces(st)
  {
    hide S.Valid, S.GetReady, Closed, S.Pieces, S.Bytes;
    S.GetReadyHandsOutPieces(st, csock, requested);
    ClosedStays(st, S.GetReady(st, csock, requested));
  }

  lemma RedundantKeepsPieces(st: S.Sending)
    ensures Closed(st.(onAll := true)) == Closed(st) && S.Pieces(st.(onAll := true)) == S.Pieces(st)
  {
  }

  lemma ActKeepsWhole(net: Net, a: Action, rule: Rule, id: int, o: R.Sent)
    requires Fair(net) && Enabled(net, a) && Whole(net, id, o)
    requires R.Matched(net.world.s) && R.CanRead(net.world.s) && Fair(Act(net, a, rule))
    ensures Whole(Act(net, a, rule), id, o)
  {
    hide R.Handle, R.Read, R.CanRead, R.Matched, ReceiverOk, S.Valid, S.GetReady, S.AddApp, S.EndApp, Closed, S.Pieces,
         CheckArrives, ResendPackets, Serve, Undeliverable, S.Bytes, D.Sound, D.Begin, D.Retire, D.Abandon, D.Acceptable,
         PacketFair;
    assert IrobOk(net.irobs[id]);
    assert net.irobs[id].st.complete by { CompleteWhenClosed(net.irobs[id].st); }
    if a.AppBegin? || a.AppSend? {
      var r := if a.AppBegin? then NewEntry(a.id, a.deps, false, a.ondemand) else NewEntry(a.id, {}, true, a.ondemand);
      NewId(net, r);
      BeginDeps(net.track, r);
    } else if a.AppDrop? {
      RetireDeps(net.track, a.id);
    } else if a.EmitChunk? && a.id == id {
      ReadyKeepsPieces(net.irobs[id].st, a.csock, a.requested);
    } else if a.GoRedundant? {
      RedundantKeepsPieces(net.irobs[id].st);
    } else if a.Deliver? && a.p.Resend? && a.p.id == id {
      BagOk(net, a.p);
      ServedKeepsPieces(net, a.p);
    } else if a.Deliver? && a.p.Ack? {
      RetireDeps(net.track, a.p.id);
    } else if a.Deliver? && a.p.Check? {
      CheckLeavesSender(net, a.p.id, rule);
    }
  }

  lemma CompleteWhenClosed(st: S.Sending)
    requires Closed(st)
    ensures st.complete
  {
  }

  lemma ServedKeepsPieces(net: Net, p: Packet)
    requires SameIds(net) && PacketFair(net, p) && p.Resend? && p.id in net.irobs && S.Valid(net.irobs[p.id].st)
    ensures var st := net.irobs[p.id].st;
            Closed(Serve(st, p)) == Closed(st) && S.Pieces(Serve(st, p)) == S.Pieces(st)
  {
    hide S.Valid, S.Pieces, Closed, Serve;
    ServeKeeps(net.irobs[p.id].st, p);
  }

  /** What the sender has given up does not come back. */
  lemma TryKeepsGone(net: Net, a: Action, rule: Rule, id: int)
    requires Fair(net) && id in net.irobs && Sending(Try(net, a, rule), id)
    ensures Sending(net, id)
  {
    hide R.Handle, R.Read, R.CanRead, R.Matched, ReceiverOk, BagFair, S.GetReady, S.AddApp, S.EndApp, Closed, CheckArrives,
         ResendPackets, Serve, Undeliverable, S.Bytes, IrobOk, D.Undominated, D.Dominating, D.AnonymousOrdered,
         L.CorrectDeps, L.Closure;
    if a.Deliver? && a.p.Check? && R.Matched(net.world.s) {
      OtherArrives(net, a.p, rule);
      CheckLeavesSender(net, a.p.id, rule);
    }
  }

  lemma TryKeepsBag(net: Net, a: Action, rule: Rule)
    ensures net.bag <= Try(net, a, rule).bag
  {
    hide R.Handle, R.Read, R.CanRead, R.Matched, Enabled, S.GetReady, S.AddApp, S.EndApp, Closed, CheckArrives,
         ResendPackets, Serve, S.Bytes, D.Begin, D.Retire, D.Abandon, Arrive;
    if a.Deliver? && R.Matched(net.world.s) && !a.p.Data? {
      OtherArrives(net, a.p, rule);
    } else if a.Deliver? && R.Matched(net.world.s) {
      DataArrives(net, a.p.m, rule);
    }
  }

  lemma TryKeepsWhole(net: Net, a: Action, rule: Rule, id: int, o: R.Sent)
    requires Fair(net) && Whole(net, id, o)
    ensures Whole(Try(net, a, rule), id, o)
  {
    hide Fair, Enabled, Act, R.Matched, R.CanRead, Whole;
    if Enabled(net, a) {
      TryKeepsFair(net, a, rule);
      ActKeepsWhole(net, a, rule, id, o);
    }
  }

  lemma {:induction false} FromKeepsWhole(net: Net, acts: seq<Action>, rule: Rule, id: int, o: R.Sent)
    requires Fair(net) && Whole(net, id, o)
    ensures var end := From(net, acts, rule);
            Fair(end) && Whole(end, id, o) && net.bag <= end.bag
    ensures Sending(From(net, acts, rule), id) ==> Sending(net, id)
  {
    hide Fair, Whole, Try;
    FromFair(net, acts, rule);
    if acts != [] {
      var mid := From(net, acts[..|acts| - 1], rule);
      FromKeepsWhole(net, acts[..|acts| - 1], rule, id, o);
      TryKeepsWhole(mid, acts[|acts| - 1], rule, id, o);
      TryKeepsBag(mid, acts[|acts| - 1], rule);
      WholeKnown(mid, id, o);
      if Sending(From(net, acts, rule), id) {
        TryKeepsGone(mid, acts[|acts| - 1], rule, id);
      }
    }
  }

  lemma WholeKnown(net: Net, id: int, o: R.Sent)
    requires Whole(net, id, o)
    ensures id in net.irobs && Closed(net.irobs[id].st) && o.closed && |o.pieces| == |net.irobs[id].st.sent|
    ensures o.pieces == S.Pieces(net.irobs[id].st)
  {
    SentPieces(net.irobs[id].st);
  }

  /** A run in two parts. */
  lemma FromSplit(net: Net, acts: seq<Action>, rule: Rule, i: nat)
    requires i <= |acts|
    ensures From(net, acts, rule) == From(From(net, acts[..i], rule), acts[i..], rule)
  {
    hide From;
    assert acts == acts[..i] + acts[i..];
    FromAppend(net, acts[..i], acts[i..], rule);
  }

  // ----- What is sent and what is marked -----

  /** The step sends the message `m`. */
  ghost predicate Sends(net: Net, a: Action, m: R.Msg) {
    Enabled(net, a) &&
    match a
    case EmitBegin(id) => m == R.BeginMsg(id, net.track.deps[id], net.irobs[id].ondemand)
    case EmitChunk(id, csock, requested) =>
      var r := S.GetReady(net.irobs[id].st, csock, requested);
      r.length > 0 && m == R.ChunkMsg(id, Incoming(r.seqno, r.offset, Some(r.data)))
    case EmitEnd(id) => m == R.EndMsg(id, |S.Bytes(net.irobs[id].st)|, |net.irobs[id].st.sent|)
    case _ => false
  }

  lemma SentIsInFlight(net: Net, a: Action, m: R.Msg, rule: Rule)
    requires Fair(net) && Sends(net, a, m)
    ensures Data(m) in Try(net, a, rule).bag
  {
    hide Fair, R.Matched, R.CanRead, S.GetReady, S.Bytes, Closed;
    TryKeepsFair(net, a, rule);
  }

  /** No step but sending a piece takes marks away. */
  lemma OthersKeepMarks(net: Net, a: Action, rule: Rule, id: int)
    requires Fair(net) && Sending(net, id) && Closed(net.irobs[id].st) && !(a.EmitChunk? && a.id == id)
    ensures var next := Try(net, a, rule);
            id in next.irobs ==> net.irobs[id].st.resend <= next.irobs[id].st.resend
  {
    hide R.Handle, R.Read, R.CanRead, R.Matched, ReceiverOk, BagFair, S.Valid, S.GetReady, S.Pieces, CheckArrives,
         ResendPackets, Undeliverable, S.Bytes, D.Sound, D.Begin, D.Retire, D.Abandon, D.Acceptable, S.AddApp, S.EndApp;
    if (a.AppBegin? || a.AppSend?) && Enabled(net, a) {
      NewId(net, if a.AppBegin? then NewEntry(a.id, a.deps, false, a.ondemand) else NewEntry(a.id, {}, true, a.ondemand));
    } else if a.Deliver? && a.p.Check? && R.Matched(net.world.s) {
      CheckLeavesSender(net, a.p.id, rule);
    }
  }

  lemma PieceSent(net: Net, id: int, csock: nat, requested: nat, rule: Rule, o: R.Sent)
    requires Fair(net) && Whole(net, id, o) && Sending(net, id) && net.irobs[id].st.resend != {}
    ensures var r := S.GetReady(net.irobs[id].st, csock, requested);
            && r.length > 0 && r.seqno < |o.pieces| && r.st.resend == net.irobs[id].st.resend - {r.seqno}
            && Incoming(r.seqno, r.offset, Some(r.data)) == PieceMessage(o.pieces, r.seqno)
            && Try(net, EmitChunk(id, csock, requested), rule).irobs == net.irobs[id := net.irobs[id].(st := r.st)]
  {
    hide R.CanRead, R.Matched, ReceiverOk, BagFair, S.Valid, S.GetReady, Closed, S.Pieces, S.Bytes, D.Sound;
    var st := net.irobs[id].st;
    assert IrobOk(net.irobs[id]);
    WholeKnown(net, id, o);
    S.ReadyResend(st, csock, requested);
    S.PiecesPartition(st);
    TryKeepsFair(net, EmitChunk(id, csock, requested), rule);
  }

  /** A mark goes only when its piece is sent. */
  lemma UnmarkedIsSent(net: Net, a: Action, rule: Rule, id: int, o: R.Sent, i: nat)
    requires Fair(net) && Whole(net, id, o) && Sending(net, id) && i in net.irobs[id].st.resend
    requires var next := Try(net, a, rule); id in next.irobs && i !in next.irobs[id].st.resend
    ensures i < |o.pieces| && Sends(net, a, R.ChunkMsg(id, PieceMessage(o.pieces, i)))
  {
    hide Fair, Try, S.GetReady, Closed, S.Pieces;
    if a.EmitChunk? && a.id == id {
      PieceSent(net, id, a.csock, a.requested, rule, o);
    } else {
      OthersKeepMarks(net, a, rule, id);
    }
  }

  /** A request served marks what it names. */
  lemma ServedIsMarked(net: Net, p: Packet, rule: Rule, o: R.Sent, i: nat)
    requires Fair(net) && p in net.bag && p.Resend? && Whole(net, p.id, o) && Sending(net, p.id)
    requires i < |o.pieces| && (p.chunk == Some(i) || (p.end.Some? && p.end.value <= i))
    ensures var next := Try(net, Deliver(p), rule);
            p.id in next.irobs && i in next.irobs[p.id].st.resend
  {
    hide Fair, R.Matched, R.CanRead, Closed, S.Pieces, Whole;
    WholeKnown(net, p.id, o);
    TryKeepsFair(net, Deliver(p), rule);
  }

  lemma {:induction false} UnmarkedWasSent(net: Net, acts: seq<Action>, rule: Rule, id: int, o: R.Sent, i: nat)
    returns (k: nat)
    requires Fair(net) && Whole(net, id, o) && i in net.irobs[id].st.resend
    requires var end := From(net, acts, rule);
             Sending(end, id) && i !in end.irobs[id].st.resend
    ensures k < |acts| && i < |o.pieces|
            && Sends(From(net, acts[..k], rule), acts[k], R.ChunkMsg(id, PieceMessage(o.pieces, i)))
  {
    hide Fair, Try, Sends, Closed;
    if acts == [] {
      assert false;
    }
    var before := acts[..|acts| - 1];
    var mid := From(net, before, rule);
    FromKeepsWhole(net, before, rule, id, o);
    WholeKnown(mid, id, o);
    TryKeepsGone(mid, acts[|acts| - 1], rule, id);
    if i in mid.irobs[id].st.resend {
      UnmarkedIsSent(mid, acts[|acts| - 1], rule, id, o, i);
      k := |acts| - 1;
    } else {
      k := UnmarkedWasSent(net, before, rule, id, o, i);
      assert before[..k] == acts[..k];
    }
  }

  // ----- A round of repair -----

  /** Some step from the `i`th on is `a`. */
  predicate Later(acts: seq<Action>, i: nat, a: Action) {
    exists j :: i <= j < |acts| && acts[j] == a
  }

  predicate DeliveredFrom(acts: seq<Action>, i: nat, p: Packet) {
    Later(acts, i, Deliver(p))
  }

  /** The sender does what the requests that reach it say of the Begin and the End. */
  predicate Obliged(acts: seq<Action>, id: int) {
    forall i :: 0 <= i < |acts| && acts[i].Deliver? && acts[i].p.Resend? && acts[i].p.id == id ==>
      && (acts[i].p.deps ==> Later(acts, i + 1, EmitBegin(id)))
      && (acts[i].p.end.Some? ==> Later(acts, i + 1, EmitEnd(id)))
  }

  lemma AskedBeginsAndEnds(acts: seq<Action>, id: int, p: Packet)
    requires Obliged(acts, id) && p.Resend? && p.id == id && DeliveredFrom(acts, 0, p)
    ensures p.deps ==> EmitBegin(id) in acts
    ensures p.end.Some? ==> EmitEnd(id) in acts
  {
    var i :| 0 <= i < |acts| && acts[i] == Deliver(p);
    assert acts[i].p == p;
  }

  /** What is sent for `id` is received afterwards. */
  ghost predicate SendsLand(net: Net, acts: seq<Action>, rule: Rule, id: int) {
    forall i, m :: 0 <= i < |acts| && Sends(From(net, acts[..i], rule), acts[i], m) && m.id == id ==>
      DeliveredFrom(acts, i + 1, Data(m))
  }

  lemma SentLands(net: Net, acts: seq<Action>, rule: Rule, i: nat, m: R.Msg)
    requires Fair(net) && i < |acts| && Sends(From(net, acts[..i], rule), acts[i], m)
    requires SendsLand(net, acts, rule, m.id)
    ensures V.Recorded(From(net, acts, rule).world.s, m)
  {
    hide Fair, From, Sends, V.Recorded;
    var j :| i + 1 <= j < |acts| && acts[j] == Deliver(Data(m));
    FromFair(net, acts[..i], rule);
    FromFair(net, acts[..i + 1], rule);
    FromNext(net, acts, rule, i);
    SentIsInFlight(From(net, acts[..i], rule), acts[i], m, rule);
    FromKeepsBag(net, acts, rule, i + 1, j);
    Y.LandedRecorded(net, acts, rule, m);
  }

  lemma {:induction false} FromKeepsBag(net: Net, acts: seq<Action>, rule: Rule, i: nat, j: nat)
    requires i <= j <= |acts|
    ensures From(net, acts[..i], rule).bag <= From(net, acts[..j], rule).bag
    decreases j
  {
    hide From;
    if i < j {
      FromKeepsBag(net, acts, rule, i, j - 1);
      FromNext(net, acts, rule, j - 1);
      TryKeepsBag(From(net, acts[..j - 1], rule), acts[j - 1], rule);
    }
  }

  /** What a served request asks for is sent again, and lands. */
  lemma AskedLands(net: Net, acts: seq<Action>, rule: Rule, id: int, o: R.Sent, p: Packet, i: nat)
    requires Fair(net) && Whole(net, id, o) && p in net.bag && p.Resend? && p.id == id && DeliveredFrom(acts, 0, p)
    requires i < |o.pieces| && (p.chunk == Some(i) || (p.end.Some? && p.end.value <= i))
    requires var end := From(net, acts, rule);
             Sending(end, id) && end.irobs[id].st.resend == {}
    requires SendsLand(net, acts, rule, id)
    ensures V.Recorded(From(net, acts, rule).world.s, R.ChunkMsg(id, PieceMessage(o.pieces, i)))
  {
    hide Fair, From, Sends, V.Recorded, Whole, SendsLand;
    var j :| 0 <= j < |acts| && acts[j] == Deliver(p);
    var at, served := From(net, acts[..j], rule), From(net, acts[..j + 1], rule);
    FromNext(net, acts, rule, j);
    FromSplit(net, acts, rule, j + 1);
    FromKeepsWhole(net, acts[..j], rule, id, o);
    FromKeepsWhole(net, acts[..j + 1], rule, id, o);
    FromKeepsWhole(served, acts[j + 1..], rule, id, o);
    WholeKnown(at, id, o);
    TryKeepsGone(at, acts[j], rule, id);
    ServedIsMarked(at, p, rule, o, i);
    var k := UnmarkedWasSent(served, acts[j + 1..], rule, id, o, i);
    assert acts[j + 1..][..k] == acts[j + 1..j + 1 + k];
    assert acts[..j + 1 + k][..j + 1] == acts[..j + 1] && acts[..j + 1 + k][j + 1..] == acts[j + 1..j + 1 + k];
    FromSplit(net, acts[..j + 1 + k], rule, j + 1);
    SentLands(net, acts, rule, j + 1 + k, R.ChunkMsg(id, PieceMessage(o.pieces, i)));
  }

  /** A Begin or an End sent again lands. */
  lemma EndsLand(net: Net, acts: seq<Action>, rule: Rule, id: int, o: R.Sent)
    requires Fair(net) && Whole(net, id, o) && Sending(From(net, acts, rule), id) && SendsLand(net, acts, rule, id)
    ensures var s := From(net, acts, rule).world.s;
            && (EmitBegin(id) in acts ==> V.Recorded(s, R.BeginMsg(id, o.deps, o.ondemand)))
            && (EmitEnd(id) in acts ==> V.Recorded(s, R.EndMsg(id, |Concat(o.pieces)|, |o.pieces|)))
  {
    hide Fair, From, V.Recorded, SendsLand;
    if EmitBegin(id) in acts {
      var i :| 0 <= i < |acts| && acts[i] == EmitBegin(id);
      SendingThen(net, acts, rule, id, o, i);
      SentLands(net, acts, rule, i, R.BeginMsg(id, o.deps, o.ondemand));
    }
    if EmitEnd(id) in acts {
      var i :| 0 <= i < |acts| && acts[i] == EmitEnd(id);
      SendingThen(net, acts, rule, id, o, i);
      EndIs(From(net, acts[..i], rule), id, o);
      SentLands(net, acts, rule, i, R.EndMsg(id, |Concat(o.pieces)|, |o.pieces|));
    }
  }

  lemma SendingThen(net: Net, acts: seq<Action>, rule: Rule, id: int, o: R.Sent, i: nat)
    requires Fair(net) && Whole(net, id, o) && Sending(From(net, acts, rule), id) && i <= |acts|
    ensures var at := From(net, acts[..i], rule);
            Fair(at) && Whole(at, id, o) && Sending(at, id)
  {
    hide Fair, From, Whole;
    FromSplit(net, acts, rule, i);
    FromKeepsWhole(net, acts[..i], rule, id, o);
    FromKeepsWhole(From(net, acts[..i], rule), acts[i..], rule, id, o);
  }

  lemma EndIs(net: Net, id: int, o: R.Sent)
    requires Fair(net) && Whole(net, id, o)
    ensures |S.Bytes(net.irobs[id].st)| == |Concat(o.pieces)| && |net.irobs[id].st.sent| == |o.pieces|
  {
    hide S.Valid, S.Bytes, S.Pieces, D.Sound, ReceiverOk, BagFair;
    assert IrobOk(net.irobs[id]);
    S.PiecesPartition(net.irobs[id].st);
    WholeKnown(net, id, o);
  }

  ghost predicate Begun(s: R.Recv, id: int) {
    id in s.lattice.live && !s.lattice.live[id].placeholder
  }

  /** The waiting request asks for all that the receiver still lacks of what was cut. */
  ghost predicate AsksEnough(net: Net, id: int)
    requires R.Matched(net.world.s) && id in net.wanted && id in net.irobs
  {
    var s, w := net.world.s, net.wanted[id];
    || V.AllArrived(s, id)
    || (&& Covers(s, id, w, |net.irobs[id].st.sent|)
        && (w.deps || Begun(s, id)) && (w.end || SeenEnd(R.BodyOf(s, id))))
  }

  /** After the request went out: all its messages arrive; the Begin and the End that arriving
      messages ask for, and all pieces marked, are sent; and what is sent arrives. Anything else
      may happen in between. */
  ghost predicate Answered(net: Net, acts: seq<Action>, rule: Rule, id: int)
    requires R.Matched(net.world.s) && id in net.wanted
  {
    var w, asked := net.wanted[id], Try(net, EmitResend(id), rule);
    var end := From(asked, acts, rule);
    && (forall p :: p in ResendPackets(net.world.s, id, w) ==> DeliveredFrom(acts, 0, p))
    && Obliged(acts, id)
    && Sending(end, id) && end.irobs[id].st.resend == {} && SendsLand(asked, acts, rule, id)
  }

  lemma RequestOut(net: Net, rule: Rule, id: int, o: R.Sent)
    requires Fair(net) && id in net.wanted && Whole(net, id, o)
    ensures R.Matched(net.world.s)
    ensures var asked := Try(net, EmitResend(id), rule);
            && Fair(asked) && Whole(asked, id, o) && asked.world == net.world
            && forall p :: p in ResendPackets(net.world.s, id, net.wanted[id]) ==> p in asked.bag
  {
    hide Fair, R.Matched, R.CanRead, ResendPackets, Whole;
    TryKeepsFair(net, EmitResend(id), rule);
    TryKeepsWhole(net, EmitResend(id), rule, id, o);
  }

  lemma {:induction false} FromKeepsArrived(net: Net, acts: seq<Action>, rule: Rule, id: int)
    requires Fair(net) && V.AllArrived(net.world.s, id)
    ensures V.AllArrived(From(net, acts, rule).world.s, id)
  {
    hide Fair, V.AllArrived, Act, Enabled, R.Matched, R.CanRead;
    if acts != [] {
      var before := acts[..|acts| - 1];
      FromFair(net, before, rule);
      FromKeepsArrived(net, before, rule, id);
      var mid, a := From(net, before, rule), acts[|acts| - 1];
      TryKeepsFair(mid, a, rule);
      if Enabled(mid, a) {
        ActKeepsArrived(mid, a, rule, id);
      }
    }
  }

  /** Each message of the IROB was there, or is sent again and lands. */
  lemma ThereOrLands(net: Net, acts: seq<Action>, rule: Rule, id: int, o: R.Sent, m: R.Msg)
    requires Fair(net) && id in net.wanted && Whole(net, id, o) && R.Matched(net.world.s)
    requires AsksEnough(net, id) && !V.AllArrived(net.world.s, id) && Answered(net, acts, rule, id)
    requires m.id == id && R.FromSender(map[id := o], m)
    ensures V.Recorded(net.world.s, m) || V.Recorded(From(Try(net, EmitResend(id), rule), acts, rule).world.s, m)
  {
    hide Fair, From, Try, Missing, ResendPackets, SendsLand, Closed, S.Pieces, V.AllArrived;
    var s, w := net.world.s, net.wanted[id];
    WholeKnown(net, id, o);
    RequestOut(net, rule, id, o);
    var asked := Try(net, EmitResend(id), rule);
    match m
    case BeginMsg(_, _, _) =>
      EndsLand(asked, acts, rule, id, o);
      if w.deps {
        RequestsBegin(s, id, w);
        var p :| p in ResendPackets(s, id, w) && p.Resend? && p.deps;
        RequestShape(s, id, w, p);
        AskedBeginsAndEnds(acts, id, p);
      }
    case EndMsg(_, _, _) =>
      EndsLand(asked, acts, rule, id, o);
      if w.end {
        RequestsEnd(s, id, w);
        var p :| p in ResendPackets(s, id, w) && p.Resend? && p.end == Some(|R.BodyOf(s, id).chunks|);
        RequestShape(s, id, w, p);
        AskedBeginsAndEnds(acts, id, p);
      }
    case ChunkMsg(_, c) =>
      if Lacks(s, id, c.seqno) {
        assert Asks(s, id, w, |o.pieces|, c.seqno);
        if c.seqno in MissingOf(s, id, w) {
          RequestsName(s, id, w, c.seqno);
          var p :| p in ResendPackets(s, id, w) && p.Resend? && p.chunk == Some(c.seqno);
          RequestShape(s, id, w, p);
          AskedLands(asked, acts, rule, id, o, p, c.seqno);
        } else {
          RequestsEnd(s, id, w);
          var p :| p in ResendPackets(s, id, w) && p.Resend? && p.end == Some(|R.BodyOf(s, id).chunks|);
          RequestShape(s, id, w, p);
          AskedLands(asked, acts, rule, id, o, p, c.seqno);
        }
      }
  }

  /** From any state of the system, under either rule: a request that asks for enough, once it is
      answered, completes the IROB - whatever was lost before, and whatever else happens. */
  lemma RequestCompletes(net: Net, acts: seq<Action>, rule: Rule, id: int)
    requires Fair(net) && id in net.wanted && id in net.irobs && Closed(net.irobs[id].st)
    requires R.Matched(net.world.s) && AsksEnough(net, id) && Answered(net, acts, rule, id)
    ensures V.AllArrived(From(net, [EmitResend(id)] + acts, rule).world.s, id)
  {
    hide Fair, From, Try, AsksEnough, Answered, Closed, V.AllArrived, V.Recorded, R.Matched, R.FromSender, R.InvBut, V.LogOk,
         R.NonEmptySends, S.Pieces, R.CanRead;
    FairReads(net);
    var o := History(net)[id];
    RequestOut(net, rule, id, o);
    var asked := Try(net, EmitResend(id), rule);
    FirstStep(net, EmitResend(id), acts, rule);
    if V.AllArrived(net.world.s, id) {
      FromKeepsArrived(asked, acts, rule, id);
    } else {
      FromKeepsWhole(asked, acts, rule, id, o);
      var end := From(asked, acts, rule);
      Y.FairParts(end);
      forall m | R.FromSender(History(end), m) && m.id == id
        ensures V.Recorded(end.world.s, m)
      {
        SameMessages(History(end), id, m);
        ThereOrLands(net, acts, rule, id, o, m);
        if V.Recorded(net.world.s, m) {
          Y.FromKeepsRecorded(asked, acts, rule, m);
        }
      }
      V.ArrivedWhenRecorded(end.world.s, History(end), id);
    }
  }

  lemma SameMessages(h: R.Sends, id: int, m: R.Msg)
    requires m.id == id && R.FromSender(h, m)
    ensures id in h && R.FromSender(map[id := h[id]], m)
  {
  }

  lemma FirstStep(net: Net, a: Action, acts: seq<Action>, rule: Rule)
    ensures From(net, [a] + acts, rule) == From(Try(net, a, rule), acts, rule)
  {
    hide Try;
    FromAppend(net, [a], acts, rule);
    assert [a][..0] == [];
  }

  // ----- From the data check on -----

  lemma NotPast(net: Net, id: int)
    requires Fair(net) && R.Matched(net.world.s) && !V.AllArrived(net.world.s, id)
    ensures var s := net.world.s;
            SameIds(net) && R.Inv(s, History(net)) && id !in s.lattice.past && s.reading != Some(id)
  {
    hide R.InvBut, D.Sound, S.Valid, V.LogOk, BagFair, V.AllArrived, S.Pieces, Closed;
    NotReading(net.world.s, History(net), id);
  }

  lemma CheckAnswer(net: Net, id: int, rule: Rule)
    requires Fair(net) && Check(id) in net.bag && id !in net.wanted
    ensures R.Matched(net.world.s) && id in net.irobs
    ensures var next := Try(net, Deliver(Check(id)), rule);
            && Fair(next) && next.irobs == net.irobs && R.Matched(next.world.s)
            && (id in next.wanted <==> !CheckAcks(net.world.s, id, rule))
            && (id in next.wanted ==> next.world == net.world && next.wanted[id] == CheckWants(net.world.s, id, rule))
            && (CheckAcks(net.world.s, id, rule) ==> next.world.s == net.world.s.(acks := net.world.s.acks + {id}))
  {
    hide Fair, R.Matched, R.CanRead, CheckResult;
    BagOk(net, Check(id));
    FairReads(net);
    TryKeepsFair(net, Deliver(Check(id)), rule);
    FairReads(Try(net, Deliver(Check(id)), rule));
  }

  lemma CheckedWants(net: Net, id: int, rule: Rule)
    requires Fair(net) && id in net.irobs && Closed(net.irobs[id].st)
    requires R.Matched(net.world.s) && !V.AllArrived(net.world.s, id) && !CheckAcks(net.world.s, id, rule)
    ensures var s, w := net.world.s, CheckWants(net.world.s, id, rule);
            (Covers(s, id, w, |net.irobs[id].st.sent|) && (w.deps || Begun(s, id)) && (w.end || SeenEnd(R.BodyOf(s, id)))) <==>
              rule.AsDocumented? || id !in s.lattice.live || SeenEnd(R.BodyOf(s, id))
  {
    hide Fair, V.AllArrived, Closed, Covers, Missing, S.Pieces, R.InvBut, SeenEnd;
    NotPast(net, id);
    WholeKnown(net, id, History(net)[id]);
    CheckCoversIff(net.world.s, History(net), id, rule, |net.irobs[id].st.sent|);
  }

  /** What a data check makes the receiver ask for is enough exactly when the rule is the
      documented one, or nothing of the IROB is known, or its End has been seen; and then an
      acknowledgement instead of a request is right too. */
  lemma CheckAsksEnoughIff(net: Net, id: int, rule: Rule)
    requires Fair(net) && Check(id) in net.bag && id !in net.wanted && id in net.irobs && Closed(net.irobs[id].st)
    requires R.Matched(net.world.s) && !V.AllArrived(net.world.s, id)
    ensures var s, next := net.world.s, Try(net, Deliver(Check(id)), rule);
            R.Matched(next.world.s) && id in next.irobs &&
            (id in next.wanted && AsksEnough(next, id) <==>
               rule.AsDocumented? || id !in s.lattice.live || SeenEnd(R.BodyOf(s, id)))
  {
    hide Fair, R.Matched, V.AllArrived, Closed, Covers, Missing, S.Pieces, R.InvBut, Try, SeenEnd;
    CheckAnswer(net, id, rule);
    NotPast(net, id);
    if !CheckAcks(net.world.s, id, rule) {
      CheckedWants(net, id, rule);
    }
    CheckUnsoundIff(net.world.s, History(net), id, rule);
  }

  lemma {:induction false} FromGood(net: Net, acts: seq<Action>)
    requires Good(net)
    ensures Good(From(net, acts, AsDocumented))
  {
    hide Fair, AcksHold, Safe, Try;
    if acts != [] {
      var mid, a := From(net, acts[..|acts| - 1], AsDocumented), acts[|acts| - 1];
      FromGood(net, acts[..|acts| - 1]);
      TryKeepsFair(mid, a, AsDocumented);
      StepKeepsAcksIff(mid, a, AsDocumented);
      DocumentedSafe(mid, a, AsDocumented);
    }
  }

  /** One round of repair, from any good state, under the documented rule: a data check arrives,
      and if it makes the receiver ask and the request is answered - unless the IROB is
      acknowledged meanwhile - then in the end the whole IROB has arrived. */
  lemma CheckRound(net: Net, acts: seq<Action>, id: int)
    requires Good(net) && Check(id) in net.bag && id !in net.wanted && id in net.irobs && Closed(net.irobs[id].st)
    requires var checked := Try(net, Deliver(Check(id)), AsDocumented);
             var end := From(net, [Deliver(Check(id)), EmitResend(id)] + acts, AsDocumented);
             R.Matched(checked.world.s) && id in checked.wanted && !Acknowledged(end, id) ==>
               Answered(checked, acts, AsDocumented, id)
    ensures V.AllArrived(From(net, [Deliver(Check(id)), EmitResend(id)] + acts, AsDocumented).world.s, id)
  {
    hide Fair, AcksHold, From, Try, AsksEnough, Answered, Closed, V.AllArrived, R.Matched, CheckAcks;
    var round := [Deliver(Check(id)), EmitResend(id)] + acts;
    var end := From(net, round, AsDocumented);
    CheckAnswer(net, id, AsDocumented);
    if V.AllArrived(net.world.s, id) {
      FromKeepsArrived(net, round, AsDocumented, id);
    } else {
      CheckAsksEnoughIff(net, id, AsDocumented);
      FromGood(net, round);
      if Acknowledged(end, id) {
        ArrivedWhenAcked(end, id);
      } else {
        assert round == [Deliver(Check(id))] + ([EmitResend(id)] + acts);
        FirstStep(net, Deliver(Check(id)), [EmitResend(id)] + acts, AsDocumented);
        RequestCompletes(Try(net, Deliver(Check(id)), AsDocumented), acts, AsDocumented, id);
      }
    }
  }

  lemma ArrivedWhenAcked(net: Net, id: int)
    requires AcksHold(net) && Acknowledged(net, id)
    ensures V.AllArrived(net.world.s, id)
  {
  }

  // ----- Any request can be answered -----

  predicate Quiet(a: Action) {
    (a.Deliver? && (a.p.Data? || a.p.Resend?)) || a.EmitBegin? || a.EmitEnd? || a.EmitChunk?
  }

  lemma QuietKeepsTrack(net: Net, a: Action, rule: Rule)
    requires Quiet(a)
    ensures var next := Try(net, a, rule);
            next.track == net.track && (a.Deliver? && a.p.Data? ==> next.irobs == net.irobs)
  {
    hide R.Handle, R.CanRead, R.Matched, S.GetReady, Closed, S.Bytes, Serve;
  }

  lemma {:induction false} QuietRun(net: Net, acts: seq<Action>, rule: Rule)
    requires forall a :: a in acts ==> Quiet(a)
    ensures From(net, acts, rule).track == net.track
    ensures (forall a :: a in acts ==> a.Deliver? && a.p.Data?) ==> From(net, acts, rule).irobs == net.irobs
  {
    hide Try, Quiet;
    if acts != [] {
      var before, a := acts[..|acts| - 1], acts[|acts| - 1];
      assert a in acts && forall b :: b in before ==> b in acts;
      QuietRun(net, before, rule);
      QuietKeepsTrack(From(net, before, rule), a, rule);
    }
  }

  ghost function Emits(id: int, k: nat): seq<Action> {
    seq(k, _ => EmitChunk(id, 0, 0))
  }

  lemma EmitsOne(net: Net, id: int, rule: Rule, o: R.Sent)
    requires Fair(net) && Whole(net, id, o) && Sending(net, id) && net.irobs[id].st.resend != {}
    ensures var next := Try(net, EmitChunk(id, 0, 0), rule);
            && Fair(next) && Whole(next, id, o) && Sending(next, id)
            && |next.irobs[id].st.resend| < |net.irobs[id].st.resend|
  {
    hide R.Handle, R.Read, R.CanRead, R.Matched, ReceiverOk, BagFair, S.Valid, S.GetReady, Closed, S.Pieces, S.Bytes, D.Sound;
    assert IrobOk(net.irobs[id]);
    S.ReadyResend(net.irobs[id].st, 0, 0);
    TryKeepsWhole(net, EmitChunk(id, 0, 0), rule, id, o);
    TryKeepsFair(net, EmitChunk(id, 0, 0), rule);
  }

  lemma {:induction false} EmitsAll(net: Net, id: int, rule: Rule, o: R.Sent) returns (k: nat)
    requires Fair(net) && Whole(net, id, o) && Sending(net, id)
    ensures var end := From(net, Emits(id, k), rule);
            Sending(end, id) && end.irobs[id].st.resend == {}
    decreases |net.irobs[id].st.resend|
  {
    hide Fair, Whole, Try;
    if net.irobs[id].st.resend == {} {
      k := 0;
    } else {
      EmitsOne(net, id, rule, o);
      var more := EmitsAll(Try(net, EmitChunk(id, 0, 0), rule), id, rule, o);
      k := more + 1;
      assert Emits(id, k) == [EmitChunk(id, 0, 0)] + Emits(id, more);
      FirstStep(net, EmitChunk(id, 0, 0), Emits(id, more), rule);
    }
  }

  /** Every message of the IROB, once. */
  function Messages(id: int, o: R.Sent): seq<Action> {
    [Deliver(Data(R.BeginMsg(id, o.deps, o.ondemand))),
     Deliver(Data(R.EndMsg(id, |Concat(o.pieces)|, |o.pieces|)))]
    + seq(|o.pieces|, i requires 0 <= i < |o.pieces| => Deliver(Data(R.ChunkMsg(id, PieceMessage(o.pieces, i)))))
  }

  lemma MessagesAll(id: int, o: R.Sent, m: R.Msg)
    requires m.id == id && R.FromSender(map[id := o], m)
    ensures Deliver(Data(m)) in Messages(id, o)
  {
    var all := Messages(id, o);
    match m
    case BeginMsg(_, _, _) => assert all[0] == Deliver(Data(m));
    case EndMsg(_, _, _) => assert all[1] == Deliver(Data(m));
    case ChunkMsg(_, c) => assert all[c.seqno + 2] == Deliver(Data(m));
  }

  function Served(ps: seq<Packet>): seq<Action> {
    seq(|ps|, i requires 0 <= i < |ps| => Deliver(ps[i]))
  }

  /** Only what is for the sender to send is sent, and only by Emit steps. */
  lemma SentKind(net: Net, a: Action, rule: Rule, id: int, o: R.Sent, m: R.Msg)
    requires Fair(net) && Whole(net, id, o) && Sends(net, a, m) && m.id == id
    ensures R.FromSender(map[id := o], m) && !a.Deliver?
  {
    hide Fair, Enabled, Closed, S.Pieces, S.GetReady, S.Bytes;
    SentIsInFlight(net, a, m, rule);
    TryKeepsFair(net, a, rule);
    TryKeepsWhole(net, a, rule, id, o);
    InFlightIsTrue(Try(net, a, rule), id, o, m);
  }

  lemma InFlightIsTrue(net: Net, id: int, o: R.Sent, m: R.Msg)
    requires Fair(net) && Whole(net, id, o) && Data(m) in net.bag && m.id == id
    ensures R.FromSender(map[id := o], m)
  {
    hide D.Sound, ReceiverOk, S.Valid, S.Pieces, Closed;
    BagOk(net, Data(m));
    SameMessages(History(net), id, m);
  }

  lemma OnlyDeliveries(first: seq<Action>, id: int, o: R.Sent, i: nat)
    requires i < |first + Messages(id, o)|
    ensures i < |first| || (first + Messages(id, o))[i].Deliver?
  {
    if i >= |first| {
      assert (first + Messages(id, o))[i] == Messages(id, o)[i - |first|];
    }
  }

  /** If all messages of the IROB are delivered at the end, all that is sent before them lands. */
  lemma LandsAtLast(net: Net, first: seq<Action>, rule: Rule, id: int, o: R.Sent)
    requires Fair(net) && Whole(net, id, o)
    ensures SendsLand(net, first + Messages(id, o), rule, id)
  {
    hide Fair, Whole, From, Sends;
    var acts := first + Messages(id, o);
    forall i, m | 0 <= i < |acts| && Sends(From(net, acts[..i], rule), acts[i], m) && m.id == id
      ensures DeliveredFrom(acts, i + 1, Data(m))
    {
      FromKeepsWhole(net, acts[..i], rule, id, o);
      SentKind(From(net, acts[..i], rule), acts[i], rule, id, o, m);
      MessagesAll(id, o, m);
      var j :| 0 <= j < |Messages(id, o)| && Messages(id, o)[j] == Deliver(Data(m));
      OnlyDeliveries(first, id, o, i);
      assert acts[|first| + j] == Deliver(Data(m));
    }
  }

  /** No request is beyond answering: the round can always be completed. */
  lemma CanBeAnswered(net: Net, rule: Rule, id: int) returns (acts: seq<Action>)
    requires Fair(net) && id in net.wanted && Sending(net, id) && Closed(net.irobs[id].st) && R.Matched(net.world.s)
    ensures Answered(net, acts, rule, id)
  {
    hide Fair, Whole, From, Try, SendsLand, Messages, ResendPackets, Closed, R.Matched, Quiet, R.CanRead;
    FairReads(net);
    var o := History(net)[id];
    assert Whole(net, id, o) by { WholeNow(net, id); }
    RequestOut(net, rule, id, o);
    AskingKeepsTrack(net, rule, id);
    var asked := Try(net, EmitResend(id), rule);
    var ps := ResendPackets(net.world.s, id, net.wanted[id]);
    var first := Served(ps) + [EmitBegin(id), EmitEnd(id)];
    ServedQuiet(net.world.s, id, net.wanted[id]);
    QuietRun(asked, first, rule);
    FromKeepsWhole(asked, first, rule, id, o);
    WholeKnown(From(asked, first, rule), id, o);
    var k := EmitsAll(From(asked, first, rule), id, rule, o);
    FromAppend(asked, first, Emits(id, k), rule);
    var sent := first + Emits(id, k);
    acts := sent + Messages(id, o);
    FromAppend(asked, sent, Messages(id, o), rule);
    MessagesQuiet(id, o);
    QuietRun(From(asked, sent, rule), Messages(id, o), rule);
    LandsAtLast(asked, sent, rule, id, o);
    forall p | p in ps
      ensures DeliveredFrom(acts, 0, p)
    {
      var j :| 0 <= j < |ps| && ps[j] == p;
      assert acts[j] == Deliver(p);
    }
    assert acts == Served(ps) + [EmitBegin(id), EmitEnd(id)] + (Emits(id, k) + Messages(id, o));
    ServedFirst(ps, id, Emits(id, k) + Messages(id, o));
  }

  /** If requests are delivered first, and then Begin and End are sent, that is as they ask. */
  lemma ServedFirst(ps: seq<Packet>, id: int, rest: seq<Action>)
    requires forall a :: a in rest && a.Deliver? ==> !a.p.Resend?
    ensures Obliged(Served(ps) + [EmitBegin(id), EmitEnd(id)] + rest, id)
  {
    var acts := Served(ps) + [EmitBegin(id), EmitEnd(id)] + rest;
    assert acts[|ps|] == EmitBegin(id) && acts[|ps| + 1] == EmitEnd(id);
    forall i | |ps| + 2 <= i < |acts|
      ensures acts[i] in rest
    {
      assert acts[i] == rest[i - |ps| - 2];
    }
  }

  lemma WholeNow(net: Net, id: int)
    requires Fair(net) && id in net.irobs && Closed(net.irobs[id].st)
    ensures SameIds(net) && Whole(net, id, History(net)[id])
  {
    hide D.Sound, ReceiverOk, BagFair, S.Valid, S.Pieces;
  }

  lemma AskingKeepsTrack(net: Net, rule: Rule, id: int)
    ensures Try(net, EmitResend(id), rule).track == net.track
  {
    hide ResendPackets, R.CanRead;
  }

  lemma ServedQuiet(s: R.Recv, id: int, w: Wanted)
    requires R.Matched(s)
    ensures forall a :: a in Served(ResendPackets(s, id, w)) + [EmitBegin(id), EmitEnd(id)] ==> Quiet(a)
  {
    hide ResendPackets, R.Matched;
    var ps := ResendPackets(s, id, w);
    forall a | a in Served(ps)
      ensures Quiet(a)
    {
      var i :| 0 <= i < |ps| && a == Deliver(ps[i]);
      RequestShape(s, id, w, ps[i]);
    }
  }

  lemma MessagesQuiet(id: int, o: R.Sent)
    ensures forall a :: a in Messages(id, o) ==> a.Deliver? && a.p.Data? && Quiet(a)
  {
  }
}
