/** What the receiver answers: exactly when a message makes it acknowledge, exactly what a data
    check makes it do, and how a lost acknowledgement is made good. */
module Answers {
  import opened Sequences
  import L = Lattice
  import D = Dominators
  import opened ReceiverIrob
  import S = SenderIrob
  import R = Receiver
  import V = Delivery
  import opened Protocol
  import Q = RepairRuns

  // ----- Data -----

  /** Refused are Begins for what is past and for what has already begun. */
  predicate Refused(s: R.Recv, m: R.Msg) {
    m.id in s.lattice.past
    || (m.BeginMsg? && m.id in s.lattice.live && !s.lattice.live[m.id].placeholder)
  }

  lemma BeginAcksIff(s: R.Recv, h: R.Sends, m: R.Msg)
    requires R.Inv(s, h) && R.FromSender(h, m) && m.BeginMsg?
    ensures R.Matched(s)
    ensures var t := R.Handle(s, m);
            forall k :: k in t.acks <==> k in s.acks || (k == m.id && !Refused(s, m) && V.AllArrived(t, k))
  {
    hide R.InvBut, R.HandleBegin, R.BeginEntry, R.Settle;
    R.InvFacts(s, h);
    if L.Insertable(s.lattice, m.id) {
      R.BeginEffect(s, h, m.id, m.deps, m.ondemand);
      BeginSettles(s, m.id, m.deps, m.ondemand);
    } else {
      V.RefusedBegin(s, m.id, m.deps, m.ondemand);
    }
  }

  lemma BeginSettles(s: R.Recv, id: int, deps: set<int>, ondemand: bool)
    requires R.Matched(s) && L.Insertable(s.lattice, id)
    ensures var t := R.HandleBegin(s, id, deps, ondemand);
            && id !in t.lattice.past && id in t.lattice.live && id in t.bodies && !t.lattice.live[id].placeholder
            && t.acks == if IsComplete(t.bodies[id]) then s.acks + {id} else s.acks
  {
    var e := R.BeginEntry(s, id, deps, ondemand);
    R.BeginEntryFrame(s, id, deps, ondemand);
    R.SettleFrame(e, id);
    assert e.acks == s.acks;
    hide R.BeginEntry, R.Settle, IsComplete;
    SameCompletion(R.Settle(e, id).bodies[id], e.bodies[id]);
  }

  lemma LandSettles(s: R.Recv, h: R.Sends, id: int, b: Body)
    requires R.Inv(s, h) && id in h && id !in s.lattice.past && R.Matched(s)
    ensures var t := R.Land(s, id, b);
            && id !in t.lattice.past && id in t.lattice.live && id in t.bodies
            && t.acks == if V.AllArrived(t, id) then s.acks + {id} else s.acks
  {
    hide R.InvBut, R.Settle, IsComplete;
    R.WithEntryKeeps(s, h, id);
    var e := R.WithEntry(s, id);
    var u := e.(bodies := e.bodies[id := b]);
    R.SettleFrame(u, id);
    SameCompletion(R.Settle(u, id).bodies[id], b);
    assert e.acks == s.acks;
    R.LandEffect(s, h, id, b);
    hide R.WithEntry;
  }

  /** Whatever arrives: an IROB is acknowledged anew exactly when the message is one of its own, not
      refused, and it has then wholly arrived - or is past already, and this is its End again. */
  lemma HandleAcksIff(s: R.Recv, h: R.Sends, m: R.Msg)
    requires R.Inv(s, h) && R.FromSender(h, m)
    ensures R.Matched(s)
    ensures var t := R.Handle(s, m);
            forall k :: k in t.acks <==>
              k in s.acks || (k == m.id && V.AllArrived(t, k) && (m.EndMsg? || !Refused(s, m)))
  {
    hide R.InvBut, R.Handle, R.Settle, V.AllArrived, Refused;
    R.InvFacts(s, h);
    match m
    case BeginMsg(_, _, _) =>
      BeginAcksIff(s, h, m);
    case ChunkMsg(id, c) =>
      if id in s.lattice.past {
        PastChunk(s, h, id, c);
      } else {
        ChunkAcks(s, h, id, c);
      }
    case EndMsg(id, bytes, count) =>
      if id in s.lattice.past {
        PastEnd(s, h, id, bytes, count);
      } else {
        EndAcks(s, h, id, bytes, count);
      }
  }

  lemma ChunkAcks(s: R.Recv, h: R.Sends, id: int, c: Incoming)
    requires R.Inv(s, h) && R.FromSender(h, R.ChunkMsg(id, c)) && id !in s.lattice.past && R.Matched(s)
    ensures !Refused(s, R.ChunkMsg(id, c))
    ensures var t := R.Handle(s, R.ChunkMsg(id, c));
            t.acks == if V.AllArrived(t, id) then s.acks + {id} else s.acks
  {
    hide R.InvBut, R.HandleChunk, R.Land, V.AllArrived;
    R.ChunkEffect(s, h, id, c);
    LandSettles(s, h, id, AddChunk(R.BodyOf(s, id), c).body);
  }

  lemma EndAcks(s: R.Recv, h: R.Sends, id: int, bytes: nat, count: nat)
    requires R.Inv(s, h) && R.FromSender(h, R.EndMsg(id, bytes, count)) && id !in s.lattice.past && R.Matched(s)
    ensures var t := R.Handle(s, R.EndMsg(id, bytes, count));
            t.acks == if V.AllArrived(t, id) then s.acks + {id} else s.acks
  {
    hide R.InvBut, R.HandleEnd, R.Land, V.AllArrived;
    R.EndEffect(s, h, id, bytes, count);
    LandSettles(s, h, id, Finish(R.BodyOf(s, id), bytes, count).body);
  }

  lemma PastNotLive(s: R.Recv, h: R.Sends, id: int)
    requires R.Inv(s, h) && id in s.lattice.past
    ensures id !in s.lattice.live
  {
  }

  lemma PastChunk(s: R.Recv, h: R.Sends, id: int, c: Incoming)
    requires R.Inv(s, h) && id in s.lattice.past && R.Matched(s)
    ensures R.Handle(s, R.ChunkMsg(id, c)) == s && Refused(s, R.ChunkMsg(id, c))
  {
    PastNotLive(s, h, id);
    hide R.InvBut;
  }

  /** The End of an IROB that was passed on already: it is acknowledged again, and that is all. */
  lemma PastEnd(s: R.Recv, h: R.Sends, id: int, bytes: nat, count: nat)
    requires R.Inv(s, h) && id in s.lattice.past && R.Matched(s)
    ensures R.Handle(s, R.EndMsg(id, bytes, count)) == s.(acks := s.acks + {id})
    ensures V.AllArrived(s.(acks := s.acks + {id}), id)
  {
    PastNotLive(s, h, id);
    hide R.InvBut;
  }

  // ----- Data checks -----

  /** What a data check finds to acknowledge: an IROB passed on, or a begun one of which nothing is
      listed as missing and - as documented - the End has been seen, or - as written - it has not. */
  ghost predicate Acknowledges(s: R.Recv, id: int, rule: Rule) {
    || id in s.lattice.past
    || (&& id in s.lattice.live && id in s.bodies && !s.lattice.live[id].placeholder
        && (forall i: nat :: i < |s.bodies[id].chunks| || i < s.bodies[id].expectedChunks ==> Has(s.bodies[id].chunks, i))
        && SeenEnd(s.bodies[id]) == rule.AsDocumented?)
  }

  lemma NoneListed(b: Body)
    ensures Missing(b) == [] <==>
              forall i: nat :: i < |b.chunks| || i < b.expectedChunks ==> Has(b.chunks, i)
  {
    MissingBelowIs(b.chunks, if b.expectedChunks > |b.chunks| then b.expectedChunks else |b.chunks|);
    if Missing(b) != [] {
      assert Missing(b)[0] in Missing(b);
    }
    forall i: nat | (i < |b.chunks| || i < b.expectedChunks) && !Has(b.chunks, i)
      ensures Missing(b) != []
    {
      assert i in Missing(b);
    }
  }

  /** The answer to a data check, in every state: an acknowledgement exactly as above, and nothing
      else; otherwise, unless a request is waiting, one for the Begin if that is missing, for data if
      any are, and for the End if - as documented - it is missing, or - as written - it is not; and
      for everything if the IROB is unknown. */
  lemma CheckAnswered(net: Net, id: int, rule: Rule)
    requires Fair(net) && Check(id) in net.bag
    ensures var s, next := net.world.s, Try(net, Deliver(Check(id)), rule);
            && next == net.(world := next.world, wanted := next.wanted)
            && next.world == net.world.(s := s.(acks := next.world.s.acks))
            && (if Acknowledges(s, id, rule) then next.world.s.acks == s.acks + {id} && next.wanted == net.wanted
                else next.world.s.acks == s.acks && next.wanted.Keys == net.wanted.Keys + {id})
            && (forall k :: k in net.wanted ==> next.wanted[k] == net.wanted[k])
            && (id in next.wanted && id !in net.wanted ==>
                  var w := next.wanted[id];
                  if id !in s.lattice.live then w.deps && w.data && w.end
                  else
                    && id in s.bodies
                    && (w.deps <==> s.lattice.live[id].placeholder)
                    && (w.data <==> exists i: nat :: (i < |s.bodies[id].chunks| || i < s.bodies[id].expectedChunks)
                                                     && !Has(s.bodies[id].chunks, i))
                    && (w.end <==> SeenEnd(s.bodies[id]) == rule.AsWritten?))
  {
    hide Fair, R.CanRead, Missing, SeenEnd, Has;
    FairReads(net);
    TryKeepsFair(net, Deliver(Check(id)), rule);
    var s := net.world.s;
    if id in s.lattice.live {
      NoneListed(s.bodies[id]);
      LiveNotPast(net, id);
    }
  }

  lemma LiveNotPast(net: Net, id: int)
    requires Fair(net)
    ensures id in net.world.s.lattice.live ==> id !in net.world.s.lattice.past
  {
    hide R.InvBut, D.Sound, S.Valid, V.LogOk, BagFair;
    if id in net.world.s.lattice.past {
      PastNotLive(net.world.s, History(net), id);
    }
  }

  /** In terms of what has arrived. As documented, a check is answered with an acknowledgement exactly
      when everything has arrived, unless whole chunks were read already and the rest not. As
      written, for what was passed on, and for what is trapped. */
  lemma AcknowledgesIff(s: R.Recv, h: R.Sends, id: int, rule: Rule)
    requires R.Inv(s, h)
    ensures Acknowledges(s, id, rule) <==>
              if rule.AsDocumented? then
                V.AllArrived(s, id)
                && (s.reading == Some(id) && id in s.bodies && id !in s.lattice.past ==>
                      s.bodies[id].expectedChunks <= |s.bodies[id].chunks|)
              else id in s.lattice.past || Trapped(s, id)
  {
    if id in s.lattice.live && id in s.bodies {
      var b := s.bodies[id];
      assert R.EntryOk(s, h, id) && R.ReleasedRightly(s, id);
      NoneListed(b);
      if !s.lattice.live[id].placeholder && s.reading != Some(id) {
        CompleteIff(b, h[id].pieces, h[id].closed);
        if SeenEnd(b) && Missing(b) == [] {
          NothingMissing(b, h[id].pieces, h[id].closed);
        }
      }
    }
  }

  // ----- Acknowledgements made good -----

  /** The last two steps: a waiting acknowledgement goes out and reaches the sender. */
  lemma AckTwoSteps(net: Net, id: int, rule: Rule)
    requires Fair(net) && id in net.world.s.acks && Sending(net, id) && net.irobs[id].st.complete
    ensures var end := From(net, [EmitAck(id), Deliver(Ack(id))], rule);
            && id in end.acked && id !in end.track.lattice.live && id in end.track.lattice.past
            && end.world.s.lattice == net.world.s.lattice && id !in end.world.s.acks
  {
    hide Fair, R.CanRead, R.Matched;
    TryKeepsFair(net, EmitAck(id), rule);
    var mid := Try(net, EmitAck(id), rule);
    TryKeepsFair(mid, Deliver(Ack(id)), rule);
    Q.FirstStep(net, EmitAck(id), [Deliver(Ack(id))], rule);
    assert [EmitAck(id)] + [Deliver(Ack(id))] == [EmitAck(id), Deliver(Ack(id))];
    OneStep(mid, Deliver(Ack(id)), rule);
  }

  /** The answer to an acknowledgement: a finished IROB still held is removed, and nothing else; one
      that is not finished stays, and so does everything when the IROB is gone. */
  lemma AckAnswered(net: Net, id: int, rule: Rule)
    requires Fair(net) && Ack(id) in net.bag
    ensures var next := Try(net, Deliver(Ack(id)), rule);
            && next == net.(track := next.track, acked := next.acked)
            && if Sending(net, id) && net.irobs[id].st.complete then
                 && next.track.lattice.live == net.track.lattice.live - {id}
                 && next.track.lattice.past == net.track.lattice.past + {id}
                 && next.track.order == net.track.order && next.track.lattice.dropped == net.track.lattice.dropped
                 && next.acked == net.acked + {id}
               else next == net
  {
    hide Fair, R.CanRead, R.Matched;
    TryKeepsFair(net, Deliver(Ack(id)), rule);
  }

  lemma OneStep(net: Net, a: Action, rule: Rule)
    ensures From(net, [a], rule) == Try(net, a, rule)
  {
    hide Try;
    assert [a][..0] == [];
  }

  /** What has wholly arrived was finished by the sender. */
  lemma ArrivedComplete(net: Net, id: int)
    requires Fair(net) && V.AllArrived(net.world.s, id)
    ensures SameIds(net) && id in net.irobs && Closed(net.irobs[id].st) && net.irobs[id].st.complete
  {
    hide D.Sound, R.InvBut, V.AllArrived, IrobOk, V.LogOk, S.Valid, BagFair, S.AllBytesChunked;
    ArrivedMeans(net.world.s, History(net), id);
  }

  /** An acknowledgement that was lost is made good by a data check, from any state and under either
      rule, for an IROB passed on already; under the documented rule also for one that has wholly
      arrived and is not being read. The sender is then done with it. */
  lemma CheckRetires(net: Net, id: int, rule: Rule)
    requires Fair(net) && Sending(net, id)
    requires id in net.world.s.lattice.past
             || (rule.AsDocumented? && V.AllArrived(net.world.s, id) && net.world.s.reading != Some(id))
    ensures var end := From(net, [EmitCheck(id), Deliver(Check(id)), EmitAck(id), Deliver(Ack(id))], rule);
            && id in end.acked && id !in end.track.lattice.live && id in end.track.lattice.past
            && end.world.s.lattice == net.world.s.lattice
  {
    hide Fair, R.CanRead, R.Matched, Acknowledges, V.AllArrived, From, Trapped, S.Pieces, Closed;
    ArrivedNow(net, id);
    ArrivedComplete(net, id);
    TryKeepsFair(net, EmitCheck(id), rule);
    var asked := Try(net, EmitCheck(id), rule);
    Q.FirstStep(net, EmitCheck(id), [Deliver(Check(id)), EmitAck(id), Deliver(Ack(id))], rule);
    Inv(asked);
    AcknowledgesIff(asked.world.s, History(asked), id, rule);
    CheckAnswered(asked, id, rule);
    TryKeepsFair(asked, Deliver(Check(id)), rule);
    var heard := Try(asked, Deliver(Check(id)), rule);
    Q.FirstStep(asked, Deliver(Check(id)), [EmitAck(id), Deliver(Ack(id))], rule);
    AckTwoSteps(heard, id, rule);
    assert [EmitCheck(id), Deliver(Check(id)), EmitAck(id), Deliver(Ack(id))]
           == [EmitCheck(id)] + ([Deliver(Check(id))] + [EmitAck(id), Deliver(Ack(id))]);
    assert [Deliver(Check(id)), EmitAck(id), Deliver(Ack(id))] == [Deliver(Check(id))] + [EmitAck(id), Deliver(Ack(id))];
  }

  lemma Inv(net: Net)
    requires Fair(net)
    ensures SameIds(net) && R.Inv(net.world.s, History(net))
  {
    hide R.InvBut, D.Sound, S.Valid, V.LogOk, BagFair;
  }

  lemma ArrivedNow(net: Net, id: int)
    requires id in net.world.s.lattice.past || V.AllArrived(net.world.s, id)
    ensures V.AllArrived(net.world.s, id)
  {
  }

  /** And by the End sent once more: whenever the IROB has wholly arrived, whether it waits, is being
      read or is passed on, and under either rule. */
  lemma EndRetires(net: Net, id: int, rule: Rule)
    requires Fair(net) && Sending(net, id) && V.AllArrived(net.world.s, id)
    ensures SameIds(net) && id in net.irobs
    ensures var st := net.irobs[id].st;
            var m := R.EndMsg(id, |S.Bytes(st)|, |st.sent|);
            var end := From(net, [EmitEnd(id), Deliver(Data(m)), EmitAck(id), Deliver(Ack(id))], rule);
            id in end.acked && id !in end.track.lattice.live && id in end.track.lattice.past
  {
    hide Fair, R.CanRead, R.Matched, V.AllArrived, From, R.Handle, S.Bytes, S.Pieces, Closed;
    ArrivedComplete(net, id);
    var m := R.EndMsg(id, |S.Bytes(net.irobs[id].st)|, |net.irobs[id].st.sent|);
    var rest := [EmitAck(id), Deliver(Ack(id))];
    TryKeepsFair(net, EmitEnd(id), rule);
    var sent := Try(net, EmitEnd(id), rule);
    Q.FirstStep(net, EmitEnd(id), [Deliver(Data(m))] + rest, rule);
    EndAcked(sent, m, rule);
    var heard := Try(sent, Deliver(Data(m)), rule);
    Q.FirstStep(sent, Deliver(Data(m)), rest, rule);
    AckTwoSteps(heard, id, rule);
    assert [EmitEnd(id), Deliver(Data(m)), EmitAck(id), Deliver(Ack(id))] == [EmitEnd(id)] + ([Deliver(Data(m))] + rest);
  }

  lemma EndAcked(net: Net, m: R.Msg, rule: Rule)
    requires Fair(net) && Data(m) in net.bag && m.EndMsg? && V.AllArrived(net.world.s, m.id)
    ensures var next := Try(net, Deliver(Data(m)), rule);
            && Fair(next) && m.id in next.world.s.acks
            && next.track == net.track && next.irobs == net.irobs
  {
    hide R.CanRead, R.Handle, V.AllArrived, R.InvBut, D.Sound, S.Valid, S.Pieces, V.LogOk, Arrive;
    FairReads(net);
    TryKeepsFair(net, Deliver(Data(m)), rule);
    assert PacketFair(net, Data(m));
    DataArrives(net, m, rule);
    HandleAcksIff(net.world.s, History(net), m);
    HandleKeepsArrived(net.world.s, History(net), m, m.id);
  }
}
