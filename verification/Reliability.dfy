/** Reliable delivery over whole runs of sender, links and receiver: what has arrived of
    finished IROBs reaches the other application, whatever came in between. */
module Reliability {
  import opened Sequences
  import D = Dominators
  import S = SenderIrob
  import R = Receiver
  import V = Delivery
  import opened Protocol
  import O = Ordering

  // ----- Nothing received is forgotten -----

  lemma SameRecords(s: R.Recv, t: R.Recv, m: R.Msg)
    requires t == s.(acks := t.acks)
    ensures V.Recorded(s, m) == V.Recorded(t, m)
  {
  }

  lemma ActKeepsRecorded(net: Net, a: Action, rule: Rule, m: R.Msg)
    requires Fair(net) && Enabled(net, a) && V.Recorded(net.world.s, m)
    requires SameIds(net) && R.Matched(net.world.s) && R.CanRead(net.world.s)
    ensures V.Recorded(Act(net, a, rule).world.s, m)
  {
    hide R.InvBut, V.LogOk, D.Sound, S.Valid, S.GetReady, R.Read, R.Handle, ResendPackets, D.Begin, D.Retire, D.Abandon,
         S.AddApp, S.EndApp, Undeliverable, D.Acceptable, Closed, S.Bytes, Serve, V.Recorded, Arrive;
    if a.AppRead? {
      FairReads(net);
      V.ReadKeepsRecorded(net.world, History(net), a.n, m);
    } else if a.Deliver? && a.p.Data? {
      assert PacketFair(net, a.p);
      DataArrives(net, a.p.m, rule);
      V.HandleRecords(net.world.s, History(net), a.p.m, m);
    } else if a.Deliver? {
      OtherArrives(net, a.p, rule);
      SameRecords(net.world.s, Act(net, a, rule).world.s, m);
    } else {
      SameRecords(net.world.s, Act(net, a, rule).world.s, m);
    }
  }

  lemma TryKeepsRecorded(net: Net, a: Action, rule: Rule, m: R.Msg)
    requires Fair(net) && V.Recorded(net.world.s, m)
    ensures V.Recorded(Try(net, a, rule).world.s, m)
  {
    hide Fair, Enabled, Act, R.Matched, R.CanRead, V.Recorded;
    if Enabled(net, a) {
      TryKeepsFair(net, a, rule);
      ActKeepsRecorded(net, a, rule, m);
    }
  }

  lemma TryRecords(net: Net, m: R.Msg, rule: Rule)
    requires Fair(net) && Data(m) in net.bag
    ensures V.Recorded(Try(net, Deliver(Data(m)), rule).world.s, m)
  {
    hide R.InvBut, V.LogOk, D.Sound, S.Valid, R.Handle, V.Recorded, Arrive, R.CanRead, R.Matched, R.NonEmptySends;
    FairReads(net);
    assert PacketFair(net, Data(m));
    DataArrives(net, m, rule);
    V.HandleRecords(net.world.s, History(net), m, m);
  }

  lemma {:induction false} FromKeepsRecorded(net: Net, acts: seq<Action>, rule: Rule, m: R.Msg)
    requires Fair(net) && V.Recorded(net.world.s, m)
    ensures V.Recorded(From(net, acts, rule).world.s, m)
  {
    hide Fair, V.Recorded, Try;
    if acts != [] {
      var before := acts[..|acts| - 1];
      FromFair(net, before, rule);
      FromKeepsRecorded(net, before, rule, m);
      TryKeepsRecorded(From(net, before, rule), acts[|acts| - 1], rule, m);
    }
  }

  /** Some step of the run hands the message, then in flight, to the receiver. */
  ghost predicate Landed(net: Net, acts: seq<Action>, rule: Rule, m: R.Msg) {
    exists i :: 0 <= i < |acts| && acts[i] == Deliver(Data(m)) && Data(m) in From(net, acts[..i], rule).bag
  }

  lemma LandedRecorded(net: Net, acts: seq<Action>, rule: Rule, m: R.Msg)
    requires Fair(net) && Landed(net, acts, rule, m)
    ensures V.Recorded(From(net, acts, rule).world.s, m)
  {
    hide Fair, V.Recorded, Try, From;
    var i :| 0 <= i < |acts| && acts[i] == Deliver(Data(m)) && Data(m) in From(net, acts[..i], rule).bag;
    FromFair(net, acts[..i], rule);
    FromFair(net, acts[..i + 1], rule);
    FromNext(net, acts, rule, i);
    TryRecords(From(net, acts[..i], rule), m, rule);
    assert acts == acts[..i + 1] + acts[i + 1..];
    FromAppend(net, acts[..i + 1], acts[i + 1..], rule);
    FromKeepsRecorded(From(net, acts[..i + 1], rule), acts[i + 1..], rule, m);
  }

  // ----- The sender's own histories are acyclic -----

  function Place(order: seq<int>, k: int): nat {
    if order == [] || order[0] == k then 0 else 1 + Place(order[1..], k)
  }

  lemma {:induction false} PlaceIs(order: seq<int>, i: nat)
    requires i <= |order|
    ensures forall k :: k in order[..i] ==> Place(order, k) < i
    ensures i < |order| && order[i] !in order[..i] ==> Place(order, order[i]) == i
  {
    if i > 0 {
      PlaceIs(order[1..], i - 1);
      assert order[..i] == [order[0]] + order[1..][..i - 1];
    }
  }

  /** What the sender announced earlier ranks lower. */
  lemma RankedByPlace(net: Net)
    requires Fair(net) && SameIds(net) && forall k :: k in net.irobs ==> Closed(net.irobs[k].st)
    ensures V.WholeHistory(History(net), k => Place(net.track.order, k))
  {
    hide S.Valid, S.Bytes, S.Pieces, Closed, ReceiverOk, BagFair, IrobOk, D.Dominating, D.Undominated, D.AnonymousOrdered,
         D.LiveAsAnnounced, D.LastAnonymousKnown;
    var order, h := net.track.order, History(net);
    forall k, d | k in h && d in h[k].deps
      ensures d in h && Place(order, d) < Place(order, k)
    {
      assert k in order;
      var i :| 0 <= i < |order| && order[i] == k;
      assert d in order[..i];
      O.InPrefix(order, i, i);
      PlaceIs(order, i);
    }
  }

  // ----- Reading on -----

  ghost function ReadOn(n: nat, times: nat): seq<Action> {
    seq(times, _ => AppRead(n))
  }

  lemma FairParts(net: Net)
    requires Fair(net)
    ensures SameIds(net) && R.NonEmptySends(History(net)) && R.Inv(net.world.s, History(net))
            && V.LogOk(net.world, History(net))
  {
    hide R.InvBut, V.LogOk, D.Sound, S.Valid, R.NextUp, R.NonEmptySends, PacketFair, Closed, S.Pieces;
    FairReads(net);
  }

  lemma ReadStep(net: Net, n: nat, rule: Rule)
    requires Fair(net)
    ensures SameIds(net) && R.NonEmptySends(History(net)) && R.Inv(net.world.s, History(net))
            && V.LogOk(net.world, History(net))
    ensures var next := Try(net, AppRead(n), rule);
            && Fair(next) && SameIds(next) && History(next) == History(net)
            && next == net.(world := V.Step(net.world, History(net), V.ReadUpTo(n)))
  {
    hide Fair, R.InvBut, V.LogOk, R.Read, R.CanRead, R.NonEmptySends, Closed, S.Pieces;
    FairParts(net);
    TryKeepsFair(net, AppRead(n), rule);
  }

  lemma {:induction false} ReadsAre(net: Net, n: nat, times: nat, rule: Rule)
    requires Fair(net)
    ensures SameIds(net) && R.NonEmptySends(History(net)) && R.Inv(net.world.s, History(net))
            && V.LogOk(net.world, History(net))
    ensures From(net, ReadOn(n, times), rule) == net.(world := V.ReadMany(net.world, History(net), n, times))
    decreases times
  {
    hide Fair, Try, V.Step, R.InvBut, V.LogOk, R.NonEmptySends, History;
    ReadStep(net, n, rule);
    if times > 0 {
      var next := Try(net, AppRead(n), rule);
      assert ReadOn(n, times) == [AppRead(n)] + ReadOn(n, times - 1);
      FromAppend(net, [AppRead(n)], ReadOn(n, times - 1), rule);
      assert From(net, [AppRead(n)], rule) == next by {
        assert [AppRead(n)][..0] == [];
      }
      ReadsAre(next, n, times - 1, rule);
    }
  }

  // ----- Reliability -----

  lemma AllHere(net: Net, acts: seq<Action>, rule: Rule)
    requires Fair(net)
    requires var end := From(net, acts, rule);
             && SameIds(end) && (forall k :: k in end.irobs ==> Closed(end.irobs[k].st))
             && forall m :: R.FromSender(History(end), m) ==> Landed(net, acts, rule, m)
    ensures var end := From(net, acts, rule);
            && R.Inv(end.world.s, History(end)) && R.NonEmptySends(History(end)) && V.LogOk(end.world, History(end))
            && forall k :: k in end.irobs ==> V.AllArrived(end.world.s, k)
  {
    hide V.Recorded, From, R.InvBut, V.LogOk, D.Sound, S.Valid, R.CanRead, R.Matched, V.AllArrived, R.FromSender, Landed,
         Closed, S.Pieces, R.NonEmptySends;
    FromFair(net, acts, rule);
    var end := From(net, acts, rule);
    var h := History(end);
    FairReads(end);
    forall k | k in end.irobs
      ensures V.AllArrived(end.world.s, k)
    {
      forall m | R.FromSender(h, m) && m.id == k
        ensures V.Recorded(end.world.s, m)
      {
        LandedRecorded(net, acts, rule, m);
      }
      V.ArrivedWhenRecorded(end.world.s, h, k);
    }
  }

  /** Reading on from where all has arrived hands over every IROB in full. */
  lemma ReadsDeliver(net: Net, rule: Rule, n: nat) returns (times: nat)
    requires Fair(net) && n > 0 && SameIds(net)
    requires forall k :: k in net.irobs ==> Closed(net.irobs[k].st) && V.AllArrived(net.world.s, k)
    ensures var u := From(net, ReadOn(n, times), rule);
            u == net.(world := u.world) && Fair(u) && forall k :: k in net.irobs ==> k in u.world.delivered
  {
    hide Fair, R.InvBut, V.LogOk, R.NonEmptySends, V.WholeHistory, V.AllArrived, From, Place, Closed, S.Pieces, V.ReadMany;
    FairParts(net);
    RankedByPlace(net);
    var h := History(net);
    var rank := k => Place(net.track.order, k);
    V.LiveWasSent(net.world.s, h, rank);
    Known(net);
    times := V.ReadsDrain(net.world, h, rank, n);
    ReadsAre(net, n, times, rule);
    FromFair(net, ReadOn(n, times), rule);
    var u := From(net, ReadOn(n, times), rule);
    PastDelivered(u);
  }

  lemma Known(net: Net)
    requires forall k :: k in net.irobs ==> V.AllArrived(net.world.s, k)
    ensures forall k :: k in net.irobs ==> k in net.world.s.lattice.live || k in net.world.s.lattice.past
  {
  }

  lemma PastDelivered(net: Net)
    requires Fair(net)
    ensures forall k :: k in net.world.s.lattice.past <==> k in net.world.delivered
  {
    hide R.InvBut, D.Sound, S.Valid, V.Contents, V.PartialPrefix, V.InDependencyOrder, PacketFair;
    assert forall k :: k in net.world.delivered <==> k in Elements(net.world.delivered);
  }

  lemma NothingPartlyRead(net: Net)
    requires Fair(net) && forall k :: k in net.irobs ==> k in net.world.delivered
    ensures net.world.s.reading.None?
  {
    hide Fair, V.InDependencyOrder, V.Contents, V.PartialPrefix, S.Bytes, S.Valid, Closed;
    O.StreamFacts(net);
    O.GotInOrder(net);
  }

  /** Reliability, over every run under either rule: once every IROB is wholly cut, and each of
      its messages has been received at least once - in whatever order, with whatever duplicates,
      losses, drops, data checks and reads in between - further reads of any nonzero size give the
      other application the whole of every IROB, each once and after all it depends on. */
  lemma Reliable(acts: seq<Action>, rule: Rule, n: nat) returns (times: nat)
    requires n > 0
    requires var net := Run(acts, rule);
             && SameIds(net) && (forall k :: k in net.irobs ==> Closed(net.irobs[k].st))
             && forall m :: R.FromSender(History(net), m) ==> Landed(NewNet(), acts, rule, m)
    ensures var net, u := Run(acts, rule), Run(acts + ReadOn(n, times), rule);
            && u == net.(world := u.world) && SameIds(u)
            && NoDuplicates(u.world.delivered) && (forall k :: k in u.world.delivered <==> k in u.irobs)
            && V.InDependencyOrder(History(u), u.world.delivered)
            && u.world.output == O.Stream(u.irobs, u.world.delivered)
  {
    hide Fair, From, Landed, Closed, V.AllArrived, R.FromSender, R.InvBut, V.LogOk, R.NonEmptySends, V.InDependencyOrder,
         S.Pieces, NewNet, V.Contents, V.PartialPrefix, NoDuplicates, Place;
    NewNetFair();
    AllHere(NewNet(), acts, rule);
    RunFair(acts, rule);
    var net := Run(acts, rule);
    times := ReadsDeliver(net, rule, n);
    FromAppend(NewNet(), acts, ReadOn(n, times), rule);
    var u := Run(acts + ReadOn(n, times), rule);
    O.SentInOrder(u);
    O.GotInOrder(u);
    O.StreamFacts(u);
    O.ContentsAreStream(u, u.world.delivered);
    NothingPartlyRead(u);
  }

  /** And where only anonymous IROBs were sent, that is all that was written, in the order sent. */
  lemma ReliableStream(acts: seq<Action>, rule: Rule, n: nat) returns (times: nat)
    requires n > 0
    requires var net := Run(acts, rule);
             && SameIds(net) && (forall k :: k in net.irobs ==> Closed(net.irobs[k].st))
             && (forall m :: R.FromSender(History(net), m) ==> Landed(NewNet(), acts, rule, m))
             && (forall k :: k in net.track.order ==> k in net.track.anon)
    ensures var net, u := Run(acts, rule), Run(acts + ReadOn(n, times), rule);
            && (forall k :: k in net.track.order ==> k in net.irobs)
            && u.world.delivered == net.track.order && u.world.output == O.Stream(net.irobs, net.track.order)
  {
    hide Run, Fair, Landed, Closed, R.FromSender, V.InDependencyOrder, NewNet, O.Stream;
    times := Reliable(acts, rule, n);
    var all := acts + ReadOn(n, times);
    O.OneStream(all, rule);
    RunFair(all, rule);
    O.StreamFacts(Run(all, rule));
    O.SentInOrder(Run(all, rule));
    WholePrefix(Run(all, rule).world.delivered, Run(all, rule).track.order);
  }

  lemma NextIsNew(a: seq<int>, b: seq<int>)
    requires a <= b && NoDuplicates(b) && |a| < |b|
    ensures exists k :: k in b && k !in a
  {
    assert b[..|a|] == a;
    O.InPrefix(b, |a|, |a|);
    var k := b[|a|];
    assert k in b && k !in a;
  }

  lemma WholePrefix(a: seq<int>, b: seq<int>)
    requires a <= b && NoDuplicates(b) && forall k :: k in b ==> k in a
    ensures a == b
  {
    if |a| < |b| {
      NextIsNew(a, b);
    }
  }
}
