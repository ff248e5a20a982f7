/** What is owed when a GOODBYE is decided on: nothing. And how closing goes on after a failed
    write or at the other end's request. */
module Closing {
  import L = Lattice
  import D = Dominators
  import R = Receiver
  import V = Delivery
  import opened Protocol
  import Q = RepairRuns
  import N = Answers
  import opened Shutdown

  // ----- What one step leaves owed -----

  lemma DataKeepsAcks(net: Net, m: R.Msg, k: int)
    requires Fair(net) && Data(m) in net.bag && R.Matched(net.world.s) && k in net.world.s.acks
    ensures k in R.Handle(net.world.s, m).acks
  {
    hide D.Sound, R.InvBut, V.LogOk, R.Handle, V.AllArrived;
    assert PacketFair(net, Data(m));
    N.HandleAcksIff(net.world.s, History(net), m);
  }

  lemma ReadKeepsAcks(net: Net, n: nat)
    requires Fair(net) && R.CanRead(net.world.s)
    ensures R.Read(net.world, n).s.acks == net.world.s.acks
  {
    hide D.Sound, R.InvBut, V.LogOk, R.Read, R.CanRead, PacketFair, R.NonEmptySends;
    FairReads(net);
    ReadKeepsArrived(net.world, History(net), n, 0);
  }

  lemma AckStays(net: Net, a: Action, rule: Rule, k: int)
    requires Fair(net) && k in net.world.s.acks
    ensures k in Try(net, a, rule).world.s.acks || Ack(k) in Try(net, a, rule).bag
  {
    hide Fair, R.CanRead, R.Matched, R.Handle, R.Read, D.Begin, D.Retire, D.Abandon, Arrive, ResendPackets;
    if Enabled(net, a) {
      TryKeepsFair(net, a, rule);
      if a.AppRead? {
        ReadKeepsAcks(net, a.n);
      } else if a.Deliver? && a.p.Data? {
        DataArrives(net, a.p.m, rule);
        DataKeepsAcks(net, a.p.m, k);
      } else if a.Deliver? {
        OtherArrives(net, a.p, rule);
      }
    }
  }

  lemma WantedStays(net: Net, a: Action, rule: Rule, k: int)
    requires Fair(net) && k in net.wanted
    ensures R.Matched(net.world.s)
    ensures var next := Try(net, a, rule);
            || (k in next.wanted && next.wanted[k] == net.wanted[k])
            || (a == EmitResend(k) && forall p :: p in ResendPackets(net.world.s, k, net.wanted[k]) ==> p in next.bag)
  {
    hide Fair, R.CanRead, R.Matched, R.Handle, R.Read, D.Begin, D.Retire, D.Abandon, ResendPackets, CheckAcks, CheckResult;
    FairReads(net);
  }

  lemma IrobsStay(net: Net, a: Action, rule: Rule)
    ensures net.irobs.Keys <= Try(net, a, rule).irobs.Keys
  {
    hide R.CanRead, R.Matched, R.Handle, R.Read, D.Begin, D.Retire, D.Abandon, ResendPackets, CheckArrives, D.Acceptable;
    if a.Deliver? && a.p.Check? && R.Matched(net.world.s) {
      CheckLeavesSender(net, a.p.id, rule);
    }
  }

  // ----- Turns -----

  lemma NextTurn(turns: seq<Turn>, rule: Rule, i: nat)
    requires i < |turns|
    ensures var s, t := Play(turns[..i], rule), turns[i];
            Play(turns[..i + 1], rule) == if Can(s, t.side, t.event) then Step(s, t.side, t.event, rule) else s
  {
    hide Can, Step;
    assert turns[..i + 1][..i] == turns[..i];
  }

  /** What `side` sends, and what became of it, after the first `i` turns. */
  ghost function NetAt(turns: seq<Turn>, rule: Rule, side: Side, i: nat): Net
    requires i <= |turns|
  {
    Mine(Play(turns[..i], rule), side).net
  }

  ghost function EndAt(turns: seq<Turn>, rule: Rule, side: Side, i: nat): End
    requires i <= |turns|
  {
    Mine(Play(turns[..i], rule), side).end
  }

  lemma FairAt(turns: seq<Turn>, rule: Rule, side: Side, i: nat)
    requires i <= |turns|
    ensures Fair(NetAt(turns, rule, side, i))
  {
    hide Fair, PastExplained, Settled, Play;
    PlayOk(turns[..i], rule);
  }

  /** The message that a turn is about. */
  function Message(t: Turn): Action {
    match t.event
    case Traffic(a) => a
    case SendCheck(id) => EmitCheck(id)
    case _ => AppRead(0)
  }

  /** A turn changes what a side sends only by one step of that side. */
  lemma TurnNet(turns: seq<Turn>, rule: Rule, side: Side, i: nat)
    requires i < |turns|
    ensures var net, next := NetAt(turns, rule, side, i), NetAt(turns, rule, side, i + 1);
            next == net || (turns[i].side == side && next == Try(net, Message(turns[i]), rule)
                            && (turns[i].event.Traffic? || turns[i].event.SendCheck?))
  {
    hide Can, Try, EndStep, Play;
    NextTurn(turns, rule, i);
  }

  lemma {:induction false} BagStays(turns: seq<Turn>, rule: Rule, side: Side, j: nat, i: nat)
    requires j <= i <= |turns|
    ensures NetAt(turns, rule, side, j).bag <= NetAt(turns, rule, side, i).bag
    ensures NetAt(turns, rule, side, j).irobs.Keys <= NetAt(turns, rule, side, i).irobs.Keys
    decreases i
  {
    hide NetAt, Try;
    if j < i {
      BagStays(turns, rule, side, j, i - 1);
      TurnNet(turns, rule, side, i - 1);
      Q.TryKeepsBag(NetAt(turns, rule, side, i - 1), Message(turns[i - 1]), rule);
      IrobsStay(NetAt(turns, rule, side, i - 1), Message(turns[i - 1]), rule);
    }
  }

  /** Every acknowledgement that was ever scheduled still is, or has been sent. */
  lemma {:induction false} AckOwed(turns: seq<Turn>, rule: Rule, side: Side, j: nat, i: nat, k: int)
    requires j <= i <= |turns| && k in NetAt(turns, rule, side, j).world.s.acks
    ensures k in NetAt(turns, rule, side, i).world.s.acks || Ack(k) in NetAt(turns, rule, side, i).bag
    decreases i
  {
    hide NetAt, Try, Fair;
    if j < i {
      AckOwed(turns, rule, side, j, i - 1, k);
      TurnNet(turns, rule, side, i - 1);
      FairAt(turns, rule, side, i - 1);
      BagStays(turns, rule, side, i - 1, i);
      if k in NetAt(turns, rule, side, i - 1).world.s.acks {
        AckStays(NetAt(turns, rule, side, i - 1), Message(turns[i - 1]), rule, k);
      }
    }
  }

  /** A request that is not waiting any more was sent, as it was first noted, and names what was
      missing then. */
  lemma {:induction false} RequestOwed(turns: seq<Turn>, rule: Rule, side: Side, j: nat, i: nat, k: int)
    returns (m: nat)
    requires j <= i <= |turns| && k in NetAt(turns, rule, side, j).wanted && k !in NetAt(turns, rule, side, i).wanted
    ensures j <= m < i && turns[m] == Turn(side, Traffic(EmitResend(k)))
    ensures var w, net := NetAt(turns, rule, side, j).wanted[k], NetAt(turns, rule, side, m);
            && k in net.wanted && net.wanted[k] == w && R.Matched(net.world.s)
            && forall p :: p in ResendPackets(net.world.s, k, w) ==> p in NetAt(turns, rule, side, i).bag
    decreases i - j
  {
    hide NetAt, Try, Fair, ResendPackets, R.Matched;
    TurnNet(turns, rule, side, j);
    FairAt(turns, rule, side, j);
    WantedStays(NetAt(turns, rule, side, j), Message(turns[j]), rule, k);
    if k in NetAt(turns, rule, side, j + 1).wanted
       && NetAt(turns, rule, side, j + 1).wanted[k] == NetAt(turns, rule, side, j).wanted[k] {
      m := RequestOwed(turns, rule, side, j + 1, i, k);
    } else {
      m := j;
      BagStays(turns, rule, side, j + 1, i);
    }
  }

  /** Every data check that was ever scheduled still is, or has been sent. */
  lemma {:induction false} CheckOwed(turns: seq<Turn>, rule: Rule, side: Side, j: nat, i: nat, k: int)
    requires j <= i <= |turns| && k in EndAt(turns, rule, side, j).checks && k in NetAt(turns, rule, side, j).irobs
    ensures k in EndAt(turns, rule, side, i).checks || Check(k) in NetAt(turns, rule, side, i).bag
    decreases i
  {
    hide NetAt, EndAt, Try, Fair;
    if j < i {
      CheckOwed(turns, rule, side, j, i - 1, k);
      BagStays(turns, rule, side, j, i - 1);
      BagStays(turns, rule, side, i - 1, i);
      if k in EndAt(turns, rule, side, i - 1).checks {
        CheckTurn(turns, rule, side, i - 1, k);
      }
    }
  }

  lemma CheckStays(e: End, out: Net, event: Event, k: int)
    requires k in e.checks && (event.HearGoodbye? ==> e.farewell.Noticed?)
    ensures k in EndStep(e, out, event).checks || event == SendCheck(k)
  {
  }

  lemma CheckTurn(turns: seq<Turn>, rule: Rule, side: Side, i: nat, k: int)
    requires i < |turns| && k in EndAt(turns, rule, side, i).checks && k in NetAt(turns, rule, side, i).irobs
    ensures k in EndAt(turns, rule, side, i + 1).checks || Check(k) in NetAt(turns, rule, side, i + 1).bag
  {
    hide Play, Try, Fair, EndStep, NothingToSend, Enabled;
    NextTurn(turns, rule, i);
    FairAt(turns, rule, side, i);
    CheckEmitted(NetAt(turns, rule, side, i), k, rule);
    var s, t := Play(turns[..i], rule), turns[i];
    if t.side == side && Can(s, side, t.event) {
      CheckStays(EndAt(turns, rule, side, i), NetAt(turns, rule, side, i), t.event, k);
    }
  }

  lemma CheckEmitted(net: Net, k: int, rule: Rule)
    requires Fair(net) && k in net.irobs
    ensures Check(k) in Try(net, EmitCheck(k), rule).bag
  {
    hide Fair, R.CanRead, R.Matched;
    TryKeepsFair(net, EmitCheck(k), rule);
  }

  // ----- The decision -----

  /** A thread can decide on the GOODBYE exactly when its end is closing and has sent none and is
      sending none, every IROB sent is acknowledged or dropped, and no acknowledgement, request or
      data check is waiting to go out. */
  lemma DecisionIff(s: Session, side: Side, thread: nat)
    ensures var mine, out, incoming := Mine(s, side).end, Mine(s, side).net, Mine(s, Other(side)).net;
            Can(s, side, Decide(thread)) <==>
              && mine.shuttingDown && !mine.goodbyeSent && !mine.sendingGoodbye
              && out.track.lattice.live == map[] && mine.checks == {}
              && incoming.world.s.acks == {} && incoming.wanted == map[]
  {
  }

  ghost predicate Decides(turns: seq<Turn>, rule: Rule, side: Side, i: nat) {
    i < |turns| && turns[i].side == side && turns[i].event.Decide? && Can(Play(turns[..i], rule), side, turns[i].event)
  }

  /** Over every session, at the decision: each acknowledgement scheduled at any time before has been
      sent, and so has each data check of an IROB. */
  lemma SentBeforeGoodbye(turns: seq<Turn>, rule: Rule, side: Side, j: nat, i: nat, k: int)
    requires j <= i && Decides(turns, rule, side, i)
    ensures k in NetAt(turns, rule, Other(side), j).world.s.acks ==> Ack(k) in NetAt(turns, rule, Other(side), i).bag
    ensures k in EndAt(turns, rule, side, j).checks && k in NetAt(turns, rule, side, j).irobs ==>
              Check(k) in NetAt(turns, rule, side, i).bag
  {
    hide Play, Fair;
    DecisionIff(Play(turns[..i], rule), side, turns[i].event.thread);
    if k in NetAt(turns, rule, Other(side), j).world.s.acks {
      AckOwed(turns, rule, Other(side), j, i, k);
    }
    if k in EndAt(turns, rule, side, j).checks && k in NetAt(turns, rule, side, j).irobs {
      CheckOwed(turns, rule, side, j, i, k);
    }
  }

  /** And nothing that was wanted at any time before was left unasked: the request has been sent. */
  lemma AskedBeforeGoodbye(turns: seq<Turn>, rule: Rule, side: Side, j: nat, i: nat, k: int) returns (m: nat)
    requires j <= i && Decides(turns, rule, side, i) && k in NetAt(turns, rule, Other(side), j).wanted
    ensures j <= m < i && turns[m] == Turn(Other(side), Traffic(EmitResend(k)))
    ensures var w, net := NetAt(turns, rule, Other(side), j).wanted[k], NetAt(turns, rule, Other(side), m);
            && k in net.wanted && net.wanted[k] == w && R.Matched(net.world.s)
            && forall p :: p in ResendPackets(net.world.s, k, w) ==> p in NetAt(turns, rule, Other(side), i).bag
  {
    hide Play, Fair, ResendPackets;
    DecisionIff(Play(turns[..i], rule), side, turns[i].event.thread);
    m := RequestOwed(turns, rule, Other(side), j, i, k);
  }

  // ----- Closing at the other end's request, and after a failed write -----

  /** An end that hears the other's GOODBYE before it has begun to close begins now, knows that the
      other is done, and has every IROB it still holds checked. */
  lemma HearingCloses(s: Session, side: Side, rule: Rule)
    requires Can(s, side, HearGoodbye) && !Mine(s, side).end.farewell.sawClosing && !Mine(s, side).end.shuttingDown
    ensures var was, now := Mine(s, side), Mine(Step(s, side, HearGoodbye, rule), side);
            && now.end.shuttingDown && now.end.remoteShutdown && now.net == was.net
            && now.end.checks == was.end.checks + was.net.track.lattice.live.Keys
            && now.end.goodbyeSent == was.end.goodbyeSent && now.end.sendingGoodbye == was.end.sendingGoodbye
  {
  }

  /** So over every session, when such an end decides on its own GOODBYE, it has sent a data check
      for every IROB it held when it heard the other's. */
  lemma HeldWereChecked(turns: seq<Turn>, rule: Rule, side: Side, j: nat, i: nat, k: int)
    requires j < i && Decides(turns, rule, side, i)
    requires turns[j] == Turn(side, HearGoodbye) && Can(Play(turns[..j], rule), side, HearGoodbye)
    requires var e := EndAt(turns, rule, side, j); !e.farewell.sawClosing && !e.shuttingDown
    requires k in NetAt(turns, rule, side, j).track.lattice.live
    ensures Check(k) in NetAt(turns, rule, side, i).bag
  {
    hide Play, Fair, Can, Step;
    NextTurn(turns, rule, j);
    HearingCloses(Play(turns[..j], rule), side, rule);
    FairAt(turns, rule, side, j);
    LiveKnown(NetAt(turns, rule, side, j), k);
    SentBeforeGoodbye(turns, rule, side, j + 1, i, k);
  }

  lemma LiveKnown(net: Net, k: int)
    requires Fair(net) && k in net.track.lattice.live
    ensures k in net.irobs
  {
    hide ReceiverOk, BagFair, IrobOk, D.Undominated, D.Dominating, D.AnonymousOrdered;
  }

  /** A thread that could not write the GOODBYE leaves things as they were before it decided: as soon
      as nothing is owed, any thread can decide again. One that could write it is the last. */
  lemma FailedWriteFrees(s: Session, side: Side, thread: nat, ok: bool, rule: Rule, next: nat)
    requires SessionOk(s) && thread in Mine(s, side).end.writers && !Mine(s, side).end.goodbyeSent
    requires Mine(s, side).end.shuttingDown
    ensures var mine, out, incoming := Mine(s, side).end, Mine(s, side).net, Mine(s, Other(side)).net;
            && Can(s, side, WriteEnds(thread, ok))
            && !Can(s, side, Decide(next))
            && (Can(Step(s, side, WriteEnds(thread, ok), rule), side, Decide(next)) <==>
                  && !ok && out.track.lattice.live == map[] && mine.checks == {}
                  && incoming.world.s.acks == {} && incoming.wanted == map[])
  {
    hide Fair, PastExplained, Settled;
    DecisionIff(Step(s, side, WriteEnds(thread, ok), rule), side, next);
  }

  // ----- What the records mean -----

  lemma OrderStays(net: Net, a: Action, rule: Rule)
    ensures net.track.order <= Try(net, a, rule).track.order
  {
    hide R.CanRead, R.Matched, R.Handle, R.Read, ResendPackets, CheckArrives, D.Acceptable, L.Closure, L.Inserted;
    if a.Deliver? && a.p.Check? && R.Matched(net.world.s) {
      CheckLeavesSender(net, a.p.id, rule);
    }
  }

  lemma AcceptedStep(e: End, out: Net, event: Event, k: int)
    requires event.HearGoodbye? ==> e.farewell.Noticed?
    ensures k in EndStep(e, out, event).accepted <==> if event.Decide? then k in out.track.order else k in e.accepted
  {
  }

  /** Whatever the application had sent when a GOODBYE was decided on counts as accepted from then on. */
  lemma {:induction false} AcceptedSince(turns: seq<Turn>, rule: Rule, side: Side, i: nat, j: nat, k: int)
    requires Decides(turns, rule, side, i) && i < j <= |turns| && k in NetAt(turns, rule, side, i).track.order
    ensures k in EndAt(turns, rule, side, j).accepted && k in NetAt(turns, rule, side, j).track.order
    decreases j
  {
    hide Play, Try, EndStep, NothingToSend, Enabled;
    var s, t := Play(turns[..j - 1], rule), turns[j - 1];
    NextTurn(turns, rule, j - 1);
    TurnNet(turns, rule, side, j - 1);
    OrderStays(NetAt(turns, rule, side, j - 1), Message(t), rule);
    if i < j - 1 {
      AcceptedSince(turns, rule, side, i, j - 1, k);
    }
    if t.side == side && Can(s, side, t.event) {
      AcceptedStep(EndAt(turns, rule, side, j - 1), NetAt(turns, rule, side, j - 1), t.event, k);
    }
  }

  /** How often a side's GOODBYE was written. */
  ghost function Wrote(turns: seq<Turn>, rule: Rule, side: Side): nat {
    if turns == [] then 0
    else
      var before, t := turns[..|turns| - 1], turns[|turns| - 1];
      Wrote(before, rule, side)
      + if t.side == side && t.event.WriteEnds? && t.event.ok && Can(Play(before, rule), side, t.event) then 1 else 0
  }

  lemma WrittenStep(e: End, out: Net, event: Event)
    requires event.HearGoodbye? ==> e.farewell.Noticed?
    ensures EndStep(e, out, event).written == e.written + if event.WriteEnds? && event.ok then 1 else 0
  {
    match event
    case HearGoodbye => ClosingWrites(e, out);
    case Close => ClosingWrites(e, out);
    case _ =>
  }

  lemma ClosingWrites(e: End, out: Net)
    ensures CloseEnd(e, true, out).written == CloseEnd(e, false, out).written == e.written
  {
  }

  lemma HearingNoticed(s: Session, side: Side, event: Event)
    requires Can(s, side, event)
    ensures event.HearGoodbye? ==> Mine(s, side).end.farewell.Noticed?
  {
    hide NothingToSend, Enabled;
  }

  lemma {:induction false} WrittenIs(turns: seq<Turn>, rule: Rule, side: Side)
    ensures Mine(Play(turns, rule), side).end.written == Wrote(turns, rule, side)
  {
    hide NetStep, Can, EndStep;
    if turns != [] {
      var before, t := turns[..|turns| - 1], turns[|turns| - 1];
      WrittenIs(before, rule, side);
      if t.side == side && Can(Play(before, rule), side, t.event) {
        HearingNoticed(Play(before, rule), side, t.event);
        WrittenStep(Mine(Play(before, rule), side).end, Mine(Play(before, rule), side).net, t.event);
      }
    }
  }

  /** Over every session, in terms of its turns: once an end has acted on the other's GOODBYE, the other
      has written it, once; and whatever the other's application had sent when that, or an earlier
      GOODBYE of its, was decided on has been passed on or is held in full, unless it was dropped. */
  lemma GoodbyeMeans(turns: seq<Turn>, rule: Rule, side: Side, i: nat, k: int)
    requires rule.AsDocumented? || SafePlay(turns, rule, Other(side))
    requires Mine(Play(turns, rule), side).end.farewell.Heard? && Decides(turns, rule, Other(side), i)
    ensures Wrote(turns, rule, Other(side)) == 1
    ensures var theirs := Mine(Play(turns, rule), Other(side));
            k in NetAt(turns, rule, Other(side), i).track.order ==>
              Held(theirs.net, k) || k in theirs.net.track.lattice.dropped
  {
    hide Play, SafePlay, Held, Wrote, Decides;
    assert turns[..|turns|] == turns;
    WrittenIs(turns, rule, Other(side));
    HeardWritten(turns, rule, side);
    GoodbyeAfterEverything(turns, rule, side, k);
    InTurns(turns, rule, Other(side), i);
    if k in NetAt(turns, rule, Other(side), i).track.order {
      AcceptedSince(turns, rule, Other(side), i, |turns|, k);
    }
  }

  lemma InTurns(turns: seq<Turn>, rule: Rule, side: Side, i: nat)
    requires Decides(turns, rule, side, i)
    ensures i < |turns|
  {
  }

  lemma HeardWritten(turns: seq<Turn>, rule: Rule, side: Side)
    requires Mine(Play(turns, rule), side).end.farewell.Heard?
    ensures Mine(Play(turns, rule), Other(side)).end.written == 1
  {
    hide Play, HalfOk;
    PlayOk(turns, rule);
  }

  /** What becomes of the other's GOODBYE: it can be noticed once it was written and not before, and
      what counts then is whether this end was closing; acting on it, that an end began to close in
      between is what makes the difference. */
  lemma FarewellSteps(s: Session, side: Side, rule: Rule)
    requires SessionOk(s)
    ensures var e, o := Mine(s, side).end, Mine(s, Other(side)).end;
            && (Can(s, side, NoticeGoodbye) <==> o.written > 0 && e.farewell.Unheard?)
            && (Can(s, side, NoticeGoodbye) ==>
                  Mine(Step(s, side, NoticeGoodbye, rule), side).end == e.(farewell := Noticed(e.shuttingDown)))
            && (Can(s, side, HearGoodbye) <==> e.farewell.Noticed?)
            && (Can(s, side, HearGoodbye) ==>
                  var t := Mine(Step(s, side, HearGoodbye, rule), side).end;
                  && t.farewell.Heard? && t.shuttingDown
                  && (t.farewell.raced <==> !e.farewell.sawClosing && e.shuttingDown)
                  && (t.remoteShutdown <==> e.remoteShutdown || !t.farewell.raced))
  {
    hide Fair, PastExplained, Settled, OneGoodbye;
  }

  /** The rest of what an end does to itself: checks are listed as asked and unlisted as they go out;
      closing of its own accord has nothing checked; giving up sets every flag and sends nothing. */
  lemma OwnSteps(e: End, out: Net, ids: set<int>, id: int)
    ensures EndStep(e, out, ScheduleChecks(ids)) == e.(checks := e.checks + ids)
    ensures EndStep(e, out, SendCheck(id)) == e.(checks := e.checks - {id})
    ensures !e.shuttingDown ==> EndStep(e, out, Close) == e.(shuttingDown := true)
    ensures e.shuttingDown ==> EndStep(e, out, Close) == e
    ensures EndStep(e, out, GiveUp) == e.(shuttingDown := true, remoteShutdown := true, goodbyeSent := true, gaveUp := true)
  {
  }

  /** A data check can go out exactly if it is listed, and is then in flight and not listed any more. */
  lemma CheckGoesOut(s: Session, side: Side, rule: Rule, id: int)
    requires SessionOk(s)
    ensures Can(s, side, SendCheck(id)) <==> id in Mine(s, side).end.checks
    ensures Can(s, side, SendCheck(id)) ==>
              var h, t := Mine(s, side), Mine(Step(s, side, SendCheck(id), rule), side);
              && t.end == h.end.(checks := h.end.checks - {id})
              && (id in h.net.irobs ==> t.net == Post(h.net, Check(id))) && (id !in h.net.irobs ==> t.net == h.net)
  {
    hide PastExplained, Settled, OneGoodbye, Told, Fair, Try, EndStep, NothingToSend;
    var h := Mine(s, side);
    OwnSteps(h.end, h.net, {}, id);
    CheckPosted(h.net, id, rule);
  }

  lemma CheckPosted(net: Net, id: int, rule: Rule)
    requires Fair(net)
    ensures Try(net, EmitCheck(id), rule) == if id in net.irobs then Post(net, Check(id)) else net
  {
    hide Fair, R.Matched, R.CanRead;
    TryKeepsFair(net, EmitCheck(id), rule);
  }

  /** Traffic is a step of the side that sends, and of nothing else. */
  lemma TrafficGoes(s: Session, side: Side, a: Action, rule: Rule)
    requires SessionOk(s)
    ensures Can(s, side, Traffic(a)) <==> Enabled(Mine(s, side).net, a) && !a.EmitCheck?
    ensures var net := Mine(s, side).net;
            Can(s, side, Traffic(a)) ==>
              && SameIds(net) && R.Matched(net.world.s) && R.CanRead(net.world.s)
              && Step(s, side, Traffic(a), rule) == With(s, side, Half(Mine(s, side).end, Act(net, a, rule)))
  {
    hide PastExplained, Settled, OneGoodbye, Told, Fair, NothingToSend, Enabled, Act, R.Matched, R.CanRead;
    TryKeepsFair(Mine(s, side).net, a, rule);
  }
}
