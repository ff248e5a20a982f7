/** Closing a multisocket: the GOODBYE that each end sends once, when it has nothing left to
    send, and what the other end holds when it gets it. */
module Shutdown {
  import opened Sequences
  import L = Lattice
  import D = Dominators
  import R = Receiver
  import V = Delivery
  import opened Protocol

  /** What became of the other end's GOODBYE: not read yet; read by a receiver thread that saw
      this end closing, or not, and has yet to act on it; or acted on, where `raced` says that
      the end started to close between the two. */
  datatype Farewell = Unheard | Noticed(sawClosing: bool) | Heard(raced: bool)

  /** One end's flags. `writers` are the sender threads that have let go of the lock to write a
      GOODBYE; `written` counts those that succeeded; `accepted` is what the application had
      sent when the last GOODBYE was decided on; `gaveUp` says the connection was given up;
      `checks` are the IROBs whose data checks are still to go out. */
  datatype End = End(shuttingDown: bool, sendingGoodbye: bool, goodbyeSent: bool, remoteShutdown: bool,
                     writers: set<nat>, written: nat, accepted: set<int>, farewell: Farewell, gaveUp: bool,
                     checks: set<int>)

  /** An end with what it sends. */
  datatype Half = Half(end: End, net: Net)

  datatype Session = Session(left: Half, right: Half)

  datatype Side = Left | Right

  function Fresh(): End {
    End(false, false, false, false, {}, 0, {}, Unheard, false, {})
  }

  function NewHalf(): Half {
    Half(Fresh(), NewNet())
  }

  function NewSession(): Session {
    Session(NewHalf(), NewHalf())
  }

  function Mine(s: Session, side: Side): Half {
    if side.Left? then s.left else s.right
  }

  function Other(side: Side): Side {
    if side.Left? then Right else Left
  }

  function With(s: Session, side: Side, h: Half): Session {
    if side.Left? then s.(left := h) else s.(right := h)
  }

  /** `WriteEnds` is a thread that has the lock back after writing, or failing to write, its
      GOODBYE. A receiver thread looks at the flags before it takes the lock to act on a GOODBYE.
      Data checks go out one by one. `GiveUp` stands for every way of giving up on the connection. */
  datatype Event =
    | Traffic(a: Action)
    | ScheduleChecks(ids: set<int>)
    | SendCheck(id: int)
    | Close
    | Decide(thread: nat)
    | WriteEnds(thread: nat, ok: bool)
    | NoticeGoodbye
    | HearGoodbye
    | GiveUp

  /** Nothing outgoing, no acknowledgement or request owed for what comes in, no check to send. */
  predicate NothingToSend(out: Net, incoming: Net, checks: set<int>) {
    && out.track.lattice.live == map[]
    && incoming.world.s.acks == {} && incoming.wanted == map[]
    && checks == {}
  }

  /** Whether an end can take a step that is not traffic. */
  predicate EndCan(mine: End, theirs: End, idle: bool, e: Event) {
    match e
    case SendCheck(id) => id in mine.checks
    case Decide(thread) => mine.shuttingDown && idle && !mine.goodbyeSent && !mine.sendingGoodbye
    case WriteEnds(thread, ok) => thread in mine.writers
    case NoticeGoodbye => theirs.written > 0 && mine.farewell.Unheard?
    case HearGoodbye => mine.farewell.Noticed?
    case _ => true
  }

  ghost predicate Can(s: Session, side: Side, e: Event) {
    var h, o := Mine(s, side), Mine(s, Other(side));
    match e
    case Traffic(a) => Enabled(h.net, a) && !a.EmitCheck?
    case _ => EndCan(h.end, o.end, NothingToSend(h.net, o.net, h.end.checks), e)
  }

  /** Closing at the other end's request has every outgoing IROB checked. */
  function CloseEnd(e: End, remoteInitiated: bool, out: Net): End {
    if e.shuttingDown then e
    else if remoteInitiated then
      e.(shuttingDown := true, remoteShutdown := true, checks := e.checks + out.track.lattice.live.Keys)
    else e.(shuttingDown := true)
  }

  function DecideEnd(e: End, thread: nat, out: Net): End {
    e.(sendingGoodbye := true, writers := e.writers + {thread}, accepted := Elements(out.track.order))
  }

  function WriteEnd(e: End, thread: nat, ok: bool): End {
    var t := e.(writers := e.writers - {thread});
    if ok then t.(goodbyeSent := true, written := t.written + 1) else t.(sendingGoodbye := false)
  }

  /** A GOODBYE that answers ours ends the shutdown; one that comes first starts it here. */
  function HearEnd(e: End, out: Net): End
    requires e.farewell.Noticed?
  {
    var t := if e.farewell.sawClosing then e.(remoteShutdown := true) else CloseEnd(e, true, out);
    t.(farewell := Heard(!e.farewell.sawClosing && e.shuttingDown))
  }

  function GiveUpEnd(e: End): End {
    e.(shuttingDown := true, remoteShutdown := true, goodbyeSent := true, gaveUp := true)
  }

  function EndStep(mine: End, out: Net, e: Event): End
    requires e.HearGoodbye? ==> mine.farewell.Noticed?
  {
    match e
    case Traffic(_) => mine
    case ScheduleChecks(ids) => mine.(checks := mine.checks + ids)
    case SendCheck(id) => mine.(checks := mine.checks - {id})
    case Close => CloseEnd(mine, false, out)
    case Decide(thread) => DecideEnd(mine, thread, out)
    case WriteEnds(thread, ok) => WriteEnd(mine, thread, ok)
    case NoticeGoodbye => mine.(farewell := Noticed(mine.shuttingDown))
    case HearGoodbye => HearEnd(mine, out)
    case GiveUp => GiveUpEnd(mine)
  }

  /** The message that an event is about, if any. */
  ghost function NetStep(net: Net, e: Event, rule: Rule): Net {
    match e
    case Traffic(a) => Try(net, a, rule)
    case SendCheck(id) => Try(net, EmitCheck(id), rule)
    case _ => net
  }

  ghost function Step(s: Session, side: Side, e: Event, rule: Rule): Session
    requires Can(s, side, e)
  {
    var h := Mine(s, side);
    With(s, side, Half(EndStep(h.end, h.net, e), NetStep(h.net, e, rule)))
  }

  // ----- The invariant -----

  /** The sender is done with an IROB only when it was acknowledged or dropped. */
  ghost predicate PastExplained(net: Net) {
    forall k :: k in net.track.lattice.past ==> k in net.acked || k in net.track.lattice.dropped
  }

  /** Everything accepted was acknowledged or dropped. */
  ghost predicate Settled(h: Half) {
    forall k :: k in h.end.accepted ==> k in h.net.acked || k in h.net.track.lattice.dropped
  }

  ghost predicate OneGoodbye(e: End) {
    && (e.writers != {} ==> e.sendingGoodbye && e.written == 0)
    && |e.writers| <= 1 && e.written <= 1
    && (e.written == 1 ==> e.sendingGoodbye && e.goodbyeSent)
  }

  ghost predicate HalfOk(h: Half) {
    && Fair(h.net) && PastExplained(h.net) && Settled(h) && OneGoodbye(h.end) && Told(h.end)
  }

  /** An end believes the other is done exactly when it gave up or has acted on its GOODBYE
      without a race. */
  ghost predicate Told(e: End) {
    && (e.farewell.Noticed? && e.farewell.sawClosing ==> e.shuttingDown)
    && (e.farewell.Heard? ==> e.shuttingDown)
    && (e.remoteShutdown <==> e.gaveUp || (e.farewell.Heard? && !e.farewell.raced))
    && (e.gaveUp ==> e.shuttingDown)
  }

  ghost predicate SessionOk(s: Session) {
    && HalfOk(s.left) && HalfOk(s.right)
    && (!s.left.end.farewell.Unheard? ==> s.right.end.written == 1)
    && (!s.right.end.farewell.Unheard? ==> s.left.end.written == 1)
  }

  // ----- Traffic -----

  /** Acknowledged and dropped are for good, and nothing else is forgotten by the sender. */
  ghost predicate Accounted(net: Net, next: Net) {
    && net.acked <= next.acked && net.track.lattice.dropped <= next.track.lattice.dropped
    && forall k :: k in next.track.lattice.past ==>
         k in net.track.lattice.past || k in next.acked || k in next.track.lattice.dropped
  }

  lemma ArriveAccounts(net: Net, p: Packet, rule: Rule)
    requires R.Matched(net.world.s)
    ensures Accounted(net, Arrive(net, p, rule))
  {
    hide R.Handle, CheckArrives, Serve, R.Matched;
    if p.Check? {
      CheckLeavesSender(net, p.id, rule);
    }
  }

  lemma ActAccounts(net: Net, a: Action, rule: Rule)
    requires SameIds(net) && R.Matched(net.world.s) && R.CanRead(net.world.s) && Enabled(net, a)
    ensures Accounted(net, Act(net, a, rule))
  {
    hide Arrive, R.Read, R.CanRead, R.Matched, ResendPackets, L.CorrectDeps, L.Adopt, L.Link, L.Closure;
    if a.Deliver? {
      ArriveAccounts(net, a.p, rule);
    }
  }

  lemma AccountedKeeps(h: Half, next: Net)
    requires PastExplained(h.net) && Settled(h) && Accounted(h.net, next)
    ensures PastExplained(next) && Settled(h.(net := next))
  {
  }

  lemma TryAccounts(net: Net, a: Action, rule: Rule)
    requires Fair(net)
    ensures Accounted(net, Try(net, a, rule))
  {
    hide Fair, Act, R.Matched, R.CanRead;
    if Enabled(net, a) {
      TryKeepsFair(net, a, rule);
      ActAccounts(net, a, rule);
    }
  }

  lemma TrafficKeeps(h: Half, a: Action, rule: Rule)
    requires HalfOk(h)
    ensures HalfOk(h.(net := Try(h.net, a, rule)))
  {
    hide Fair, Try, PastExplained, Settled, OneGoodbye, Accounted;
    TryKeepsFair(h.net, a, rule);
    TryAccounts(h.net, a, rule);
    AccountedKeeps(h, Try(h.net, a, rule));
  }

  // ----- Flags -----

  /** When the decision is made, every IROB accepted so far has been acknowledged or dropped. */
  lemma NothingLeftBehind(net: Net)
    requires Fair(net) && PastExplained(net) && net.track.lattice.live == map[]
    ensures forall k :: k in Elements(net.track.order) ==> k in net.acked || k in net.track.lattice.dropped
  {
    hide ReceiverOk, BagFair, IrobOk, D.Undominated, D.Dominating, D.AnonymousOrdered;
    forall k | k in Elements(net.track.order)
      ensures k in net.track.lattice.past
    {
      assert k in net.track.order;
      assert k in net.track.deps;
    }
  }

  lemma DecideKeeps(h: Half, thread: nat)
    requires HalfOk(h) && h.net.track.lattice.live == map[] && !h.end.sendingGoodbye
    ensures HalfOk(h.(end := DecideEnd(h.end, thread, h.net)))
  {
    hide Fair, Elements;
    NothingLeftBehind(h.net);
    assert h.end.writers == {};
    assert h.end.writers + {thread} == {thread};
  }

  lemma WriteKeeps(h: Half, thread: nat, ok: bool)
    requires HalfOk(h) && thread in h.end.writers
    ensures HalfOk(h.(end := WriteEnd(h.end, thread, ok)))
  {
    hide Fair;
    OnlyWriter(h.end.writers, thread);
  }

  lemma OnlyWriter(writers: set<nat>, thread: nat)
    requires thread in writers && |writers| <= 1
    ensures writers - {thread} == {}
  {
    assert |writers - {thread}| == |writers| - 1;
  }

  lemma FlagsKeep(h: Half, end: End)
    requires HalfOk(h) && Told(end)
    requires end == h.end.(shuttingDown := end.shuttingDown, remoteShutdown := end.remoteShutdown,
                           goodbyeSent := end.goodbyeSent, farewell := end.farewell, gaveUp := end.gaveUp,
                           checks := end.checks)
    requires h.end.goodbyeSent ==> end.goodbyeSent
    ensures HalfOk(h.(end := end))
  {
    hide Fair;
  }

  lemma StepKeepsOk(s: Session, side: Side, e: Event, rule: Rule)
    requires SessionOk(s) && Can(s, side, e)
    ensures SessionOk(Step(s, side, e, rule))
  {
    hide Fair, PastExplained, Settled, Enabled, Try;
    var h := Mine(s, side);
    match e
    case Traffic(a) => TrafficKeeps(h, a, rule);
    case SendCheck(id) =>
      FlagsKeep(h, EndStep(h.end, h.net, e));
      TrafficKeeps(h.(end := EndStep(h.end, h.net, e)), EmitCheck(id), rule);
    case Decide(thread) => DecideKeeps(h, thread);
    case WriteEnds(thread, ok) => WriteKeeps(h, thread, ok);
    case _ => FlagsKeep(h, EndStep(h.end, h.net, e));
  }

  // ----- Whole sessions -----

  datatype Turn = Turn(side: Side, event: Event)

  /** Turns that cannot be taken are skipped. */
  ghost function Play(turns: seq<Turn>, rule: Rule): Session {
    if turns == [] then NewSession()
    else
      var s, t := Play(turns[..|turns| - 1], rule), turns[|turns| - 1];
      if Can(s, t.side, t.event) then Step(s, t.side, t.event, rule) else s
  }

  lemma {:induction false} PlayOk(turns: seq<Turn>, rule: Rule)
    ensures SessionOk(Play(turns, rule))
  {
    hide SessionOk, Can, Step;
    if turns == [] {
      NewSessionOk();
    } else {
      var s, t := Play(turns[..|turns| - 1], rule), turns[|turns| - 1];
      PlayOk(turns[..|turns| - 1], rule);
      if Can(s, t.side, t.event) {
        StepKeepsOk(s, t.side, t.event, rule);
      }
    }
  }

  lemma NewSessionOk()
    ensures SessionOk(NewSession())
  {
    NewNetFair();
    hide Fair;
  }

  /** Over every session, with any number of sender threads on each side: each end succeeds in
      writing at most one GOODBYE, and no two threads are ever writing one. */
  lemma AtMostOneGoodbye(turns: seq<Turn>, rule: Rule, side: Side)
    ensures var e := Mine(Play(turns, rule), side).end;
            e.written <= 1 && |e.writers| <= 1 && (e.written == 1 ==> e.writers == {})
  {
    PlayOk(turns, rule);
    var s := Play(turns, rule);
    hide Play;
  }

  /** No data check for what `side` sends reaches a trapped IROB. */
  ghost predicate SafePlay(turns: seq<Turn>, rule: Rule, side: Side) {
    turns == []
    || (var before, t := turns[..|turns| - 1], turns[|turns| - 1];
        && SafePlay(before, rule, side)
        && (t.side == side && t.event.Traffic? ==> Safe(Mine(Play(before, rule), side).net, t.event.a, rule)))
  }

  lemma StepKeepsAcks(net: Net, e: Event, rule: Rule)
    requires Good(net) && (e.Traffic? ==> Safe(net, e.a, rule))
    ensures AcksHold(NetStep(net, e, rule))
  {
    hide Fair, AcksHold, Safe, Try;
    match e
    case Traffic(a) => StepKeepsAcksIff(net, a, rule);
    case SendCheck(id) =>
      CheckSafe(net, id, rule);
      StepKeepsAcksIff(net, EmitCheck(id), rule);
    case _ =>
  }

  lemma CheckSafe(net: Net, id: int, rule: Rule)
    ensures Safe(net, EmitCheck(id), rule)
  {
  }

  lemma {:induction false} PlayKeepsAcks(turns: seq<Turn>, rule: Rule, side: Side)
    requires rule.AsDocumented? || SafePlay(turns, rule, side)
    ensures AcksHold(Mine(Play(turns, rule), side).net)
  {
    hide Fair, AcksHold, Safe, Can, NetStep, EndStep;
    if turns == [] {
      NothingAcknowledged();
    } else {
      var before, t := turns[..|turns| - 1], turns[|turns| - 1];
      PlayKeepsAcks(before, rule, side);
      PlayOk(before, rule);
      var net := Mine(Play(before, rule), side).net;
      if t.side == side && t.event.Traffic? {
        DocumentedSafe(net, t.event.a, rule);
      }
      if t.side == side {
        StepKeepsAcks(net, t.event, rule);
      }
    }
  }

  /** Over every session: once an end has learned from the other's GOODBYE that the other is
      done, it has passed on or still holds every byte of every IROB the other accepted before
      deciding to send it, unless that IROB was dropped. */
  lemma GoodbyeAfterEverything(turns: seq<Turn>, rule: Rule, side: Side, k: int)
    requires rule.AsDocumented? || SafePlay(turns, rule, Other(side))
    ensures var s := Play(turns, rule);
            var mine, theirs := Mine(s, side), Mine(s, Other(side));
            && (mine.end.remoteShutdown && !mine.end.gaveUp ==> mine.end.farewell.Heard? && theirs.end.written == 1)
            && (mine.end.farewell.Heard? && k in theirs.end.accepted ==>
                  Held(theirs.net, k) || k in theirs.net.track.lattice.dropped)
  {
    hide Play, SafePlay, Held, Fair, V.AllArrived, PastExplained, SessionOk, AcksHold;
    PlayOk(turns, rule);
    PlayKeepsAcks(turns, rule, Other(side));
    var s := Play(turns, rule);
    TheySaidGoodbye(s, side);
    if k in Mine(s, Other(side)).end.accepted {
      AcceptedHeld(Mine(s, Other(side)), k);
    }
  }

  lemma TheySaidGoodbye(s: Session, side: Side)
    requires SessionOk(s)
    ensures var mine, theirs := Mine(s, side), Mine(s, Other(side));
            && HalfOk(theirs)
            && (mine.end.remoteShutdown && !mine.end.gaveUp ==> mine.end.farewell.Heard?)
            && (mine.end.farewell.Heard? ==> theirs.end.written == 1)
  {
    hide Fair, PastExplained, Settled;
  }

  lemma AcceptedHeld(h: Half, k: int)
    requires HalfOk(h) && AcksHold(h.net) && k in h.end.accepted
    ensures Held(h.net, k) || k in h.net.track.lattice.dropped
  {
    hide Held, Fair, V.AllArrived, PastExplained;
    if k !in h.net.track.lattice.dropped {
      assert Acknowledged(h.net, k);
      ArrivedHeld(h.net, k);
    }
  }

  /** An end that acted on the other's GOODBYE knows that the other is done exactly when it did
      not start to close just then, unless it gave up anyway. */
  lemma ToldUnlessRaced(turns: seq<Turn>, rule: Rule, side: Side)
    ensures var e := Mine(Play(turns, rule), side).end;
            e.farewell.Heard? && !e.gaveUp ==> (e.remoteShutdown <==> !e.farewell.raced)
  {
    PlayOk(turns, rule);
    var s := Play(turns, rule);
    hide Play, Fair, Settled, PastExplained;
  }

  /** The left end closes and says GOODBYE; the right end starts to close between reading it and
      acting on it. */
  function RacingTurns(): seq<Turn> {
    [Turn(Left, Close), Turn(Left, Decide(0)), Turn(Left, WriteEnds(0, true)),
     Turn(Right, NoticeGoodbye), Turn(Right, Close), Turn(Right, HearGoodbye)]
  }

  ghost function PlayFrom(s: Session, turns: seq<Turn>, rule: Rule): Session
    decreases |turns|
  {
    if turns == [] then s
    else if Can(s, turns[0].side, turns[0].event) then
      PlayFrom(Step(s, turns[0].side, turns[0].event, rule), turns[1..], rule)
    else PlayFrom(s, turns[1..], rule)
  }

  lemma {:induction false} PlayAppend(a: seq<Turn>, b: seq<Turn>, rule: Rule)
    ensures Play(a + b, rule) == PlayFrom(Play(a, rule), b, rule)
    decreases |b|
  {
    hide Can, Step;
    if b == [] {
      assert a + b == a;
    } else {
      var first := a + [b[0]];
      assert first[..|first| - 1] == a && first + b[1..] == a + b;
      PlayAppend(first, b[1..], rule);
    }
  }

  /** Two ends that never sent anything. */
  function Quiet(l: End, r: End): Session {
    Session(Half(l, NewNet()), Half(r, NewNet()))
  }

  lemma QuietTurn(l: End, r: End, turns: seq<Turn>, i: nat, rule: Rule)
    requires i < |turns| && Can(Quiet(l, r), turns[i].side, turns[i].event)
    ensures var next := Step(Quiet(l, r), turns[i].side, turns[i].event, rule);
            PlayFrom(Quiet(l, r), turns[i..], rule) == PlayFrom(next, turns[i + 1..], rule)
  {
    hide Can, Step, Quiet;
    assert turns[i..][0] == turns[i] && turns[i..][1..] == turns[i + 1..];
  }

  lemma NothingSent(checks: set<int>)
    ensures NothingToSend(NewNet(), NewNet(), checks) <==> checks == {}
  {
  }

  /** A step of one end that sends nothing. */
  predicate Local(e: Event) {
    !e.Traffic? && !e.SendCheck?
  }

  lemma QuietStep(l: End, r: End, e: Event, rule: Rule)
    requires Local(e)
    ensures Can(Quiet(l, r), Left, e) <==> EndCan(l, r, l.checks == {}, e)
    ensures Can(Quiet(l, r), Right, e) <==> EndCan(r, l, r.checks == {}, e)
    ensures EndCan(l, r, l.checks == {}, e) ==> Step(Quiet(l, r), Left, e, rule) == Quiet(EndStep(l, NewNet(), e), r)
    ensures EndCan(r, l, r.checks == {}, e) ==> Step(Quiet(l, r), Right, e, rule) == Quiet(l, EndStep(r, NewNet(), e))
  {
    NothingSent(l.checks);
    NothingSent(r.checks);
    hide NewNet, NothingToSend, EndCan, EndStep;
  }

  lemma LeftTurn(l: End, r: End, turns: seq<Turn>, i: nat, rule: Rule)
    requires i < |turns| && turns[i].side.Left? && Local(turns[i].event)
    requires EndCan(l, r, l.checks == {}, turns[i].event)
    ensures var next := Quiet(EndStep(l, NewNet(), turns[i].event), r);
            PlayFrom(Quiet(l, r), turns[i..], rule) == PlayFrom(next, turns[i + 1..], rule)
  {
    hide Quiet, Can, Step, PlayFrom, EndCan, EndStep;
    QuietStep(l, r, turns[i].event, rule);
    QuietTurn(l, r, turns, i, rule);
  }

  lemma RightTurn(l: End, r: End, turns: seq<Turn>, i: nat, rule: Rule)
    requires i < |turns| && turns[i].side.Right? && Local(turns[i].event)
    requires EndCan(r, l, r.checks == {}, turns[i].event)
    ensures var next := Quiet(l, EndStep(r, NewNet(), turns[i].event));
            PlayFrom(Quiet(l, r), turns[i..], rule) == PlayFrom(next, turns[i + 1..], rule)
  {
    hide Quiet, Can, Step, PlayFrom, EndCan, EndStep;
    QuietStep(l, r, turns[i].event, rule);
    QuietTurn(l, r, turns, i, rule);
  }

  /** The race is real: this end never learns that the other is done, though it has the GOODBYE. */
  lemma GoodbyeMissed(rule: Rule)
    ensures var e := Play(RacingTurns(), rule).right.end;
            e.farewell.Heard? && !e.gaveUp && e.shuttingDown && !e.remoteShutdown
  {
    hide Play, PlayFrom, NewNet;
    var turns := RacingTurns();
    assert turns[0..] == turns && turns[6..] == [];
    PlayFromStart(turns, rule);
    var l0, r0 := Fresh(), Fresh();
    LeftTurn(l0, r0, turns, 0, rule);
    var l1 := EndStep(l0, NewNet(), turns[0].event);
    LeftTurn(l1, r0, turns, 1, rule);
    var l2 := EndStep(l1, NewNet(), turns[1].event);
    LeftTurn(l2, r0, turns, 2, rule);
    var l3 := EndStep(l2, NewNet(), turns[2].event);
    RightTurn(l3, r0, turns, 3, rule);
    var r1 := EndStep(r0, NewNet(), turns[3].event);
    RightTurn(l3, r1, turns, 4, rule);
    var r2 := EndStep(r1, NewNet(), turns[4].event);
    RightTurn(l3, r2, turns, 5, rule);
    LastTurn(Quiet(l3, EndStep(r2, NewNet(), turns[5].event)), rule);
  }

  lemma PlayFromStart(turns: seq<Turn>, rule: Rule)
    ensures Play(turns, rule) == PlayFrom(NewSession(), turns, rule)
  {
    hide NewNet;
    assert [] + turns == turns;
    PlayAppend([], turns, rule);
  }

  lemma LastTurn(s: Session, rule: Rule)
    ensures PlayFrom(s, [], rule) == s
  {
  }
}
