/** What the application asked for is what the two ends work on: over every run, the IROBs are
    those it began, in that order, with the bytes it wrote and the dependencies it named. */
module Application {
  import opened Sequences
  import L = Lattice
  import D = Dominators
  import S = SenderIrob
  import R = Receiver
  import opened Protocol
  import O = Ordering

  ghost predicate Taken(acts: seq<Action>, rule: Rule, i: nat) {
    i < |acts| && Enabled(Run(acts[..i], rule), acts[i])
  }

  // ----- What was asked for -----

  /** The ids begun, in order. */
  ghost function BegunIds(acts: seq<Action>, rule: Rule): seq<int> {
    if acts == [] then []
    else
      var before, a := acts[..|acts| - 1], acts[|acts| - 1];
      if (a.AppBegin? || a.AppSend?) && Enabled(Run(before, rule), a) then BegunIds(before, rule) + [a.id]
      else BegunIds(before, rule)
  }

  /** The bytes written to `id`. */
  ghost function Written(acts: seq<Action>, rule: Rule, id: int): seq<byte> {
    if acts == [] then []
    else
      var before, a := acts[..|acts| - 1], acts[|acts| - 1];
      if (a.AppSend? || a.AppWrite?) && a.id == id && Enabled(Run(before, rule), a) then
        Written(before, rule, id) + a.data
      else Written(before, rule, id)
  }

  /** Whether `id` was ended, or sent whole. */
  ghost predicate Ended(acts: seq<Action>, rule: Rule, id: int) {
    if acts == [] then false
    else
      var before, a := acts[..|acts| - 1], acts[|acts| - 1];
      Ended(before, rule, id) || ((a.AppEnd? || a.AppSend?) && a.id == id && Enabled(Run(before, rule), a))
  }

  // ----- One step -----

  lemma ReadyKeepsBytes(st: S.Sending, csock: nat, requested: nat)
    requires S.Valid(st)
    ensures var r := S.GetReady(st, csock, requested);
            S.Bytes(r.st) == S.Bytes(st) && r.st.complete == st.complete
  {
    hide S.Valid, S.GetReady, S.Bytes, S.Pieces;
    S.GetReadyHandsOutPieces(st, csock, requested);
  }

  lemma MarksKeepBytes(st: S.Sending, p: Packet)
    requires p.Resend?
    ensures S.Bytes(Serve(st, p)) == S.Bytes(st) && Serve(st, p).complete == st.complete
  {
  }

  lemma RedundancyKeepsBytes(st: S.Sending)
    ensures S.Bytes(st.(onAll := true)) == S.Bytes(st)
  {
  }

  /** A step that is not the application's leaves its IROBs as they were. */
  lemma OthersKeep(net: Net, a: Action, rule: Rule, id: int)
    requires Fair(net) && id in net.irobs && !a.AppBegin? && !a.AppSend? && !a.AppWrite? && !a.AppEnd?
    ensures var next := Try(net, a, rule);
            id in next.irobs && S.Bytes(next.irobs[id].st) == S.Bytes(net.irobs[id].st)
            && next.irobs[id].st.complete == net.irobs[id].st.complete
  {
    hide R.Handle, R.Read, R.CanRead, R.Matched, ReceiverOk, S.Valid, S.GetReady, Closed, S.Pieces, CheckArrives,
         ResendPackets, Serve, S.Bytes, D.Sound, D.Retire, D.Abandon, BagFair;
    assert IrobOk(net.irobs[id]);
    if a.EmitChunk? && a.id == id {
      ReadyKeepsBytes(net.irobs[id].st, a.csock, a.requested);
    } else if a.GoRedundant? && a.id == id {
      RedundancyKeepsBytes(net.irobs[id].st);
    } else if a.Deliver? && a.p.Resend? && a.p.id == id {
      MarksKeepBytes(net.irobs[id].st, a.p);
    } else if a.Deliver? && a.p.Check? && R.Matched(net.world.s) {
      CheckLeavesSender(net, a.p.id, rule);
    }
  }

  ghost predicate SameAsked(net: Net, next: Net) {
    && next.track.order == net.track.order && next.track.deps == net.track.deps && next.track.anon == net.track.anon
    && next.irobs.Keys == net.irobs.Keys
  }

  lemma ArrivalsKeepTrack(net: Net, p: Packet, rule: Rule)
    requires R.Matched(net.world.s)
    ensures SameAsked(net, Arrive(net, p, rule))
  {
    hide R.Handle, R.Matched, Closed, CheckArrives, Serve, L.Erased;
    if p.Check? {
      CheckLeavesSender(net, p.id, rule);
    }
  }

  lemma OthersKeepTrack(net: Net, a: Action, rule: Rule)
    requires !a.AppBegin? && !a.AppSend?
    ensures SameAsked(net, Try(net, a, rule))
  {
    hide R.Handle, R.Read, R.CanRead, R.Matched, S.GetReady, Closed, Arrive, ResendPackets, Serve, S.Bytes,
         L.Closure, L.Dropped, S.AddApp, S.EndApp;
    if a.Deliver? && R.Matched(net.world.s) {
      ArrivalsKeepTrack(net, a.p, rule);
    }
  }

  /** What the application's own steps do. */
  lemma AppSteps(net: Net, a: Action, rule: Rule)
    requires Fair(net) && Enabled(net, a) && (a.AppBegin? || a.AppSend? || a.AppWrite? || a.AppEnd?)
    ensures var next := Try(net, a, rule);
            && a.id in next.irobs && (a.AppWrite? || a.AppEnd? <==> a.id in net.irobs)
            && S.Bytes(next.irobs[a.id].st)
               == (if a.id in net.irobs then S.Bytes(net.irobs[a.id].st) else [])
                  + (if a.AppSend? || a.AppWrite? then a.data else [])
            && (next.irobs[a.id].st.complete <==> a.AppEnd? || a.AppSend?)
            && forall k :: k != a.id && k in net.irobs ==> k in next.irobs && next.irobs[k] == net.irobs[k]
  {
    hide Fair, R.CanRead, R.Matched, S.Bytes, S.Valid, D.Begin, S.AddApp, S.EndApp, S.NewSending, D.Acceptable;
    TryKeepsFair(net, a, rule);
    match a
    case AppBegin(id, deps, ondemand) =>
      NewInNet(net, NewEntry(id, deps, false, ondemand));
      FreshIrobsOk([]);
      NotEnded();
    case AppSend(id, data, ondemand) =>
      NewInNet(net, NewEntry(id, {}, true, ondemand));
      FreshIrobsOk(data);
      SentWhole(data);
    case AppWrite(id, data) => Appended(net, id, data);
    case AppEnd(id) => Finished(net, id);
  }

  lemma NewInNet(net: Net, r: L.Irob)
    requires Fair(net) && D.Acceptable(net.track, r)
    ensures r.id !in net.irobs
  {
    hide D.Undominated, D.Dominating, D.AnonymousOrdered, ReceiverOk, BagFair, IrobOk;
  }

  lemma SentWhole(data: seq<byte>)
    ensures S.EndApp(S.AddApp(S.NewSending(), data)).complete
  {
  }

  lemma Appended(net: Net, id: int, data: seq<byte>)
    requires Fair(net) && id in net.irobs && !net.irobs[id].st.complete
    ensures var st := S.AddApp(net.irobs[id].st, data);
            S.Bytes(st) == S.Bytes(net.irobs[id].st) + data && !st.complete
  {
    hide D.Sound, ReceiverOk, BagFair, S.Valid, S.Bytes;
    assert IrobOk(net.irobs[id]);
    S.AddAppKeeps(net.irobs[id].st, data);
  }

  lemma Finished(net: Net, id: int)
    requires id in net.irobs
    ensures var st := S.EndApp(net.irobs[id].st);
            S.Bytes(st) == S.Bytes(net.irobs[id].st) + [] && st.complete
  {
  }

  // ----- Over every run -----

  /** What the sender holds for the application, and sends, is what it wrote, all of it, in order; and
      it counts as finished exactly when the application has ended it. */
  lemma {:induction false} HoldsWhatWasWritten(acts: seq<Action>, rule: Rule, id: int)
    ensures var net := Run(acts, rule);
            && (id in net.irobs ==> S.Bytes(net.irobs[id].st) == Written(acts, rule, id)
                                    && (net.irobs[id].st.complete <==> Ended(acts, rule, id)))
            && (id !in net.irobs ==> Written(acts, rule, id) == [] && !Ended(acts, rule, id))
  {
    hide Fair, Try, Enabled, S.Bytes, NewNet;
    if acts == [] {
      EmptyNet();
    } else {
      var before, a := acts[..|acts| - 1], acts[|acts| - 1];
      var net := Run(before, rule);
      HoldsWhatWasWritten(before, rule, id);
      RunFair(before, rule);
      if Enabled(net, a) && (a.AppBegin? || a.AppSend? || a.AppWrite? || a.AppEnd?) {
        AppSteps(net, a, rule);
        if a.id != id {
          KeepsOut(net, a, rule, id);
        }
        if a.AppWrite? || a.AppEnd? {
          NotEndedYet(net, a);
        }
      } else if Enabled(net, a) {
        OthersKeepTrack(net, a, rule);
        if id in net.irobs {
          OthersKeep(net, a, rule, id);
        }
      } else {
        NotTaken(net, a, rule);
      }
    }
  }

  lemma EmptyNet()
    ensures NewNet().irobs == map[] && NewNet().track.order == [] && NewNet().track.deps == map[]
  {
  }

  lemma NotTaken(net: Net, a: Action, rule: Rule)
    requires !Enabled(net, a)
    ensures Try(net, a, rule) == net
  {
  }

  lemma KeepsOut(net: Net, a: Action, rule: Rule, id: int)
    requires Enabled(net, a) && (a.AppBegin? || a.AppSend? || a.AppWrite? || a.AppEnd?) && a.id != id
    ensures id in Try(net, a, rule).irobs <==> id in net.irobs
  {
    hide R.CanRead, R.Matched, S.Bytes, D.Begin, S.AddApp, S.EndApp, S.NewSending, D.Acceptable;
  }

  lemma NotEndedYet(net: Net, a: Action)
    requires Fair(net) && Enabled(net, a) && (a.AppWrite? || a.AppEnd?)
    ensures a.id in net.irobs && !net.irobs[a.id].st.complete
  {
  }

  /** The IROBs are those begun, in that order. */
  lemma {:induction false} OrderIsAsBegun(acts: seq<Action>, rule: Rule)
    ensures Run(acts, rule).track.order == BegunIds(acts, rule)
  {
    hide Fair, Try, Enabled, NewNet;
    if acts == [] {
      EmptyNet();
    } else {
      var before, a := acts[..|acts| - 1], acts[|acts| - 1];
      OrderIsAsBegun(before, rule);
      RunFair(before, rule);
      if !Enabled(Run(before, rule), a) {
        NotTaken(Run(before, rule), a, rule);
      } else if a.AppBegin? || a.AppSend? {
        BeginStep(Run(before, rule), a, rule);
      } else {
        OthersKeepTrack(Run(before, rule), a, rule);
      }
    }
  }

  /** Beginning an IROB: it is announced with all the dependencies named, it is the last in order, and
      it is anonymous exactly when none could be named. */
  lemma BeginStep(net: Net, a: Action, rule: Rule)
    requires Fair(net) && Enabled(net, a) && (a.AppBegin? || a.AppSend?)
    ensures var next := Try(net, a, rule);
            && next.track.order == net.track.order + [a.id]
            && a.id in next.track.deps && (a.AppBegin? ==> a.deps <= next.track.deps[a.id])
            && next.track.anon == (if a.AppSend? then net.track.anon + {a.id} else net.track.anon)
            && a.id in next.irobs && next.irobs[a.id].ondemand == a.ondemand
            && a.id in next.track.lattice.live && next.track.lattice.live[a.id].ondemand == a.ondemand
            && next.track.lattice.live[a.id].anonymous == a.AppSend?
            && forall k :: k in net.track.deps ==> k in next.track.deps && next.track.deps[k] == net.track.deps[k]
  {
    hide Fair, R.CanRead, R.Matched, S.AddApp, S.EndApp, S.NewSending, L.Inserted;
    TryKeepsFair(net, a, rule);
    EntryInserted(net, if a.AppBegin? then NewEntry(a.id, a.deps, false, a.ondemand) else NewEntry(a.id, {}, true, a.ondemand));
    NewInNet(net, if a.AppBegin? then NewEntry(a.id, a.deps, false, a.ondemand) else NewEntry(a.id, {}, true, a.ondemand));
    SameIdsOf(net);
  }

  lemma EntryInserted(net: Net, r: L.Irob)
    requires Fair(net) && D.Acceptable(net.track, r)
    ensures var live := L.Inserted(net.track.lattice, r, true).live;
            r.id in live && live[r.id].ondemand == r.ondemand && live[r.id].anonymous == r.anonymous
  {
    hide D.Undominated, D.Dominating, D.AnonymousOrdered, ReceiverOk, BagFair, IrobOk;
  }

  lemma SameIdsOf(net: Net)
    requires Fair(net)
    ensures SameIds(net)
  {
    hide D.Sound, ReceiverOk, BagFair, IrobOk;
  }

  /** A step can begin an IROB exactly when its id is new and all the dependencies named were begun
      and none of them has been dropped. */
  lemma CanBeginIff(net: Net, id: int, deps: set<int>, ondemand: bool, rule: Rule)
    requires Fair(net) && id !in net.irobs
    ensures id in Try(net, AppBegin(id, deps, ondemand), rule).irobs <==>
              id >= 0 && (forall d :: d in deps ==> d in net.irobs && d !in net.track.lattice.dropped)
  {
    hide Fair, R.CanRead, R.Matched, S.NewSending, D.Begin;
    TryKeepsFair(net, AppBegin(id, deps, ondemand), rule);
    O.StreamFacts(net);
    if exists d :: d in deps && d in net.track.lattice.dropped {
      var d :| d in deps && d in net.track.lattice.dropped;
      assert d in deps * net.track.lattice.dropped;
    }
  }

  lemma {:induction false} DepsStay(net: Net, acts: seq<Action>, rule: Rule, k: int)
    requires Fair(net) && k in net.track.deps
    ensures var end := From(net, acts, rule);
            k in end.track.deps && end.track.deps[k] == net.track.deps[k]
  {
    hide Fair, Try, Enabled;
    if acts != [] {
      var before, a := acts[..|acts| - 1], acts[|acts| - 1];
      var mid := From(net, before, rule);
      DepsStay(net, before, rule, k);
      FromFair(net, before, rule);
      if !Enabled(mid, a) {
        NotTaken(mid, a, rule);
      } else if a.AppBegin? || a.AppSend? {
        BeginStep(mid, a, rule);
      } else {
        OthersKeepTrack(mid, a, rule);
      }
    }
  }

  /** Over every run: an IROB begun with a dependency named is delivered, even in part, only after
      the whole of that one. */
  lemma NamedInOrder(acts: seq<Action>, rule: Rule, i: nat, d: int)
    requires Taken(acts, rule, i) && acts[i].AppBegin? && d in acts[i].deps
    ensures var id, w := acts[i].id, Run(acts, rule).world;
            && (id in w.delivered ==> O.Before(w.delivered, d, id))
            && (w.s.reading == Some(id) ==> d in w.delivered)
  {
    hide Fair, Try, Enabled, From, NewNet, O.Before, D.DependsOn;
    var id := acts[i].id;
    var at, next := Run(acts[..i], rule), Run(acts[..i + 1], rule);
    RunFair(acts[..i], rule);
    RunFair(acts[..i + 1], rule);
    RunFair(acts, rule);
    FromNext(NewNet(), acts, rule, i);
    BeginStep(at, acts[i], rule);
    assert acts == acts[..i + 1] + acts[i + 1..];
    FromAppend(NewNet(), acts[..i + 1], acts[i + 1..], rule);
    DepsStay(next, acts[i + 1..], rule, id);
    DependsDirectly(Run(acts, rule), id, d);
    O.DependentsInOrder(acts, rule, d, id);
  }

  lemma DependsDirectly(net: Net, id: int, d: int)
    requires Fair(net) && id in net.track.deps && d in net.track.deps[id]
    ensures D.DependsOn(net.track.deps, id, d) && d != id
  {
    hide ReceiverOk, BagFair, IrobOk, D.LiveAsAnnounced, D.LastAnonymousKnown, D.Undominated, D.Dominating,
         D.AnonymousOrdered, D.DependsOn;
    var order := net.track.order;
    assert id in order;
    var i :| 0 <= i < |order| && order[i] == id;
    assert d in order[..i];
    O.InPrefix(order, i, i);
    assert d in net.track.deps;
    D.DependsOnSelf(net.track.deps, d);
    D.DependsOnStep(net.track.deps, id, d, d);
  }

  // ----- Drops -----

  /** Back edges lead only to IROBs announced with the dependency. */
  ghost predicate TrueEdges(t: D.Track) {
    forall d, r :: d in t.lattice.live && r in t.lattice.live[d].dependents ==> r in t.deps && d in t.deps[r]
  }

  lemma BeginKeepsEdges(t: D.Track, r: L.Irob)
    requires D.WellKept(t) && TrueEdges(t) && D.Acceptable(t, r)
    ensures TrueEdges(D.Begin(t, r))
  {
    hide D.LastAnonymousKnown;
    NotKnown(t, r);
    hide D.LiveAsAnnounced, D.Backward;
  }

  lemma NotKnown(t: D.Track, r: L.Irob)
    requires D.WellKept(t) && D.Acceptable(t, r)
    ensures r.id !in t.deps && r.id !in t.lattice.live
  {
  }

  lemma RetireKeepsEdges(t: D.Track, id: int)
    requires TrueEdges(t)
    ensures TrueEdges(D.Retire(t, id)) && TrueEdges(D.Abandon(t, id))
  {
    hide L.Closure;
  }

  lemma StepKeepsEdges(net: Net, a: Action, rule: Rule)
    requires Fair(net) && TrueEdges(net.track)
    ensures TrueEdges(Try(net, a, rule).track)
  {
    hide R.Handle, R.Read, R.CanRead, R.Matched, S.GetReady, Closed, CheckArrives, ResendPackets, Serve, S.Bytes, TrueEdges,
         S.AddApp, S.EndApp, D.Begin, D.Retire, D.Abandon, D.WellKept, D.Undominated, D.Dominating, D.AnonymousOrdered,
         ReceiverOk, BagFair, IrobOk;
    if (a.AppBegin? || a.AppSend?) && Enabled(net, a) {
      BeginKeepsEdges(net.track, if a.AppBegin? then NewEntry(a.id, a.deps, false, a.ondemand)
                                 else NewEntry(a.id, {}, true, a.ondemand));
    } else if a.AppDrop? {
      RetireKeepsEdges(net.track, a.id);
    } else if a.Deliver? && a.p.Ack? {
      RetireKeepsEdges(net.track, a.p.id);
    } else if a.Deliver? && a.p.Check? && R.Matched(net.world.s) {
      CheckLeavesSender(net, a.p.id, rule);
    }
  }

  lemma {:induction false} RunEdges(acts: seq<Action>, rule: Rule)
    ensures TrueEdges(Run(acts, rule).track)
  {
    hide Fair, Try, TrueEdges, NewNet;
    if acts == [] {
      NoEdges();
    } else {
      RunEdges(acts[..|acts| - 1], rule);
      RunFair(acts[..|acts| - 1], rule);
      StepKeepsEdges(Run(acts[..|acts| - 1], rule), acts[|acts| - 1], rule);
    }
  }

  lemma NoEdges()
    ensures TrueEdges(NewNet().track)
  {
  }

  /** Following back edges is depending. */
  lemma {:induction false} EdgesDepend(t: D.Track, p: seq<int>)
    requires TrueEdges(t) && L.DependentPath(t.lattice.live, p) && p[0] in t.deps
    ensures p[|p| - 1] in t.deps && D.DependsOn(t.deps, p[|p| - 1], p[0])
    decreases |p|
  {
    if |p| == 1 {
      D.DependsOnSelf(t.deps, p[0]);
    } else {
      var q := p[..|p| - 1];
      EdgesDepend(t, q);
      var d, r := p[|p| - 2], p[|p| - 1];
      assert p[|p| - 2 + 1] in t.lattice.live[p[|p| - 2]].dependents;
      assert r in t.deps && d in t.deps[r];
      D.DependsOnStep(t.deps, r, d, p[0]);
    }
  }

  lemma LatticeFacts(net: Net)
    requires Fair(net)
    ensures L.Linked(net.track.lattice)
    ensures var t := net.track;
            forall k :: k in t.lattice.live ==> k in t.deps && t.lattice.live[k].deps == t.deps[k]
  {
    hide ReceiverOk, BagFair, IrobOk, D.Backward, D.LastAnonymousKnown, D.Undominated, D.Dominating, D.AnonymousOrdered;
  }

  lemma ReachedDepends(t: D.Track, id: int, k: int)
    requires TrueEdges(t) && id in t.deps && L.Reaches(t.lattice.live, id, k)
    ensures D.DependsOn(t.deps, k, id)
  {
    var p :| L.DependentPath(t.lattice.live, p) && p[0] == id && p[|p| - 1] == k;
    EdgesDepend(t, p);
  }

  lemma ReachesSelf(live: map<int, L.Irob>, id: int)
    requires id in live
    ensures id in L.Closure(live, id)
  {
    assert L.DependentPath(live, [id]) && [id][0] == id && [id][|[id]| - 1] == id;
  }

  lemma InClosure(live: map<int, L.Irob>, id: int, k: int)
    requires k in L.Closure(live, id)
    ensures L.Reaches(live, id, k) && id in live && k in live
  {
    var p :| L.DependentPath(live, p) && p[0] == id && p[|p| - 1] == k;
  }

  ghost predicate DroppedWith(t: D.Track, next: D.Track, id: int) {
    var live, kept := t.lattice.live, next.lattice.live;
    && kept.Keys <= live.Keys && id !in kept && (forall k :: k in kept ==> kept[k] == live[k])
    && (forall k :: k in live && k !in kept ==> D.DependsOn(t.deps, k, id))
    && (forall k, d :: k in kept && d in live[k].deps && d in live ==> d in kept)
    && next.lattice.dropped == t.lattice.dropped + (live.Keys - kept.Keys)
    && next.lattice.past == t.lattice.past + (live.Keys - kept.Keys)
    && next.order == t.order && next.deps == t.deps
  }

  lemma DroppedSets(s: L.State, gone: set<int>)
    ensures var t := L.Dropped(s, gone);
            t.live == s.live - gone && t.dropped == s.dropped + gone && t.past == s.past + gone
  {
  }

  lemma DroppedMeans(t: D.Track, gone: set<int>, id: int)
    requires forall k :: k in gone ==> k in t.lattice.live && D.DependsOn(t.deps, k, id)
    requires id in t.lattice.live ==> id in gone
    requires forall k, d :: k in t.lattice.live && k !in gone && d in t.lattice.live[k].deps ==> d !in gone
    ensures DroppedWith(t, t.(lattice := L.Dropped(t.lattice, gone)), id)
  {
    hide D.DependsOn;
    var live := t.lattice.live;
    var kept := live - gone;
    assert forall k :: k in kept <==> k in live && k !in gone;
    SameInts(live.Keys - kept.Keys, gone);
    assert L.Dropped(t.lattice, gone).live == kept;
    hide L.Dropped;
    DroppedSets(t.lattice, gone);
  }

  lemma AbandonDrops(t: D.Track, id: int)
    requires L.Linked(t.lattice) && TrueEdges(t) && forall k :: k in t.lattice.live ==> k in t.deps
    ensures DroppedWith(t, D.Abandon(t, id), id)
  {
    hide L.Closure, D.DependsOn, L.Linked, TrueEdges, DroppedWith, L.Dropped;
    var live := t.lattice.live;
    var gone := L.Closure(live, id);
    if id in live {
      ReachesSelf(live, id);
    }
    forall k | k in gone
      ensures k in live && D.DependsOn(t.deps, k, id)
    {
      InClosure(live, id, k);
      ReachedDepends(t, id, k);
    }
    forall k, d | k in live && k !in gone && d in live[k].deps
      ensures d !in gone
    {
      L.DropLeavesNoOrphan(t.lattice, id, k, d);
    }
    DroppedMeans(t, gone, id);
  }

  /** Over every run, dropping an IROB: it is gone; of the others still held just those go that depend
      on it, directly or through others; and nothing left depends directly on anything that went. */
  lemma DropDrops(acts: seq<Action>, rule: Rule, id: int)
    ensures var net, next := Run(acts, rule), Run(acts + [AppDrop(id)], rule);
            next == net.(track := next.track) && DroppedWith(net.track, next.track, id)
  {
    hide Run, Fair, R.CanRead, R.Matched, TrueEdges, L.Linked, D.Abandon, DroppedWith;
    var net := Run(acts, rule);
    RunFair(acts, rule);
    RunEdges(acts, rule);
    RunOn(acts, AppDrop(id), rule);
    TryKeepsFair(net, AppDrop(id), rule);
    LatticeFacts(net);
    AbandonDrops(net.track, id);
  }

  lemma RunOn(acts: seq<Action>, a: Action, rule: Rule)
    ensures Run(acts + [a], rule) == Try(Run(acts, rule), a, rule)
  {
    hide Try, NewNet;
    assert (acts + [a])[..|acts|] == acts;
  }

  /** All that was written to the given IROBs. */
  ghost function WrittenTo(acts: seq<Action>, rule: Rule, ids: seq<int>): seq<byte> {
    if ids == [] then [] else WrittenTo(acts, rule, ids[..|ids| - 1]) + Written(acts, rule, ids[|ids| - 1])
  }

  lemma {:induction false} StreamIsWritten(acts: seq<Action>, rule: Rule, ids: seq<int>)
    requires forall k :: k in ids ==> k in Run(acts, rule).irobs
    ensures O.Stream(Run(acts, rule).irobs, ids) == WrittenTo(acts, rule, ids)
  {
    hide Run, S.Bytes, Written, Ended;
    if ids != [] {
      StreamIsWritten(acts, rule, ids[..|ids| - 1]);
      assert ids[|ids| - 1] in ids;
      HoldsWhatWasWritten(acts, rule, ids[|ids| - 1]);
    }
  }

  /** End to end, over every run and in terms of what the one application wrote and ended: the other
      has what was written to some of the IROBs that were ended, each once and whole, one after
      another, and then at most a first part of one more. */
  lemma GetsWhatWasWritten(acts: seq<Action>, rule: Rule) returns (part: seq<byte>)
    ensures var w := Run(acts, rule).world;
            && NoDuplicates(w.delivered) && (forall k :: k in w.delivered ==> Ended(acts, rule, k))
            && w.output == WrittenTo(acts, rule, w.delivered) + part
            && if w.s.reading.Some? then w.s.reading.value !in w.delivered
                                         && part <= Written(acts, rule, w.s.reading.value)
               else part == []
  {
    hide Run, S.Bytes, Written, Ended, O.Stream, WrittenTo;
    part := O.EndToEnd(acts, rule);
    var net := Run(acts, rule);
    StreamIsWritten(acts, rule, net.world.delivered);
    forall k | k in net.world.delivered
      ensures Ended(acts, rule, k)
    {
      HoldsWhatWasWritten(acts, rule, k);
    }
    if net.world.s.reading.Some? {
      HoldsWhatWasWritten(acts, rule, net.world.s.reading.value);
    }
  }

  /** What can happen at any time: reads and drops; for an IROB still held its Begin, its pieces and, if
      it is wholly cut, its End can be sent, any number of times; a data check for any IROB; whatever is
      waiting at the receiver; and whatever was sent can arrive. */
  lemma CanHappen(net: Net, id: int, n: nat, csock: nat, requested: nat, p: Packet)
    requires Fair(net)
    ensures Enabled(net, AppRead(n)) && Enabled(net, AppDrop(id))
    ensures id in net.track.lattice.live <==> Enabled(net, EmitBegin(id))
    ensures id in net.track.lattice.live <==> Enabled(net, EmitChunk(id, csock, requested))
    ensures id in net.track.lattice.live <==> Enabled(net, GoRedundant(id))
    ensures Enabled(net, EmitEnd(id)) <==>
              id in net.track.lattice.live && id in net.irobs && net.irobs[id].st.complete
              && S.AllBytesChunked(net.irobs[id].st)
    ensures id in net.irobs <==> Enabled(net, EmitCheck(id))
    ensures id in net.world.s.acks <==> Enabled(net, EmitAck(id))
    ensures id in net.wanted <==> Enabled(net, EmitResend(id))
    ensures p in net.bag <==> Enabled(net, Deliver(p))
  {
    hide ReceiverOk, BagFair, IrobOk, D.Backward, D.Undominated, D.Dominating, D.AnonymousOrdered, S.AllBytesChunked;
  }

  /** Turning on redundant sending for an IROB still held does that, and nothing else. */
  lemma GoesRedundant(net: Net, id: int, rule: Rule)
    requires Fair(net) && Sending(net, id)
    ensures var next := Try(net, GoRedundant(id), rule);
            && next == net.(irobs := next.irobs) && next.irobs.Keys == net.irobs.Keys
            && next.irobs[id].st == net.irobs[id].st.(onAll := true)
            && forall k :: k in net.irobs && k != id ==> next.irobs[k] == net.irobs[k]
  {
    hide Fair, R.CanRead, R.Matched;
    TryKeepsFair(net, GoRedundant(id), rule);
  }
}
