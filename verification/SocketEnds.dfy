/** The multisocket's operations on its outgoing and its incoming IROBs, as they change its
    fields, each tied to a step of the protocol. The field `net` is the whole system as the
    protocol sees it; an object holds one end of it. */
module SocketEnds {
  import opened Sequences
  import L = Lattice
  import D = Dominators
  import opened ReceiverIrob
  import S = SenderIrob
  import R = Receiver
  import G = Shutdown
  import E = ReceivingEnd
  import opened Protocol

  /** What an operation tells its caller: `Unknown` stands for the exception thrown when a
      message names an IROB that never was. */
  datatype Answer = Done | Failed | Undelivered | Unknown

  // ----- Facts about steps -----

  ghost function Step(net: Net, a: Action): Net {
    Try(net, a, AsWritten)
  }

  lemma StepFair(net: Net, a: Action)
    requires Fair(net) && Enabled(net, a)
    ensures SameIds(net) && R.Matched(net.world.s) && R.CanRead(net.world.s)
    ensures Fair(Step(net, a)) && Step(net, a) == Act(net, a, AsWritten)
  {
    hide Fair, Enabled, Act, Try, R.Matched, R.CanRead;
    TryKeepsFair(net, a, AsWritten);
  }

  lemma BeginStep(net: Net, id: int, deps: set<int>, ondemand: bool)
    requires Fair(net) && D.Acceptable(net.track, NewEntry(id, deps, false, ondemand)) && !Undeliverable(net, deps)
    ensures var next := Step(net, AppBegin(id, deps, ondemand));
            && Fair(next)
            && next.track.lattice == L.Inserted(net.track.lattice, NewEntry(id, deps, false, ondemand), true)
            && next.irobs == net.irobs[id := Outgoing(ondemand, S.NewSending())]
  {
    hide Fair, Step, D.Acceptable, L.Inserted, R.Matched, R.CanRead;
    StepFair(net, AppBegin(id, deps, ondemand));
  }

  lemma SendStep(net: Net, id: int, data: seq<byte>, ondemand: bool)
    requires Fair(net) && D.Acceptable(net.track, NewEntry(id, {}, true, ondemand)) && data != []
    ensures var next := Step(net, AppSend(id, data, ondemand));
            && Fair(next)
            && next.track.lattice == L.Inserted(net.track.lattice, NewEntry(id, {}, true, ondemand), true)
            && next.irobs == net.irobs[id := Outgoing(ondemand, S.EndApp(S.AddApp(S.NewSending(), data)))]
  {
    hide Fair, Step, D.Acceptable, L.Inserted, R.Matched, R.CanRead, S.AddApp, S.EndApp;
    StepFair(net, AppSend(id, data, ondemand));
  }

  lemma WriteStep(net: Net, id: int, data: seq<byte>)
    requires Fair(net) && Sending(net, id) && !net.irobs[id].st.complete
    ensures var next := Step(net, AppWrite(id, data));
            Fair(next) && next == SetIrob(net, id, S.AddApp(net.irobs[id].st, data))
  {
    hide Fair, Step, R.Matched, R.CanRead, S.AddApp;
    StepFair(net, AppWrite(id, data));
  }

  lemma EndStep(net: Net, id: int)
    requires Fair(net) && Sending(net, id) && !net.irobs[id].st.complete && S.Bytes(net.irobs[id].st) != []
    ensures var next := Step(net, AppEnd(id));
            Fair(next) && next == SetIrob(net, id, S.EndApp(net.irobs[id].st))
  {
    hide Fair, Step, R.Matched, R.CanRead, S.EndApp, S.Bytes;
    StepFair(net, AppEnd(id));
  }

  lemma DropStep(net: Net, id: int)
    requires Fair(net)
    ensures var next := Step(net, AppDrop(id));
            Fair(next) && next == net.(track := D.Abandon(net.track, id))
  {
    hide Fair, Step, R.Matched, R.CanRead, D.Abandon;
    StepFair(net, AppDrop(id));
  }

  lemma CheckStep(net: Net, id: int)
    requires Fair(net) && id in net.irobs
    ensures var next := Step(net, EmitCheck(id));
            Fair(next) && next == Post(net, Check(id))
  {
    hide Fair, Step, R.Matched, R.CanRead;
    StepFair(net, EmitCheck(id));
  }

  lemma AckedStep(net: Net, id: int)
    requires Fair(net) && Ack(id) in net.bag
    ensures var next := Step(net, Deliver(Ack(id)));
            && Fair(next)
            && (Sending(net, id) && net.irobs[id].st.complete ==>
                  next.track.lattice == L.Erased(net.track.lattice, id, false) && next.irobs == net.irobs)
            && (!(Sending(net, id) && net.irobs[id].st.complete) ==> next == net)
  {
    hide Fair, Step, R.Matched, R.CanRead, L.Erased;
    StepFair(net, Deliver(Ack(id)));
  }

  lemma ResendStep(net: Net, p: Packet)
    requires Fair(net) && p.Resend? && p in net.bag
    ensures var next := Step(net, Deliver(p));
            && Fair(next)
            && (Sending(net, p.id) ==> next == SetIrob(net, p.id, Serve(net.irobs[p.id].st, p)))
            && (p.id !in net.track.lattice.live ==> next == net)
  {
    hide Fair, Step, R.Matched, R.CanRead, Serve;
    StepFair(net, Deliver(p));
  }

  /** Whatever the other end names was one of the sender's, and is either still there or past. */
  lemma NamedIrob(net: Net, p: Packet)
    requires Fair(net) && p in net.bag && (p.Ack? || p.Resend?)
    ensures p.id in net.irobs && (p.id in net.track.lattice.live || p.id in net.track.lattice.past)
    ensures p.Resend? && p.chunk.Some? ==> p.chunk.value < |net.irobs[p.id].st.sent|
  {
    hide D.Undominated, D.Dominating, D.AnonymousOrdered, S.Valid, ReceiverOk;
    BagOk(net, p);
  }

  lemma NoCommon(a: set<int>, b: set<int>)
    requires a * b == {}
    ensures forall x :: x in a ==> x !in b
  {
    forall x | x in a && x in b
      ensures x in a * b
    {
    }
  }

  method MarkFrom(st: S.Sending, next: nat) returns (t: S.Sending)
    ensures t == S.MarkDropPoint(st, next)
  {
    t := st;
    for i := next to if next <= |st.sent| then |st.sent| else next
      invariant t == st.(resend := st.resend + S.Range(next, i))
    {
      S.RangeSnoc(next, i);
      t := S.MarkNotReceived(t, i);
    }
    if next > |st.sent| {
      assert S.Range(next, |st.sent|) == {};
    }
  }

  // ----- Sending -----

  class OutgoingSide {
    const outgoing: L.PendingIROBLattice
    var irobs: map<int, Outgoing>
    var ackFlags: set<int>

    // What was announced, and the lists of work for the sender threads.
    var announced: set<int>
    var endAnnounced: set<int>
    var newIrobs: set<int>
    var newChunks: set<int>
    var finished: set<int>
    var dataChecks: set<int>

    var shuttingDown: bool
    var sendingGoodbye: bool
    var goodbyeSent: bool
    var remoteShutdown: bool

    ghost var order: seq<int>
    ghost var deps: map<int, set<int>>
    ghost var anon: set<int>
    ghost var net: Net
    ghost var end: G.End

    ghost predicate Valid()
      reads this, outgoing
    {
      && outgoing.Valid() && Fair(net) && net.irobs == irobs
      && net.track == D.Track(outgoing.Abs(), order, deps, anon)
    }

    /** The flags are those of the shutdown protocol. */
    ghost predicate Flags()
      reads this
    {
      && end.shuttingDown == shuttingDown && end.sendingGoodbye == sendingGoodbye
      && end.goodbyeSent == goodbyeSent && end.remoteShutdown == remoteShutdown && end.checks == dataChecks
    }

    constructor ()
      ensures Valid() && Flags() && fresh(outgoing) && net == NewNet() && end == G.Fresh()
      ensures ackFlags == announced == endAnnounced == newIrobs == newChunks == finished == {}
    {
      hide Fair, L.Placed, L.ViewOf, L.Empty;
      outgoing := new L.PendingIROBLattice();
      irobs, ackFlags, announced, endAnnounced := map[], {}, {}, {};
      newIrobs, newChunks, finished, dataChecks := {}, {}, {}, {};
      shuttingDown, sendingGoodbye, goodbyeSent, remoteShutdown := false, false, false, false;
      order, deps, anon, net, end := [], map[], {}, NewNet(), G.Fresh();
      new;
      NewNetFair();
    }

    ghost method Record(next: Net)
      requires outgoing.Valid() && Fair(next) && next.track.lattice == outgoing.Abs() && next.irobs == irobs
      modifies this`order, this`deps, this`anon, this`net
      ensures Valid() && net == next
    {
      order, deps, anon, net := next.track.order, next.track.deps, next.track.anon, next;
      hide Fair;
    }

    lemma LiveKnown(id: int)
      requires Valid()
      ensures id in outgoing.View() ==> Sending(net, id)
    {
      hide ReceiverOk, BagFair, D.Undominated, D.Dominating, D.AnonymousOrdered;
    }

    method BeginIrob(id: int, depends: set<int>, ondemand: bool) returns (r: Answer)
      requires Valid() && D.Acceptable(net.track, NewEntry(id, depends, false, ondemand))
      modifies this`irobs, this`newIrobs, this`order, this`deps, this`anon, this`net, outgoing
      ensures Valid()
      ensures r == if shuttingDown then Failed
                   else if exists d :: d in depends && d in old(outgoing.dropped) then Undelivered else Done
      ensures net == if r.Done? then Step(old(net), AppBegin(id, depends, ondemand)) else old(net)
      ensures newIrobs == if r.Done? then old(newIrobs) + {id} else old(newIrobs)
    {
      hide Fair, D.Acceptable, L.Inserted, Step;
      if shuttingDown {
        return Failed;
      }
      if depends * outgoing.dropped != {} {
        SomeMember(depends * outgoing.dropped);
        return Undelivered;
      }
      NoCommon(depends, outgoing.dropped);
      BeginStep(net, id, depends, ondemand);
      var ok := outgoing.Insert(NewEntry(id, depends, false, ondemand), true);
      irobs := irobs[id := Outgoing(ondemand, S.NewSending())];
      newIrobs := newIrobs + {id};
      Record(Step(net, AppBegin(id, depends, ondemand)));
      r := Done;
    }

    /** A whole IROB without named dependencies; its chunk and its End are left to the sender. */
    method SendDefaultIrob(id: int, data: seq<byte>, ondemand: bool) returns (r: Answer)
      requires Valid() && D.Acceptable(net.track, NewEntry(id, {}, true, ondemand)) && data != []
      modifies this`irobs, this`newIrobs, this`order, this`deps, this`anon, this`net, outgoing
      ensures Valid()
      ensures r == if shuttingDown then Failed else Done
      ensures net == if r.Done? then Step(old(net), AppSend(id, data, ondemand)) else old(net)
      ensures newIrobs == if r.Done? then old(newIrobs) + {id} else old(newIrobs)
    {
      hide Fair, D.Acceptable, L.Inserted, Step, S.AddApp, S.EndApp;
      if shuttingDown {
        return Failed;
      }
      SendStep(net, id, data, ondemand);
      var ok := outgoing.Insert(NewEntry(id, {}, true, ondemand), true);
      irobs := irobs[id := Outgoing(ondemand, S.EndApp(S.AddApp(S.NewSending(), data)))];
      newIrobs := newIrobs + {id};
      Record(Step(net, AppSend(id, data, ondemand)));
      r := Done;
    }

    method IrobChunk(id: int, data: seq<byte>) returns (r: Answer)
      requires Valid()
      modifies this`irobs, this`newChunks, this`order, this`deps, this`anon, this`net
      ensures Valid()
      ensures r == if shuttingDown then Failed
                   else if id !in outgoing.View() then (if id in outgoing.dropped then Undelivered else Failed)
                   else if id in old(irobs) && old(irobs)[id].st.complete then Failed else Done
      ensures net == if r.Done? then Step(old(net), AppWrite(id, data)) else old(net)
      ensures newChunks == if r.Done? && id in announced then old(newChunks) + {id} else old(newChunks)
    {
      hide Fair, Step, S.AddApp;
      LiveKnown(id);
      if shuttingDown {
        return Failed;
      }
      var entry := outgoing.Find(id);
      if entry.None? {
        return if id in outgoing.dropped then Undelivered else Failed;
      }
      if irobs[id].st.complete {
        return Failed;
      }
      WriteStep(net, id, data);
      irobs := irobs[id := irobs[id].(st := S.AddApp(irobs[id].st, data))];
      if id in announced {
        newChunks := newChunks + {id};
      }
      Record(Step(net, AppWrite(id, data)));
      r := Done;
    }

    method EndIrob(id: int) returns (r: Answer)
      requires Valid() && (id in irobs ==> S.Bytes(irobs[id].st) != [])
      modifies this`irobs, this`finished, this`order, this`deps, this`anon, this`net
      ensures Valid()
      ensures r == if !shuttingDown && id in outgoing.View() && id in old(irobs) && !old(irobs)[id].st.complete
                   then Done else Failed
      ensures net == if r.Done? then Step(old(net), AppEnd(id)) else old(net)
      ensures r.Done? ==> id in irobs
      ensures finished == if r.Done? && id in announced && id !in endAnnounced && S.AllBytesChunked(irobs[id].st)
                          then old(finished) + {id} else old(finished)
    {
      hide Fair, Step, S.Bytes, S.EndApp, S.AllBytesChunked;
      LiveKnown(id);
      if shuttingDown {
        return Failed;
      }
      var entry := outgoing.Find(id);
      if entry.None? || irobs[id].st.complete {
        return Failed;
      }
      EndStep(net, id);
      irobs := irobs[id := irobs[id].(st := S.EndApp(irobs[id].st))];
      if id in announced && id !in endAnnounced && S.AllBytesChunked(irobs[id].st) {
        finished := finished + {id};
      }
      Record(Step(net, AppEnd(id)));
      r := Done;
    }

    /** An acknowledgement ends a finished IROB and is noted for one that is not; a second one is
        ignored. None is ever for an unknown IROB. */
    method AckReceived(id: int) returns (r: Answer)
      requires Valid() && Ack(id) in net.bag
      modifies this`ackFlags, this`order, this`deps, this`anon, this`net, outgoing
      ensures Valid() && r.Done? && id in irobs
      ensures net == Step(old(net), Deliver(Ack(id)))
      ensures ackFlags == if id in old(outgoing.View()) then old(ackFlags) + {id} else old(ackFlags)
      ensures id in outgoing.View() ==> !irobs[id].st.complete
      ensures id !in outgoing.View() ==> id in outgoing.past
    {
      hide Fair, Step, L.Erased;
      NamedIrob(net, Ack(id));
      LiveKnown(id);
      AckedStep(net, id);
      var entry := outgoing.Find(id);
      if entry.None? {
        return if id in outgoing.past then Done else Unknown;
      }
      ackFlags := ackFlags + {id};
      ErasedIsPast(outgoing.Abs(), id);
      if irobs[id].st.complete {
        var ok := outgoing.EraseLocked(id, false);
        Record(Step(net, Deliver(Ack(id))));
      }
      r := Done;
    }

    /** Marks what the other end asks for and lists the work; a request for an IROB already given
        up is ignored. */
    method ResendRequestReceived(id: int, wantDeps: bool, chunk: Option<nat>, end: Option<nat>) returns (r: Answer)
      requires Valid() && Resend(id, wantDeps, chunk, end) in net.bag
      modifies this`irobs, this`newIrobs, this`newChunks, this`finished, this`order, this`deps, this`anon, this`net
      ensures Valid() && r.Done? && id in old(irobs)
      ensures net == Step(old(net), Deliver(Resend(id, wantDeps, chunk, end)))
      ensures var live := id in outgoing.View();
              && newIrobs == (if live && wantDeps then old(newIrobs) + {id} else old(newIrobs))
              && newChunks == (if live && (chunk.Some? || end.Some?) then old(newChunks) + {id} else old(newChunks))
              && finished == (if live && end.Some? && Closed(old(irobs)[id].st) then old(finished) + {id} else old(finished))
    {
      hide Fair, Step, S.MarkNotReceived, S.MarkDropPoint, S.AllBytesChunked;
      ghost var p := Resend(id, wantDeps, chunk, end);
      NamedIrob(net, p);
      LiveKnown(id);
      ResendStep(net, p);
      var entry := outgoing.Find(id);
      if entry.None? {
        return if id in outgoing.past then Done else Unknown;
      }
      var st := irobs[id].st;
      if wantDeps {
        newIrobs := newIrobs + {id};
      }
      if chunk.Some? {
        st := S.MarkNotReceived(st, chunk.value);
        newChunks := newChunks + {id};
      }
      if end.Some? {
        if irobs[id].st.complete && S.AllBytesChunked(irobs[id].st) {
          finished := finished + {id};
        }
        st := MarkFrom(st, end.value);
        newChunks := newChunks + {id};
      }
      irobs := irobs[id := irobs[id].(st := st)];
      Record(Step(net, Deliver(p)));
      r := Done;
    }

    /** Gives up `id` and all that depends on it. */
    method DropIrob(id: int)
      requires Valid()
      modifies this`order, this`deps, this`anon, this`net, outgoing
      ensures Valid() && net == Step(old(net), AppDrop(id))
    {
      hide Fair, Step, L.Dropped, L.Closure;
      DropStep(net, id);
      outgoing.DropIrobAndDependents(id);
      Record(Step(net, AppDrop(id)));
    }

    // ----- Closing -----

    /** All outgoing IROBs are to be checked. */
    method DataCheckAll()
      requires outgoing.Valid()
      modifies this`dataChecks
      ensures dataChecks == old(dataChecks) + outgoing.View().Keys
    {
      var i := 0;
      while i < |outgoing.pending|
        invariant 0 <= i <= |outgoing.pending|
        invariant forall k :: k in dataChecks <==>
                    k in old(dataChecks) || (k in outgoing.View() && k < outgoing.offset + i)
      {
        assert L.Slot(outgoing.pending, outgoing.offset, outgoing.offset + i) == outgoing.pending[i];
        if outgoing.pending[i].Some? {
          dataChecks := dataChecks + {outgoing.offset + i};
        }
        i := i + 1;
      }
      SameInts(dataChecks, old(dataChecks) + outgoing.View().Keys);
    }

    /** Without a connection to send the GOODBYE on, that is the end of it. */
    method Goodbye(remoteInitiated: bool, connected: bool)
      requires Valid() && Flags()
      modifies this`shuttingDown, this`remoteShutdown, this`goodbyeSent, this`dataChecks, this`end
      ensures Valid() && net == old(net) && Flags()
      ensures var closed := G.CloseEnd(old(end), remoteInitiated, net);
              end == if old(shuttingDown) || connected then closed else G.GiveUpEnd(closed)
    {
      hide Fair;
      if shuttingDown {
        return;
      }
      shuttingDown := true;
      if remoteInitiated {
        DataCheckAll();
        remoteShutdown := true;
      }
      end := G.CloseEnd(end, remoteInitiated, net);
      if !connected {
        remoteShutdown := true;
        goodbyeSent := true;
        end := G.GiveUpEnd(end);
      }
    }

    /** One data check leaves the list and goes out. */
    method SendDataCheck(id: int)
      requires Valid() && Flags() && id in dataChecks && id in irobs
      modifies this`dataChecks, this`net, this`end
      ensures Valid() && Flags() && net == Step(old(net), EmitCheck(id))
      ensures end == G.EndStep(old(end), old(net), G.SendCheck(id))
    {
      hide Fair, Step;
      CheckStep(net, id);
      dataChecks := dataChecks - {id};
      end := end.(checks := end.checks - {id});
      net := Step(net, EmitCheck(id));
    }

    /** A sender thread, with the lock, decides whether to write the GOODBYE: exactly when the
        shutdown protocol lets it. */
    method DecideGoodbye(thread: nat, incoming: IncomingSide) returns (goodbye: bool)
      requires Valid() && Flags() && incoming.Valid()
      modifies this`sendingGoodbye, this`end
      ensures Valid() && net == old(net) && Flags()
      ensures goodbye <==>
                G.EndCan(old(end), old(end), G.NothingToSend(net, incoming.net, old(end).checks), G.Decide(thread))
      ensures end == if goodbye then G.DecideEnd(old(end), thread, net) else old(end)
      ensures goodbye <==>
                && shuttingDown && !old(sendingGoodbye) && !goodbyeSent
                && outgoing.View() == map[] && dataChecks == {}
                && incoming.incoming.acks == {} && incoming.resendRequests == map[]
      ensures sendingGoodbye <==> old(sendingGoodbye) || goodbye
    {
      hide Fair, Elements;
      goodbye := false;
      if shuttingDown {
        var idle := outgoing.IsEmpty();
        idle := idle && incoming.incoming.acks == {} && incoming.resendRequests == map[] && dataChecks == {};
        if idle && !goodbyeSent && !sendingGoodbye {
          goodbye := true;
          sendingGoodbye := true;
          end := G.DecideEnd(end, thread, net);
        }
      }
    }

    /** The thread has the lock back. */
    method GoodbyeWritten(thread: nat, ok: bool)
      requires Flags()
      modifies this`sendingGoodbye, this`goodbyeSent, this`end
      ensures Flags() && end == G.WriteEnd(old(end), thread, ok)
    {
      if !ok {
        sendingGoodbye := false;
      } else {
        goodbyeSent := true;
      }
      end := G.WriteEnd(end, thread, ok);
    }

    /** The other end's GOODBYE; `sawClosing` is what the receiver thread read before it took the
        lock. */
    method DoGoodbye(sawClosing: bool, connected: bool)
      requires Valid() && Flags() && end.farewell == G.Noticed(sawClosing) && (sawClosing ==> shuttingDown)
      modifies this`shuttingDown, this`remoteShutdown, this`goodbyeSent, this`dataChecks, this`end
      ensures Valid() && net == old(net) && Flags()
      ensures var heard := G.HearEnd(old(end), net);
              end == if old(shuttingDown) || connected then heard else G.GiveUpEnd(heard)
    {
      hide Fair;
      ghost var heard := G.HearEnd(end, net);
      ghost var next := if shuttingDown || connected then heard else G.GiveUpEnd(heard);
      if sawClosing {
        remoteShutdown := true;
      } else {
        Goodbye(true, connected);
      }
      end := next;
    }
  }

  lemma ErasedIsPast(s: L.State, id: int)
    requires id in s.live
    ensures id !in L.Erased(s, id, false).live && id in L.Erased(s, id, false).past
  {
  }

  // ----- Receiving -----

  lemma CheckedStep(net: Net, id: int)
    requires Fair(net) && Check(id) in net.bag
    ensures var next := Step(net, Deliver(Check(id)));
            && R.Matched(net.world.s) && Fair(next) && next == CheckArrives(net, id, AsWritten)
            && (AcksHold(net) ==> (AcksHold(next) <==> !Trapped(net.world.s, id)))
  {
    hide Fair, Try, R.Matched, R.CanRead, CheckArrives, Trapped, AcksHold;
    StepFair(net, Deliver(Check(id)));
    if AcksHold(net) {
      StepKeepsAcksIff(net, Deliver(Check(id)), AsWritten);
    }
  }

  lemma AskStep(net: Net, id: int)
    requires Fair(net) && id in net.wanted
    ensures var next := Step(net, EmitResend(id));
            R.Matched(net.world.s) && Fair(next) && next.world == net.world && next.wanted == net.wanted - {id}
            && forall p :: p in next.bag <==> p in net.bag || p in ResendPackets(net.world.s, id, net.wanted[id])
  {
    hide Fair, Step, R.Matched, R.CanRead, ResendPackets;
    StepFair(net, EmitResend(id));
  }

  lemma AcknowledgeStep(net: Net, id: int)
    requires Fair(net) && id in net.world.s.acks
    ensures var next := Step(net, EmitAck(id));
            && Fair(next) && next.world.s == net.world.s.(acks := net.world.s.acks - {id}) && next.wanted == net.wanted
            && Ack(id) in next.bag
  {
    hide Fair, Step, R.Matched, R.CanRead;
    StepFair(net, EmitAck(id));
  }

  class IncomingSide {
    const incoming: E.PendingReceiverIROBLattice
    var resendRequests: map<int, Wanted>

    ghost var net: Net

    ghost predicate Valid()
      reads this, incoming, incoming.incoming
    {
      incoming.Valid() && Fair(net) && net.world.s == incoming.Abs() && net.wanted == resendRequests
    }

    constructor ()
      ensures Valid() && fresh(incoming) && fresh(incoming.incoming) && net == NewNet()
    {
      incoming := new E.PendingReceiverIROBLattice();
      resendRequests, net := map[], NewNet();
      new;
      NewNetFair();
      hide Fair;
    }

    /** Answers a data check as the code has it: acknowledge, or note what to ask for. This keeps
        acknowledgements sound exactly when the IROB is not trapped. */
    method DataCheckRequested(id: int)
      requires Valid() && Check(id) in net.bag
      modifies this, incoming`acks
      ensures Valid() && R.Matched(old(net).world.s) && net == CheckArrives(old(net), id, AsWritten)
      ensures net == Step(old(net), Deliver(Check(id)))
      ensures AcksHold(old(net)) ==> (AcksHold(net) <==> !Trapped(old(net).world.s, id))
    {
      hide Fair, Step, Trapped, Missing, SeenEnd, AcksHold;
      CheckedStep(net, id);
      ghost var next := Step(net, Deliver(Check(id)));
      var entry := incoming.incoming.Find(id);
      if entry.None? {
        if id in incoming.incoming.past {
          incoming.acks := incoming.acks + {id};
        } else {
          Request(id, Wanted(true, true, true));
        }
      } else {
        var w := Wanted(entry.value.placeholder, false, false);
        if Missing(incoming.bodies[id]) != [] {
          w := w.(data := true);
        }
        if SeenEnd(incoming.bodies[id]) {
          w := w.(end := true);
        }
        if w == Wanted(false, false, false) {
          incoming.acks := incoming.acks + {id};
        } else {
          Request(id, w);
        }
      }
      net := next;
    }

    /** A request already waiting is kept. */
    method Request(id: int, w: Wanted)
      modifies this`resendRequests
      ensures resendRequests == if id in old(resendRequests) then old(resendRequests) else old(resendRequests)[id := w]
    {
      if id !in resendRequests {
        resendRequests := resendRequests[id := w];
      }
    }

    /** The requests that go out for `id`: one header for each missing chunk, the first of which
        also asks for the Begin and the End, if they are wanted. */
    method ResendRequest(id: int) returns (hdrs: seq<Packet>)
      requires Valid() && id in resendRequests
      modifies this
      ensures Valid() && R.Matched(old(net.world.s))
      ensures hdrs == ResendPackets(old(net.world.s), id, old(resendRequests)[id])
      ensures net == Step(old(net), EmitResend(id))
    {
      hide Fair, Step, Missing;
      AskStep(net, id);
      ghost var next := Step(net, EmitResend(id));
      var w := resendRequests[id];
      resendRequests := resendRequests - {id};
      net := next;
      var entry := incoming.incoming.Find(id);
      var missing: seq<nat> := [];
      var end: Option<nat> := None;
      if entry.Some? && w.data {
        missing := Missing(incoming.bodies[id]);
      }
      if w.end {
        end := Some(if entry.Some? then |incoming.bodies[id].chunks| else 0);
      }
      if missing == [] {
        return if w.deps || w.end then [Resend(id, w.deps, None, end)] else [];
      }
      hdrs := [Resend(id, w.deps, Some(missing[0]), end)];
      var i := 1;
      while i < |missing|
        invariant 1 <= i <= |missing|
        invariant hdrs == [Resend(id, w.deps, Some(missing[0]), end)]
                          + seq(i - 1, k requires 0 <= k < i - 1 => Resend(id, false, Some(missing[k + 1]), None))
      {
        hdrs := hdrs + [Resend(id, false, Some(missing[i]), None)];
        i := i + 1;
      }
    }

    /** One waiting acknowledgement goes out. */
    method SendAck(id: int)
      requires Valid() && id in incoming.acks
      modifies this`net, incoming`acks
      ensures Valid() && net == Step(old(net), EmitAck(id))
    {
      hide Fair, Step;
      AcknowledgeStep(net, id);
      incoming.acks := incoming.acks - {id};
      net := Step(net, EmitAck(id));
    }
  }
}
