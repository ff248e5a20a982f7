/** Repair after a suspected loss: what a data check asks for, what the sender marks to send
    again, and how the marked pieces come out. */
module Repair {
  import opened Sequences
  import opened ReceiverIrob
  import S = SenderIrob
  import R = Receiver
  import V = Delivery
  import opened Protocol

  /** What a data check asks for when it does not acknowledge. */
  function CheckWants(s: R.Recv, id: int, rule: Rule): Wanted
    requires R.Matched(s)
  {
    if id in s.lattice.live then CheckResult(s, id, rule) else Wanted(true, true, true)
  }

  predicate Lacks(s: R.Recv, id: int, i: nat) {
    !Has(R.BodyOf(s, id).chunks, i)
  }

  // ----- What the request covers -----

  /** The seqnos below `n` that the request names, one by one or as everything after the table. */
  predicate Asks(s: R.Recv, id: int, w: Wanted, n: nat, i: nat)
    requires R.Matched(s)
  {
    i in MissingOf(s, id, w) || (w.end && |R.BodyOf(s, id).chunks| <= i < n)
  }

  ghost predicate Covers(s: R.Recv, id: int, w: Wanted, n: nat)
    requires R.Matched(s)
  {
    forall i :: 0 <= i < n && Lacks(s, id, i) ==> Asks(s, id, w, n, i)
  }

  lemma MissingOfIs(s: R.Recv, id: int, w: Wanted)
    requires R.Matched(s)
    ensures forall i: nat :: i in MissingOf(s, id, w) <==>
              w.data && id in s.lattice.live && Lacks(s, id, i)
              && (i < |s.bodies[id].chunks| || i < s.bodies[id].expectedChunks)
  {
    if id in s.lattice.live {
      var b := s.bodies[id];
      MissingBelowIs(b.chunks, if b.expectedChunks > |b.chunks| then b.expectedChunks else |b.chunks|);
    }
  }

  /** A request covers all that is lacking of `n` sent pieces exactly when it asks for data or
      the table has no hole, and it asks for the End, or lists what the End announced, or the
      table is as long as what was sent. The request may be older than the state. */
  lemma CoversIff(s: R.Recv, h: R.Sends, id: int, w: Wanted, n: nat)
    requires R.Inv(s, h) && id in h && id !in s.lattice.past && s.reading != Some(id)
    requires |h[id].pieces| <= n && (h[id].closed ==> |h[id].pieces| == n)
    ensures R.Matched(s)
    ensures var b := R.BodyOf(s, id);
            Covers(s, id, w, n) <==>
              (w.data || AllPresent(b.chunks)) && (w.end || (w.data && SeenEnd(b)) || |b.chunks| >= n)
  {
    R.InvFacts(s, h);
    R.BodyOfOk(s, h, id);
    MissingOfIs(s, id, w);
    var b := R.BodyOf(s, id);
    assert id !in s.lattice.live ==> b == Fresh();
    hide R.InvBut, MissingOf, R.BodyOf, Stored, Count;
    if |b.chunks| < n {
      assert Lacks(s, id, |b.chunks|);
    }
    if !AllPresent(b.chunks) {
      var i :| 0 <= i < |b.chunks| && b.chunks[i].None?;
      assert Lacks(s, id, i);
    }
  }

  /** The documented check always asks for all that is lacking; the check as written does so
      exactly when nothing of the IROB is known, or its End is, or no later piece was sent. */
  lemma CheckCoversIff(s: R.Recv, h: R.Sends, id: int, rule: Rule, n: nat)
    requires R.Inv(s, h) && id in h && id !in s.lattice.past && s.reading != Some(id)
    requires |h[id].pieces| <= n && (h[id].closed ==> |h[id].pieces| == n)
    ensures R.Matched(s)
    ensures var b := R.BodyOf(s, id);
            Covers(s, id, CheckWants(s, id, rule), n) <==>
              rule.AsDocumented? || id !in s.lattice.live || SeenEnd(b) || |b.chunks| >= n
  {
    var w := CheckWants(s, id, rule);
    CoversIff(s, h, id, w, n);
    if id in s.lattice.live {
      R.BodyOfOk(s, h, id);
      NoneMissing(s.bodies[id]);
      hide R.InvBut, Covers, Missing, Stored, Count;
    }
  }

  lemma NoneMissing(b: Body)
    ensures Missing(b) == [] <==> AllPresent(b.chunks) && b.expectedChunks <= |b.chunks|
  {
    var n := if b.expectedChunks > |b.chunks| then b.expectedChunks else |b.chunks|;
    MissingBelowIs(b.chunks, n);
    if !AllPresent(b.chunks) {
      var i :| 0 <= i < |b.chunks| && b.chunks[i].None?;
      assert i in Missing(b);
    } else if b.expectedChunks > |b.chunks| {
      assert |b.chunks| in Missing(b);
    }
    assert Missing(b) != [] ==> Missing(b)[0] in Missing(b);
  }

  // ----- What the sender marks -----

  function Marks(p: Packet, n: nat): set<nat>
    requires p.Resend?
  {
    (if p.chunk.Some? then {p.chunk.value} else {}) + (if p.end.Some? then S.Range(p.end.value, n) else {})
  }

  function ServeAll(st: S.Sending, qs: seq<Packet>): S.Sending
    requires forall q :: q in qs ==> q.Resend?
  {
    if qs == [] then st else Serve(ServeAll(st, qs[..|qs| - 1]), qs[|qs| - 1])
  }

  /** Requests the receiver can have made: for one of the pieces already cut. */
  predicate Servable(st: S.Sending, qs: seq<Packet>) {
    forall q :: q in qs ==> q.Resend? && (q.chunk.Some? ==> q.chunk.value < |st.sent|)
  }

  lemma {:induction false} ServeAllMarks(st: S.Sending, qs: seq<Packet>)
    requires Servable(st, qs)
    ensures var t := ServeAll(st, qs);
            && t == st.(resend := t.resend)
            && forall i :: i in t.resend <==> i in st.resend || exists q :: q in qs && i in Marks(q, |st.sent|)
  {
    if qs != [] {
      var before, p := qs[..|qs| - 1], qs[|qs| - 1];
      ServeAllMarks(st, before);
      assert qs == before + [p] && p in qs;
      var t := ServeAll(st, before);
      assert Serve(t, p).resend == t.resend + Marks(p, |st.sent|);
      forall i
        ensures (exists q :: q in qs && i in Marks(q, |st.sent|)) <==>
                (exists q :: q in before && i in Marks(q, |st.sent|)) || i in Marks(p, |st.sent|)
      {
      }
    }
  }

  lemma {:induction false} ServeAllKeeps(st: S.Sending, qs: seq<Packet>)
    requires Servable(st, qs) && S.Valid(st)
    ensures var t := ServeAll(st, qs);
            S.Valid(t) && S.Bytes(t) == S.Bytes(st) && S.Pieces(t) == S.Pieces(st)
  {
    if qs != [] {
      var before, p := qs[..|qs| - 1], qs[|qs| - 1];
      assert p in qs;
      ServeAllKeeps(st, before);
      ServeAllMarks(st, before);
      hide S.Valid, S.Bytes, S.Pieces, Serve;
      ServeKeeps(ServeAll(st, before), p);
    }
  }

  lemma RequestsName(s: R.Recv, id: int, w: Wanted, i: nat)
    requires R.Matched(s) && i in MissingOf(s, id, w)
    ensures exists p :: p in ResendPackets(s, id, w) && p.Resend? && p.chunk == Some(i)
  {
    var missing := MissingOf(s, id, w);
    var ps := ResendPackets(s, id, w);
    var k :| 0 <= k < |missing| && missing[k] == i;
    hide Missing;
    assert ps[k] in ps && ps[k].chunk == Some(i);
  }

  lemma RequestsEnd(s: R.Recv, id: int, w: Wanted)
    requires R.Matched(s) && w.end
    ensures exists p :: p in ResendPackets(s, id, w) && p.Resend? && p.end == Some(|R.BodyOf(s, id).chunks|)
  {
    var ps := ResendPackets(s, id, w);
    assert ps[0] in ps && ps[0].end.Some?;
  }

  lemma RequestsBegin(s: R.Recv, id: int, w: Wanted)
    requires R.Matched(s) && w.deps
    ensures exists p :: p in ResendPackets(s, id, w) && p.Resend? && p.deps
  {
    var ps := ResendPackets(s, id, w);
    assert ps[0] in ps && ps[0].deps;
  }

  /** What goes out says just what is wanted: the Begin if it is wanted, each missing chunk if data
      are wanted, and, if the End is wanted, the End with all that follows the table. */
  lemma RequestsSay(s: R.Recv, id: int, w: Wanted)
    requires R.Matched(s)
    ensures var ps := ResendPackets(s, id, w);
            && (forall p :: p in ps ==> p.Resend? && p.id == id)
            && ((exists p :: p in ps && p.Resend? && p.deps) <==> w.deps)
            && ((exists p :: p in ps && p.Resend? && p.end.Some?) <==> w.end)
            && (forall p :: p in ps && p.Resend? && p.end.Some? ==> p.end.value == |R.BodyOf(s, id).chunks|)
            && forall i: nat :: (exists p :: p in ps && p.Resend? && p.chunk == Some(i)) <==>
                 w.data && id in s.lattice.live && Lacks(s, id, i)
                 && (i < |s.bodies[id].chunks| || i < s.bodies[id].expectedChunks)
  {
    var ps := ResendPackets(s, id, w);
    forall p | p in ps
      ensures p.Resend? && p.id == id && (p.chunk.Some? ==> p.chunk.value in MissingOf(s, id, w))
    {
      RequestShape(s, id, w, p);
    }
    if w.deps {
      RequestsBegin(s, id, w);
    }
    if w.end {
      RequestsEnd(s, id, w);
      var p :| p in ps && p.Resend? && p.end == Some(|R.BodyOf(s, id).chunks|);
      assert p.end.Some?;
    }
    MissingOfIs(s, id, w);
    forall i: nat | i in MissingOf(s, id, w)
      ensures exists p :: p in ps && p.Resend? && p.chunk == Some(i)
    {
      RequestsName(s, id, w, i);
    }
    hide Missing;
  }

  /** Serving a request, in any order, with repetitions and among other requests, marks all
      it asks for. */
  lemma ServeAllServes(s: R.Recv, id: int, w: Wanted, st: S.Sending, qs: seq<Packet>, i: nat)
    requires R.Matched(s) && Servable(st, qs)
    requires forall p :: p in ResendPackets(s, id, w) ==> p in qs
    requires Asks(s, id, w, |st.sent|, i)
    ensures i in ServeAll(st, qs).resend
  {
    ServeAllMarks(st, qs);
    hide ServeAll, MissingOf, ResendPackets, R.BodyOf;
    if i in MissingOf(s, id, w) {
      RequestsName(s, id, w, i);
      var p :| p in ResendPackets(s, id, w) && p.Resend? && p.chunk == Some(i);
      assert p in qs && i in Marks(p, |st.sent|);
    } else {
      RequestsEnd(s, id, w);
      var p :| p in ResendPackets(s, id, w) && p.Resend? && p.end == Some(|R.BodyOf(s, id).chunks|);
      assert p in qs && i in Marks(p, |st.sent|);
    }
  }

  /** Repair completeness: after the documented check, every piece already sent that the
      receiver lacks is marked to be sent again. */
  lemma RepairMarks(s: R.Recv, h: R.Sends, id: int, st: S.Sending, qs: seq<Packet>, i: nat)
    requires R.Inv(s, h) && id in h && id !in s.lattice.past && s.reading != Some(id)
    requires R.Matched(s)
    requires |h[id].pieces| <= |st.sent| && (h[id].closed ==> |h[id].pieces| == |st.sent|)
    requires Servable(st, qs)
    requires forall p :: p in ResendPackets(s, id, CheckWants(s, id, AsDocumented)) ==> p in qs
    requires i < |st.sent| && Lacks(s, id, i)
    ensures i in ServeAll(st, qs).resend
  {
    CheckCoversIff(s, h, id, AsDocumented, |st.sent|);
    hide R.InvBut, ServeAll, ResendPackets, Asks, CheckWants;
    ServeAllServes(s, id, CheckWants(s, id, AsDocumented), st, qs, i);
  }

  // ----- Draining what was marked -----

  datatype Take = Take(csock: nat, requested: nat)

  /** Successive calls for something to send, from any connections and for any sizes. */
  ghost function Drained(st: S.Sending, takes: seq<Take>): S.Sending {
    if takes == [] then st
    else S.GetReady(Drained(st, takes[..|takes| - 1]), takes[|takes| - 1].csock, takes[|takes| - 1].requested).st
  }

  ghost function Emitted(st: S.Sending, takes: seq<Take>): seq<Incoming> {
    if takes == [] then []
    else
      var r := S.GetReady(Drained(st, takes[..|takes| - 1]), takes[|takes| - 1].csock, takes[|takes| - 1].requested);
      Emitted(st, takes[..|takes| - 1]) + [Incoming(r.seqno, r.offset, Some(r.data))]
  }

  /** The first |resend| calls hand out the marked pieces, each once, whole, lowest first. */
  lemma {:induction false} DrainEmits(st: S.Sending, takes: seq<Take>)
    requires S.Valid(st) && |takes| <= |st.resend|
    ensures var t, out := Drained(st, takes), Emitted(st, takes);
            && S.Valid(t) && t == st.(resend := t.resend) && |out| == |takes| && |t.resend| == |st.resend| - |takes|
            && (forall c :: c in out ==> c.seqno in st.resend && c.seqno < |S.Pieces(st)|
                                         && c == PieceMessage(S.Pieces(st), c.seqno))
            && (forall x :: x in st.resend <==> x in t.resend || exists c :: c in out && c.seqno == x)
            && (forall i, j :: 0 <= i < j < |out| ==> out[i].seqno < out[j].seqno)
            && (forall i, x :: 0 <= i < |out| && x in t.resend ==> out[i].seqno < x)
  {
    if takes != [] {
      var before, last := takes[..|takes| - 1], takes[|takes| - 1];
      DrainEmits(st, before);
      var t, out := Drained(st, before), Emitted(st, before);
      DrainOne(t, last);
      var c := Emitted(st, takes)[|out|];
      assert Emitted(st, takes) == out + [c];
      assert S.Pieces(t) == S.Pieces(st);
      hide S.Valid, S.Pieces, S.GetReady;
      forall x | x in st.resend
        ensures x in Drained(st, takes).resend || exists d :: d in Emitted(st, takes) && d.seqno == x
      {
        if x in t.resend {
          assert c in Emitted(st, takes);
        } else {
          var d :| d in out && d.seqno == x;
          assert d in Emitted(st, takes);
        }
      }
    }
  }

  lemma DrainOne(t: S.Sending, take: Take)
    requires S.Valid(t) && t.resend != {}
    ensures var r := S.GetReady(t, take.csock, take.requested);
            && S.Valid(r.st) && r.st == t.(resend := t.resend - {r.seqno}) && r.seqno in t.resend
            && |r.st.resend| == |t.resend| - 1 && (forall x :: x in r.st.resend ==> r.seqno < x)
            && r.seqno < |S.Pieces(t)|
            && Incoming(r.seqno, r.offset, Some(r.data)) == PieceMessage(S.Pieces(t), r.seqno)
  {
    S.ReadyResend(t, take.csock, take.requested);
    S.PiecesPartition(t);
    hide S.Valid, S.Pieces, S.GetReady;
  }

  /** So a request that is served, and as many calls as there are then marks, hand out every piece
      already sent that the receiver lacks, whole and just as it was cut the first time. */
  lemma RepairSends(s: R.Recv, h: R.Sends, id: int, st: S.Sending, qs: seq<Packet>, takes: seq<Take>, i: nat)
    requires R.Inv(s, h) && id in h && id !in s.lattice.past && s.reading != Some(id)
    requires R.Matched(s) && S.Valid(st)
    requires |h[id].pieces| <= |st.sent| && (h[id].closed ==> |h[id].pieces| == |st.sent|)
    requires Servable(st, qs) && |takes| == |ServeAll(st, qs).resend|
    requires forall p :: p in ResendPackets(s, id, CheckWants(s, id, AsDocumented)) ==> p in qs
    requires i < |st.sent| && Lacks(s, id, i)
    ensures i < |S.Pieces(st)| && PieceMessage(S.Pieces(st), i) in Emitted(ServeAll(st, qs), takes)
  {
    hide R.InvBut, S.Valid, S.Pieces, S.Bytes, ServeAll, Emitted, Drained, ResendPackets, CheckWants;
    RepairMarks(s, h, id, st, qs, i);
    ServeAllKeeps(st, qs);
    DrainEmits(ServeAll(st, qs), takes);
    assert Drained(ServeAll(st, qs), takes).resend == {};
    var c :| c in Emitted(ServeAll(st, qs), takes) && c.seqno == i;
  }

  lemma NotReading(s: R.Recv, h: R.Sends, id: int)
    requires R.Inv(s, h) && !V.AllArrived(s, id)
    ensures s.reading != Some(id) && id !in s.lattice.past
  {
    if s.reading.Some? {
      assert R.ReleasedRightly(s, s.reading.value);
    }
  }
}
