/** One IROB from end to end: whatever pieces the sender hands to whichever connections, the
    receiver rebuilds what the application wrote. */
module RoundTrip {
  import opened Sequences
  import opened ReceiverIrob
  import S = SenderIrob

  /** Everything that can happen to an IROB at the sender. */
  datatype Op =
    | Write(data: seq<byte>)
    | Close
    | Redundant
    | Give(csock: nat, requested: nat)
    | Lost(seqno: nat)
    | LostFrom(next: nat)

  ghost function Apply(st: S.Sending, op: Op): S.Sending {
    match op
    case Write(data) => S.AddApp(st, data)
    case Close => S.EndApp(st)
    case Redundant => st.(onAll := true)
    case Give(csock, requested) => S.GetReady(st, csock, requested).st
    case Lost(seqno) => if seqno < |st.sent| then S.MarkNotReceived(st, seqno) else st
    case LostFrom(next) => S.MarkDropPoint(st, next)
  }

  ghost function Sender(ops: seq<Op>): S.Sending {
    if ops == [] then S.NewSending() else Apply(Sender(ops[..|ops| - 1]), ops[|ops| - 1])
  }

  /** What was handed out, in order. */
  ghost function Outputs(ops: seq<Op>): seq<Incoming> {
    if ops == [] then []
    else
      var before, op := ops[..|ops| - 1], ops[|ops| - 1];
      Outputs(before) +
      if !op.Give? then []
      else
        var r := S.GetReady(Sender(before), op.csock, op.requested);
        if r.length == 0 then [] else [Incoming(r.seqno, r.offset, Some(r.data))]
  }

  /** What the application wrote before it closed the IROB. */
  function Written(ops: seq<Op>): seq<byte> {
    if ops == [] then []
    else
      var before, op := ops[..|ops| - 1], ops[|ops| - 1];
      if op.Write? && Close !in before then Written(before) + op.data else Written(before)
  }

  // ----- The sender's side -----

  /** A step keeps the invariant and the pieces, and adds at most one. */
  lemma StepKeeps(st: S.Sending, op: Op)
    requires S.Valid(st)
    ensures var t := Apply(st, op);
            && S.Valid(t) && S.Pieces(st) <= S.Pieces(t)
            && t.complete == (st.complete || op.Close?)
            && S.Bytes(t) == (if op.Write? && !st.complete then S.Bytes(st) + op.data else S.Bytes(st))
            && (!op.Give? ==> |t.sent| == |st.sent|)
  {
    hide S.Valid, S.Bytes, S.Pieces, S.GetReady;
    match op
    case Write(data) => S.AddAppKeeps(st, data);
    case Close => S.EndAppKeeps(st);
    case Redundant =>
      S.SendOnAllKeeps(st);
      SameBytes(st, st.(onAll := true));
    case Give(csock, requested) => S.GetReadyHandsOutPieces(st, csock, requested);
    case Lost(seqno) =>
      if seqno < |st.sent| {
        S.MarksKeep(st, seqno, 0);
        SameBytes(st, S.MarkNotReceived(st, seqno));
      }
    case LostFrom(next) =>
      S.MarksKeep(st, |st.sent| + 1, next);
      SameBytes(st, S.MarkDropPoint(st, next));
  }

  lemma SameBytes(st: S.Sending, t: S.Sending)
    requires t.chunks == st.chunks && t.sent == st.sent
    ensures S.Bytes(t) == S.Bytes(st) && S.Pieces(t) == S.Pieces(st)
  {
  }

  /** What one call hands out, and that a newly cut piece is what it hands out. */
  lemma GiveHandsOut(st: S.Sending, csock: nat, requested: nat)
    requires S.Valid(st)
    ensures var r := S.GetReady(st, csock, requested);
            && S.Valid(r.st) && |S.Pieces(r.st)| == |r.st.sent|
            && (r.length > 0 ==> r.seqno < |r.st.sent|
                                 && Incoming(r.seqno, r.offset, Some(r.data)) == PieceMessage(S.Pieces(r.st), r.seqno))
            && |st.sent| <= |r.st.sent| <= |st.sent| + 1
            && (|r.st.sent| > |st.sent| ==> r.length > 0 && r.seqno == |st.sent|)
  {
    S.CursorPoints(st, csock);
    var r := S.GetReady(st, csock, requested);
    if st.resend != {} {
      S.ReadyResend(st, csock, requested);
    } else if S.NextSeqno(st, csock) < |st.sent| {
      S.ReadyBehind(st, csock, requested);
    } else {
      S.ReadyNew(st, csock, requested);
    }
    S.PiecesPartition(r.st);
    S.PiecesPartition(st);
    hide S.Valid, S.Bytes, S.Pieces, S.GetReady;
  }

  ghost predicate Emits(out: seq<Incoming>, i: nat) {
    exists c :: c in out && c.seqno == i
  }

  ghost predicate AllOutputsArePieces(out: seq<Incoming>, pieces: seq<seq<byte>>) {
    && (forall c :: c in out ==> c.seqno < |pieces| && c == PieceMessage(pieces, c.seqno))
    && (forall i :: 0 <= i < |pieces| ==> Emits(out, i))
  }

  lemma OutputsGrow(out: seq<Incoming>, pieces: seq<seq<byte>>, more: seq<seq<byte>>)
    requires AllOutputsArePieces(out, pieces)
    ensures forall c :: c in out ==> c.seqno < |pieces + more| && c == PieceMessage(pieces + more, c.seqno)
  {
    forall c | c in out
      ensures c == PieceMessage(pieces + more, c.seqno)
    {
      PieceOffsetExtends(pieces, more, c.seqno);
    }
  }

  lemma OutputsStep(out: seq<Incoming>, p: seq<seq<byte>>, more: seq<Incoming>, q: seq<seq<byte>>)
    requires AllOutputsArePieces(out, p) && p <= q && |more| <= 1 && |q| <= |p| + 1
    requires forall c :: c in more ==> c.seqno < |q| && c == PieceMessage(q, c.seqno)
    requires |q| > |p| ==> more != [] && more[0].seqno == |p|
    ensures AllOutputsArePieces(out + more, q)
  {
    assert q == p + q[|p|..];
    OutputsGrow(out, p, q[|p|..]);
    forall i | 0 <= i < |q|
      ensures Emits(out + more, i)
    {
      if i < |p| {
        assert Emits(out, i);
        var c :| c in out && c.seqno == i;
        assert c in out + more;
      } else {
        assert more[0] in out + more;
      }
    }
  }

  /** All senders together emit the pieces of one partition of what was written, each piece at
      least once and always the same, whatever sizes the connections ask for. */
  lemma {:induction false} OutputsArePieces(ops: seq<Op>)
    ensures var st := Sender(ops);
            && S.Valid(st) && S.Bytes(st) == Written(ops) && (st.complete <==> Close in ops)
            && AllOutputsArePieces(Outputs(ops), S.Pieces(st))
  {
    hide S.Valid, S.Bytes, S.Pieces, S.GetReady;
    if ops == [] {
      S.NewSendingValid();
      NothingWritten();
    } else {
      var before, op := ops[..|ops| - 1], ops[|ops| - 1];
      OutputsArePieces(before);
      assert ops == before + [op];
      var st := Sender(before);
      StepKeeps(st, op);
      PieceCount(st);
      PieceCount(Apply(st, op));
      var more := Outputs(ops)[|Outputs(before)|..];
      if op.Give? {
        GiveHandsOut(st, op.csock, op.requested);
      }
      assert Outputs(ops) == Outputs(before) + more;
      OutputsStep(Outputs(before), S.Pieces(st), more, S.Pieces(Sender(ops)));
    }
  }

  lemma NothingWritten()
    ensures S.Bytes(S.NewSending()) == [] && S.Pieces(S.NewSending()) == [] && !S.NewSending().complete
  {
    assert S.AppData([]) == [];
  }

  lemma PieceCount(st: S.Sending)
    ensures |S.Pieces(st)| == |st.sent|
  {
  }

  // ----- The receiver's side -----

  datatype Arrival = Piece(c: Incoming) | Totals(bytes: nat, count: nat)

  function Receive(b: Body, a: Arrival): Body {
    match a
    case Piece(c) => AddChunk(b, c).body
    case Totals(bytes, count) => Finish(b, bytes, count).body
  }

  function Assemble(arrivals: seq<Arrival>): Body {
    if arrivals == [] then Fresh() else Receive(Assemble(arrivals[..|arrivals| - 1]), arrivals[|arrivals| - 1])
  }

  /** Only what the sender sent: its pieces, and the totals once everything is cut. */
  ghost predicate Genuine(ops: seq<Op>, a: Arrival) {
    match a
    case Piece(c) => c in Outputs(ops)
    case Totals(bytes, count) =>
      var st := Sender(ops);
      st.complete && S.AllBytesChunked(st) && bytes == |S.Bytes(st)| && count == |st.sent|
  }

  ghost predicate Arrived(arrivals: seq<Arrival>, i: nat) {
    exists a :: a in arrivals && a.Piece? && a.c.seqno == i
  }

  /** In any order, with losses and duplicates: the table holds just what arrived, and what the
      receiver asserts about its counters holds. */
  lemma {:induction false} AssembleHolds(ops: seq<Op>, arrivals: seq<Arrival>)
    requires forall a :: a in arrivals ==> Genuine(ops, a)
    ensures var b, st := Assemble(arrivals), Sender(ops);
            && Assembling(b, S.Pieces(st), st.complete && S.AllBytesChunked(st)) && CountersSane(b)
            && (forall i: nat :: Has(b.chunks, i) <==> Arrived(arrivals, i))
            && (SeenEnd(b) <==> exists a :: a in arrivals && a.Totals?)
  {
    hide S.Valid, S.Bytes, S.Pieces, S.GetReady, S.AllBytesChunked, Outputs, Sender;
    var st := Sender(ops);
    var closed := st.complete && S.AllBytesChunked(st);
    OutputsArePieces(ops);
    S.PiecesPartition(st);
    if arrivals == [] {
      FreshAssembling(S.Pieces(st), closed);
      AssemblingSane(Fresh(), S.Pieces(st), closed);
    } else {
      var before, a := arrivals[..|arrivals| - 1], arrivals[|arrivals| - 1];
      assert arrivals == before + [a] && a in arrivals;
      AssembleHolds(ops, before);
      var b := Assemble(before);
      hide AddChunk, Finish, Assembling, SeenEnd;
      match a {
        case Piece(c) => AddPiece(b, S.Pieces(st), closed, c.seqno);
        case Totals(bytes, count) => FinishPieces(b, S.Pieces(st));
      }
      AssemblingSane(Receive(b, a), S.Pieces(st), closed);
      hide Receive;
      ArrivalsSnoc(before, a);
    }
  }

  lemma ArrivalsSnoc(before: seq<Arrival>, last: Arrival)
    ensures forall i: nat :: Arrived(before + [last], i) <==>
              Arrived(before, i) || (last.Piece? && last.c.seqno == i)
    ensures (exists a :: a in before + [last] && a.Totals?) <==> (exists a :: a in before && a.Totals?) || last.Totals?
  {
    assert forall a :: a in before + [last] <==> a in before || a == last;
  }

  /** The round trip: once every piece handed out has arrived, and the totals, in any order and
      any number of times, the receiver holds exactly what the application wrote. */
  lemma RoundTrip(ops: seq<Op>, arrivals: seq<Arrival>)
    requires forall a :: a in arrivals ==> Genuine(ops, a)
    requires forall c :: c in Outputs(ops) ==> Piece(c) in arrivals
    requires exists a :: a in arrivals && a.Totals?
    ensures var b := Assemble(arrivals);
            IsComplete(b) && Unread(b) == Written(ops) && b.numBytes == |Written(ops)|
  {
    hide S.Valid, S.Bytes, S.Pieces, S.AllBytesChunked, Outputs, Sender, Assemble, Assembling, SeenEnd, Written;
    var st, b := Sender(ops), Assemble(arrivals);
    var closed := st.complete && S.AllBytesChunked(st);
    OutputsArePieces(ops);
    S.PiecesPartition(st);
    AssembleHolds(ops, arrivals);
    forall i | 0 <= i < |S.Pieces(st)|
      ensures Has(b.chunks, i)
    {
      assert Emits(Outputs(ops), i);
      var c :| c in Outputs(ops) && c.seqno == i;
      assert Piece(c) in arrivals;
    }
    CompleteIff(b, S.Pieces(st), closed);
    var a :| a in arrivals && a.Totals?;
    assert Genuine(ops, a);
  }

  // ----- Each piece once, or once for each connection -----

  predicate Loss(op: Op) {
    op.Lost? || op.LostFrom?
  }

  /** Where a connection stands moves on by one with each piece it gets. */
  lemma CursorMovesOn(st: S.Sending, csock: nat, requested: nat)
    requires st.resend == {}
    ensures var r := S.GetReady(st, csock, requested);
            && r.st.resend == {} && r.st.onAll == st.onAll
            && (r.length > 0 ==> r.seqno == S.NextSeqno(st, csock) && S.NextSeqno(r.st, csock) == r.seqno + 1)
            && (r.length == 0 ==> r.st == st)
  {
    hide S.GetBytes;
  }

  lemma CursorsApart(st: S.Sending, csock: nat, other: nat, requested: nat)
    requires st.resend == {} && st.onAll && other != csock
    ensures S.NextSeqno(S.GetReady(st, csock, requested).st, other) == S.NextSeqno(st, other)
  {
    hide S.GetBytes;
  }

  lemma CursorShared(st: S.Sending, csock: nat, other: nat, requested: nat)
    requires !st.onAll
    ensures S.NextSeqno(st, other) == S.NextSeqno(st, csock)
    ensures S.GetReady(st, csock, requested) == S.GetReady(st, other, requested)
  {
    hide S.GetBytes;
  }

  /** A connection's place moves with what it gets, and with what others get exactly if sending is not
      redundant: then it matters not at all which one asks. */
  lemma CursorStep(st: S.Sending, csock: nat, other: nat, requested: nat)
    requires st.resend == {}
    ensures var r := S.GetReady(st, csock, requested);
            && r.st.resend == {} && r.st.onAll == st.onAll
            && (r.length > 0 ==> r.seqno == S.NextSeqno(st, csock) && S.NextSeqno(r.st, csock) == r.seqno + 1)
            && (r.length == 0 ==> r.st == st)
            && (st.onAll && other != csock ==> S.NextSeqno(r.st, other) == S.NextSeqno(st, other))
            && (!st.onAll ==> S.NextSeqno(r.st, other) == S.NextSeqno(r.st, csock) && r == S.GetReady(st, other, requested))
  {
    hide S.GetReady, S.NextSeqno;
    CursorMovesOn(st, csock, requested);
    if st.onAll && other != csock {
      CursorsApart(st, csock, other, requested);
    } else if !st.onAll {
      CursorShared(st, csock, other, requested);
      CursorShared(S.GetReady(st, csock, requested).st, csock, other, requested);
    }
  }

  lemma OthersKeepCursor(st: S.Sending, op: Op, csock: nat)
    requires !op.Give? && !op.Redundant? && !Loss(op)
    ensures var t := Apply(st, op);
            S.NextSeqno(t, csock) == S.NextSeqno(st, csock) && t.resend == st.resend && t.onAll == st.onAll
            && t.sent == st.sent
  {
  }

  lemma {:induction false} SenderValid(ops: seq<Op>)
    ensures S.Valid(Sender(ops))
  {
    hide S.Valid, Apply;
    if ops == [] {
      S.NewSendingValid();
    } else {
      SenderValid(ops[..|ops| - 1]);
      StepKeeps(Sender(ops[..|ops| - 1]), ops[|ops| - 1]);
    }
  }

  lemma AtFront(st: S.Sending, csock: nat, requested: nat)
    requires S.Valid(st) && st.resend == {} && S.NextSeqno(st, csock) == |st.sent|
    ensures var r := S.GetReady(st, csock, requested);
            |r.st.sent| == |st.sent| + if r.length > 0 then 1 else 0
  {
    hide S.Valid, S.GetReady, S.Bytes, S.Pieces, S.SentBytes;
    S.ReadyNew(st, csock, requested);
  }

  /** As long as nothing is reported lost and sending is not redundant, every piece is handed out
      exactly once, to whichever connection asks, in order. */
  lemma {:induction false} EachOnce(ops: seq<Op>, csock: nat)
    requires forall op :: op in ops ==> !op.Redundant? && !Loss(op)
    ensures var st, out := Sender(ops), Outputs(ops);
            && st.resend == {} && !st.onAll && S.NextSeqno(st, csock) == |st.sent|
            && |out| == |st.sent| && forall i :: 0 <= i < |out| ==> out[i].seqno == i
  {
    hide S.Valid, S.GetReady, S.NextSeqno, Apply;
    if ops == [] {
      NothingTaken(csock);
    } else {
      var before, op := ops[..|ops| - 1], ops[|ops| - 1];
      var st := Sender(before);
      assert op in ops && forall o :: o in before ==> o in ops;
      EachOnce(before, csock);
      SenderValid(before);
      if op.Give? {
        EachOnce(before, op.csock);
        CursorStep(st, op.csock, csock, op.requested);
        AtFront(st, op.csock, op.requested);
        assert Sender(ops) == S.GetReady(st, op.csock, op.requested).st by { GiveApplies(st, op.csock, op.requested); }
      } else {
        OthersKeepCursor(st, op, csock);
      }
    }
  }

  lemma GiveApplies(st: S.Sending, csock: nat, requested: nat)
    ensures Apply(st, Give(csock, requested)) == S.GetReady(st, csock, requested).st
  {
  }

  lemma NothingTaken(csock: nat)
    ensures var st := S.NewSending();
            st.resend == {} && !st.onAll && S.NextSeqno(st, csock) == |st.sent| == 0
  {
  }

  /** What one connection was given, in order. */
  ghost function GivenTo(ops: seq<Op>, csock: nat): seq<Incoming> {
    if ops == [] then []
    else
      var before, op := ops[..|ops| - 1], ops[|ops| - 1];
      GivenTo(before, csock) +
      if !op.Give? || op.csock != csock then []
      else
        var r := S.GetReady(Sender(before), op.csock, op.requested);
        if r.length == 0 then [] else [Incoming(r.seqno, r.offset, Some(r.data))]
  }

  /** With redundant sending from the start, and nothing reported lost, every connection is given every
      piece from the first on, each once, in order. */
  lemma {:induction false} EachOnceOnAll(ops: seq<Op>, csock: nat)
    requires ops != [] && ops[0].Redundant? && forall op :: op in ops ==> !Loss(op)
    ensures var st, out := Sender(ops), GivenTo(ops, csock);
            && st.resend == {} && st.onAll && S.NextSeqno(st, csock) == |out|
            && forall i :: 0 <= i < |out| ==> out[i].seqno == i
  {
    hide S.Valid, S.GetReady, S.NextSeqno, Apply;
    var before, op := ops[..|ops| - 1], ops[|ops| - 1];
    var st := Sender(before);
    if |ops| == 1 {
      assert before == [] && GivenTo(before, csock) == [];
      RedundantStarts(csock);
    } else {
      assert op in ops && forall o :: o in before ==> o in ops;
      EachOnceOnAll(before, csock);
      SenderValid(before);
      if op.Give? {
        CursorStep(st, op.csock, csock, op.requested);
        GiveApplies(st, op.csock, op.requested);
      } else if op.Redundant? {
        StaysRedundant(st, csock);
      } else {
        OthersKeepCursor(st, op, csock);
      }
    }
  }

  lemma RedundantStarts(csock: nat)
    ensures var st := Apply(S.NewSending(), Redundant);
            st.resend == {} && st.onAll && S.NextSeqno(st, csock) == 0
  {
  }

  lemma StaysRedundant(st: S.Sending, csock: nat)
    requires st.onAll
    ensures Apply(st, Redundant) == st
  {
  }
}
