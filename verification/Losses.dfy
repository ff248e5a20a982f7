/** The data check as the code has it loses data: a run for every IROB of some size, and that
    nothing mends it. */
module Losses {
  import opened Sequences
  import D = Dominators
  import opened ReceiverIrob
  import S = SenderIrob
  import R = Receiver
  import V = Delivery
  import W = SenderWork
  import opened Protocol

  const CHUNKSIZE: nat := 4096

  ghost function Step(net: Net, a: Action): Net {
    Try(net, a, AsWritten)
  }

  // ----- The sender -----

  function Whole(data: seq<byte>): S.Sending {
    S.EndApp(S.AddApp(S.NewSending(), data))
  }

  /** The chunk that the sender thread takes, and the one that the data check takes along. */
  ghost function First(data: seq<byte>): S.Ready {
    S.GetReady(Whole(data), 0, CHUNKSIZE)
  }

  ghost function Second(data: seq<byte>): S.Ready {
    S.GetReady(First(data).st, 0, W.MIN_CHUNKSIZE)
  }

  function BeginSent(): R.Msg {
    R.BeginMsg(0, {}, true)
  }

  function ChunkSent(r: S.Ready): R.Msg {
    R.ChunkMsg(0, Incoming(r.seqno, r.offset, Some(r.data)))
  }

  /** A foreground IROB longer than two chunks: its Begin and a chunk are sent; a data check goes
      out, with the Begin, the next chunk and no End, since there is more to cut; all arrives. */
  ghost function LossyRun(data: seq<byte>): seq<Action> {
    [AppSend(0, data, true), EmitBegin(0), EmitChunk(0, 0, CHUNKSIZE),
     EmitBegin(0), EmitChunk(0, 0, W.MIN_CHUNKSIZE), EmitCheck(0),
     Deliver(Data(BeginSent())), Deliver(Data(ChunkSent(First(data)))), Deliver(Data(ChunkSent(Second(data)))),
     Deliver(Check(0)), EmitAck(0), Deliver(Ack(0))]
  }

  lemma NewPiece(st: S.Sending, requested: nat)
    requires W.Cursor(st) && st.resend == {} && 0 < requested < st.numBytes - S.SentBytes(st)
    ensures var r := S.GetReady(st, 0, requested);
            && W.Cursor(r.st) && r.st.resend == {} && r.st.complete == st.complete && S.Bytes(r.st) == S.Bytes(st)
            && r.st.numBytes == st.numBytes && S.SentBytes(r.st) == S.SentBytes(st) + requested
            && r.length == requested == |r.data| && r.seqno == |st.sent| && |r.st.sent| == |st.sent| + 1
            && r.offset == S.SentBytes(st) && S.Pieces(r.st) == S.Pieces(st) + [r.data]
  {
    hide S.Valid, S.GetReady, S.Pieces, S.Bytes, S.SentBytes, S.AllBytesChunked;
    W.CursorMoves(st, requested);
    W.NewPieceMoves(st, requested);
    S.ReadyNew(st, 0, requested);
    S.CursorPoints(st, 0);
    OffsetIs(st, requested);
    S.Sizes(st);
    S.Sizes(S.GetReady(st, 0, requested).st);
    OneMorePiece(S.Pieces(st), S.Pieces(S.GetReady(st, 0, requested).st));
  }

  lemma OneMorePiece(p: seq<seq<byte>>, q: seq<seq<byte>>)
    requires p <= q && |q| == |p| + 1
    ensures q == p + [q[|p|]]
  {
  }

  lemma OffsetIs(st: S.Sending, requested: nat)
    requires st.resend == {}
    ensures S.GetReady(st, 0, requested).offset == S.IrobOffset(st, 0)
  {
  }

  lemma WholeReady(data: seq<byte>)
    ensures var w := Whole(data);
            && W.Cursor(w) && w.resend == {} && w.complete && S.Bytes(w) == data && w.numBytes == |data|
            && w.sent == [] && S.SentBytes(w) == 0 && S.Pieces(w) == []
  {
    W.FreshCursor(data);
    FreshIrobsOk(data);
    S.Sizes(Whole(data));
  }

  /** Both chunks, and that bytes are left. */
  lemma ChunksReady(data: seq<byte>)
    requires |data| > CHUNKSIZE + W.MIN_CHUNKSIZE
    ensures var r, q := First(data), Second(data);
            && r.length > 0 && r.seqno == 0 && r.offset == 0 && |r.data| > 0
            && q.length > 0 && q.seqno == 1 && q.offset == |r.data| && |q.data| > 0
            && q.st.complete && S.Bytes(q.st) == data && !Closed(q.st)
            && r.data + q.data == data[..CHUNKSIZE + W.MIN_CHUNKSIZE]
  {
    hide S.GetReady, S.Valid, W.Cursor, S.Pieces, S.Bytes, S.SentBytes, S.AllBytesChunked, Whole;
    WholeReady(data);
    NewPiece(Whole(data), CHUNKSIZE);
    var r := First(data);
    NewPiece(r.st, W.MIN_CHUNKSIZE);
    var q := Second(data);
    assert S.Pieces(q.st) == [r.data, q.data];
    TwoPieces(q.st, r.data, q.data);
  }

  lemma TwoPieces(st: S.Sending, a: seq<byte>, b: seq<byte>)
    requires W.Cursor(st) && S.Pieces(st) == [a, b] && S.SentBytes(st) < st.numBytes
    ensures a + b == S.Bytes(st)[..S.SentBytes(st)] && !S.AllBytesChunked(st) && S.SentBytes(st) <= |S.Bytes(st)|
  {
    S.PiecesPartition(st);
    S.Sizes(st);
    W.AllCutIs(st);
    hide S.Valid, S.Pieces, S.Bytes, S.SentBytes, S.AllBytesChunked;
    assert [a, b][1..] == [b] && Concat([b]) == b + Concat([]);
  }

  // ----- The receiver -----

  ghost function Begun(): R.Recv {
    R.HandleBegin(R.NewRecv(), 0, {}, true)
  }

  ghost function Got(s: R.Recv, r: S.Ready): R.Recv
    requires R.Matched(s)
  {
    R.HandleChunk(s, 0, Incoming(r.seqno, r.offset, Some(r.data)))
  }

  predicate Idle(s: R.Recv) {
    R.Matched(s) && s.reading.None? && s.ready == {}
  }

  /** Only IROB 0, begun, with the chunks in `table`. */
  predicate Holds(s: R.Recv, table: Table) {
    && Idle(s) && 0 in s.lattice.live && 0 in s.bodies && 0 !in s.lattice.past
    && !s.lattice.live[0].placeholder
    && var b := s.bodies[0];
    && b.chunks == table && b.partial.None? && b.offset == 0 && !b.complete && !b.released
    && b.expectedBytes == -1 && b.expectedChunks == -1 && b.recvdBytes >= 0 && b.recvdChunks >= 0
  }

  lemma BegunHolds()
    ensures Holds(Begun(), [])
  {
  }

  lemma GotHolds(s: R.Recv, table: Table, r: S.Ready)
    requires Holds(s, table) && r.seqno == |table|
    ensures Holds(Got(s, r), table + [Some(Chunk(r.seqno, r.offset, r.data))])
  {
    var c := Incoming(r.seqno, r.offset, Some(r.data));
    var b := s.bodies[0];
    assert Grow(table, |table| + 1) == table + [None];
    assert (table + [None])[|table| := ToSlot(c)] == table + [Some(Chunk(r.seqno, r.offset, r.data))];
    assert !IsComplete(b);
    hide R.Release;
    NotReleased(R.WithEntry(s, 0).(bodies := s.bodies[0 := AddChunk(b, c).body]));
  }

  lemma NotReleased(s: R.Recv)
    requires 0 in s.bodies && !s.bodies[0].complete
    ensures R.Release(s, {0}) == s
  {
  }

  lemma BothAcked(s: R.Recv, x: Chunk, y: Chunk)
    requires Holds(s, [Some(x), Some(y)])
    ensures CheckAcks(s, 0, AsWritten) && Unread(s.bodies[0]) == x.data + y.data
  {
    var table: Table := [Some(x), Some(y)];
    assert MissingBelow(table, 0) == [] && MissingBelow(table, 1) == [] && MissingBelow(table, 2) == [];
    assert table[1..] == [Some(y)] && table[1..][1..] == [];
    assert Stored(table[1..]) == y.data + [];
  }

  // ----- Steps of a net with one IROB -----

  /** A net with the single IROB 0, of which nothing has been read. */
  function OneIrob(st: S.Sending, s: R.Recv, bag: set<Packet>): Net {
    Net(D.Begin(D.NewTrack(), NewEntry(0, {}, true, true)), map[0 := Outgoing(true, st)], bag,
        R.World(s, [], []), map[], {})
  }

  lemma OneIrobStep(st: S.Sending, s: R.Recv, bag: set<Packet>)
    requires Idle(s)
    ensures var net := OneIrob(st, s, bag);
            SameIds(net) && Sending(net, 0) && net.track.deps[0] == {} && R.CanRead(net.world.s)
  {
  }

  lemma FirstStep(data: seq<byte>)
    requires data != []
    ensures Step(NewNet(), AppSend(0, data, true)) == OneIrob(Whole(data), R.NewRecv(), {})
  {
    hide S.AddApp, S.EndApp;
    assert R.NextUp(R.NewRecv()).None?;
  }

  lemma EmitSteps(st: S.Sending, s: R.Recv, bag: set<Packet>)
    requires Idle(s)
    ensures var net := OneIrob(st, s, bag);
            && Step(net, EmitBegin(0)) == OneIrob(st, s, bag + {Data(BeginSent())})
            && Step(net, EmitCheck(0)) == OneIrob(st, s, bag + {Check(0)})
  {
    OneIrobStep(st, s, bag);
    hide R.CanRead, R.Matched, D.Begin;
  }

  lemma EmitChunkStep(st: S.Sending, s: R.Recv, bag: set<Packet>, n: nat)
    requires Idle(s) && S.GetReady(st, 0, n).length > 0
    ensures var r := S.GetReady(st, 0, n);
            Step(OneIrob(st, s, bag), EmitChunk(0, 0, n)) == OneIrob(r.st, s, bag + {Data(ChunkSent(r))})
  {
    OneIrobStep(st, s, bag);
    hide R.CanRead, R.Matched, D.Begin, S.GetReady;
  }

  lemma AcksKeepIdle(s: R.Recv, acks: set<int>)
    requires Idle(s)
    ensures Idle(s.(acks := acks))
  {
  }

  lemma DataStep(st: S.Sending, s: R.Recv, bag: set<Packet>, m: R.Msg)
    requires Idle(s) && Data(m) in bag
    ensures Step(OneIrob(st, s, bag), Deliver(Data(m))) == OneIrob(st, R.Handle(s, m), bag)
  {
    OneIrobStep(st, s, bag);
    hide R.CanRead, D.Begin, R.Handle;
  }

  lemma CheckStep(st: S.Sending, s: R.Recv, bag: set<Packet>)
    requires Idle(s) && Check(0) in bag && CheckAcks(s, 0, AsWritten)
    ensures Step(OneIrob(st, s, bag), Deliver(Check(0))) == OneIrob(st, s.(acks := s.acks + {0}), bag)
  {
    OneIrobStep(st, s, bag);
    hide R.CanRead, D.Begin, CheckAcks;
  }

  lemma AckStep(st: S.Sending, s: R.Recv, bag: set<Packet>)
    requires Idle(s) && 0 in s.acks
    ensures Step(OneIrob(st, s, bag), EmitAck(0)) == OneIrob(st, s.(acks := s.acks - {0}), bag + {Ack(0)})
  {
    OneIrobStep(st, s, bag);
    hide R.CanRead, D.Begin;
  }

  lemma LastStep(st: S.Sending, s: R.Recv, bag: set<Packet>)
    requires Idle(s) && Ack(0) in bag && st.complete
    ensures var net := Step(OneIrob(st, s, bag), Deliver(Ack(0)));
            && 0 in net.acked && 0 !in net.track.lattice.live && net.world.s == s && net.irobs == map[0 := Outgoing(true, st)]
  {
    OneIrobStep(st, s, bag);
    hide R.CanRead, D.Begin;
    AckErases(OneIrob(st, s, bag), 0, AsWritten);
  }

  // ----- The run -----

  ghost function SentBag(data: seq<byte>): set<Packet> {
    {} + {Data(BeginSent())} + {Data(ChunkSent(First(data)))} + {Data(BeginSent())} + {Data(ChunkSent(Second(data)))}
    + {Check(0)}
  }

  lemma Next(net: Net, acts: seq<Action>, k: nat, cur: Net, next: Net)
    requires k < |acts| && From(net, acts[..k], AsWritten) == cur && Step(cur, acts[k]) == next
    ensures From(net, acts[..k + 1], AsWritten) == next
  {
    hide Try, From;
    FromNext(net, acts, AsWritten, k);
  }

  lemma FreshIdle()
    ensures Idle(R.NewRecv())
  {
  }

  /** What the sender does. */
  lemma SenderSteps(data: seq<byte>)
    requires |data| > CHUNKSIZE + W.MIN_CHUNKSIZE
    ensures From(NewNet(), LossyRun(data)[..6], AsWritten) == OneIrob(Second(data).st, R.NewRecv(), SentBag(data))
  {
    hide Idle, S.GetReady, S.Bytes, Closed, Step, From, OneIrob, Whole, NewNet, First, Second;
    ChunksFollow(data);
    FirstStep(data);
    FreshIdle();
    var s, acts := R.NewRecv(), LossyRun(data);
    var b0: set<Packet> := {};
    var b1 := b0 + {Data(BeginSent())};
    var b2 := b1 + {Data(ChunkSent(First(data)))};
    var b3 := b2 + {Data(BeginSent())};
    var b4 := b3 + {Data(ChunkSent(Second(data)))};
    EmitSteps(Whole(data), s, b0);
    EmitChunkStep(Whole(data), s, b1, CHUNKSIZE);
    EmitSteps(First(data).st, s, b2);
    EmitChunkStep(First(data).st, s, b3, W.MIN_CHUNKSIZE);
    EmitSteps(Second(data).st, s, b4);
    NothingDone(NewNet(), acts);
    Next(NewNet(), acts, 0, NewNet(), OneIrob(Whole(data), s, b0));
    Next(NewNet(), acts, 1, OneIrob(Whole(data), s, b0), OneIrob(Whole(data), s, b1));
    Next(NewNet(), acts, 2, OneIrob(Whole(data), s, b1), OneIrob(First(data).st, s, b2));
    Next(NewNet(), acts, 3, OneIrob(First(data).st, s, b2), OneIrob(First(data).st, s, b3));
    Next(NewNet(), acts, 4, OneIrob(First(data).st, s, b3), OneIrob(Second(data).st, s, b4));
    Next(NewNet(), acts, 5, OneIrob(Second(data).st, s, b4), OneIrob(Second(data).st, s, b4 + {Check(0)}));
  }

  lemma NothingDone(net: Net, acts: seq<Action>)
    ensures From(net, acts[..0], AsWritten) == net
  {
  }

  lemma ChunksFollow(data: seq<byte>)
    requires |data| > CHUNKSIZE + W.MIN_CHUNKSIZE
    ensures S.GetReady(Whole(data), 0, CHUNKSIZE) == First(data) && First(data).length > 0
    ensures S.GetReady(First(data).st, 0, W.MIN_CHUNKSIZE) == Second(data) && Second(data).length > 0
    ensures Second(data).st.complete
  {
    hide S.GetReady, S.Bytes, Closed, Whole;
    ChunksReady(data);
  }

  ghost function Received(data: seq<byte>): R.Recv
    requires R.Matched(Begun()) && R.Matched(Got(Begun(), First(data)))
  {
    Got(Got(Begun(), First(data)), Second(data))
  }

  lemma ReceivedHolds(data: seq<byte>)
    requires |data| > CHUNKSIZE + W.MIN_CHUNKSIZE
    ensures Idle(Begun()) && Idle(Got(Begun(), First(data)))
    ensures var s := Received(data);
            Idle(s) && 0 in s.bodies && CheckAcks(s, 0, AsWritten)
            && Unread(s.bodies[0]) == data[..CHUNKSIZE + W.MIN_CHUNKSIZE]
  {
    hide S.GetReady, S.Bytes, Closed, Whole, Unread, R.HandleChunk, R.HandleBegin, CheckAcks;
    ChunksReady(data);
    BegunHolds();
    var r, q := First(data), Second(data);
    GotHolds(Begun(), [], r);
    var x := Chunk(r.seqno, r.offset, r.data);
    assert [] + [Some(x)] == [Some(x)];
    GotHolds(Got(Begun(), r), [Some(x)], q);
    var y := Chunk(q.seqno, q.offset, q.data);
    assert [Some(x)] + [Some(y)] == [Some(x), Some(y)];
    BothAcked(Received(data), x, y);
  }

  /** The rest: arrivals, the acknowledgement, and what it does. */
  lemma ReceiverSteps(data: seq<byte>)
    requires |data| > CHUNKSIZE + W.MIN_CHUNKSIZE
    ensures var net := From(OneIrob(Second(data).st, R.NewRecv(), SentBag(data)), LossyRun(data)[6..], AsWritten);
            && 0 in net.acked && 0 !in net.track.lattice.live
            && net.irobs == map[0 := Outgoing(true, Second(data).st)]
            && 0 in net.world.s.bodies && Unread(net.world.s.bodies[0]) == data[..CHUNKSIZE + W.MIN_CHUNKSIZE]
  {
    hide Idle, S.GetReady, S.Bytes, Closed, Whole, Unread, R.HandleChunk, R.HandleBegin, CheckAcks, Step, From, OneIrob, First,
         Second, SentBag, Begun, Got, Received, R.Matched;
    ChunksFollow(data);
    ReceivedHolds(data);
    FreshIdle();
    IdleMatched(data);
    BagHolds(data);
    var st, bag, rest := Second(data).st, SentBag(data), LossyRun(data)[6..];
    var s1, s2, s3 := Begun(), Got(Begun(), First(data)), Received(data);
    Handled(data);
    DataStep(st, R.NewRecv(), bag, BeginSent());
    DataStep(st, s1, bag, ChunkSent(First(data)));
    DataStep(st, s2, bag, ChunkSent(Second(data)));
    CheckStep(st, s3, bag);
    var s4 := s3.(acks := s3.acks + {0});
    AcksKeepIdle(s3, s4.acks);
    AckStep(st, s4, bag);
    var s5 := s4.(acks := s4.acks - {0});
    AcksKeepIdle(s4, s5.acks);
    LastStep(st, s5, bag + {Ack(0)});
    var net := OneIrob(st, R.NewRecv(), bag);
    NothingDone(net, rest);
    Next(net, rest, 0, net, OneIrob(st, s1, bag));
    Next(net, rest, 1, OneIrob(st, s1, bag), OneIrob(st, s2, bag));
    Next(net, rest, 2, OneIrob(st, s2, bag), OneIrob(st, s3, bag));
    Next(net, rest, 3, OneIrob(st, s3, bag), OneIrob(st, s4, bag));
    Next(net, rest, 4, OneIrob(st, s4, bag), OneIrob(st, s5, bag + {Ack(0)}));
    Next(net, rest, 5, OneIrob(st, s5, bag + {Ack(0)}), Step(OneIrob(st, s5, bag + {Ack(0)}), Deliver(Ack(0))));
    assert rest[..6] == rest;
  }

  lemma IdleMatched(data: seq<byte>)
    requires Idle(Begun()) && Idle(Got(Begun(), First(data)))
    ensures R.Matched(Begun()) && R.Matched(Got(Begun(), First(data))) && R.Matched(R.NewRecv())
  {
    hide Begun, Got, First;
  }

  lemma BagHolds(data: seq<byte>)
    ensures var bag := SentBag(data);
            && Data(BeginSent()) in bag && Data(ChunkSent(First(data))) in bag && Data(ChunkSent(Second(data))) in bag
            && Check(0) in bag
  {
    hide First, Second;
  }

  lemma Handled(data: seq<byte>)
    requires R.Matched(R.NewRecv()) && R.Matched(Begun()) && R.Matched(Got(Begun(), First(data)))
    ensures R.Handle(R.NewRecv(), BeginSent()) == Begun()
    ensures R.Handle(Begun(), ChunkSent(First(data))) == Got(Begun(), First(data))
    ensures R.Handle(Got(Begun(), First(data)), ChunkSent(Second(data))) == Received(data)
  {
    hide R.HandleBegin, R.HandleChunk, First, Second, R.Matched;
  }

  /** As written, the data check loses data: the sender has given up an IROB after the
      acknowledgement, and most of its bytes were never sent. */
  lemma LossyRunEnds(data: seq<byte>)
    requires |data| > CHUNKSIZE + W.MIN_CHUNKSIZE
    ensures var net := Run(LossyRun(data), AsWritten);
            && 0 in net.acked && GivenUp(net, 0)
            && net.irobs[0].st.complete && S.Bytes(net.irobs[0].st) == data
            && 0 in net.world.s.bodies && Unread(net.world.s.bodies[0]) == data[..CHUNKSIZE + W.MIN_CHUNKSIZE]
  {
    hide S.GetReady, S.Bytes, Closed, Whole, Unread, Try, OneIrob, Second, SentBag, From, NewNet;
    ChunksReady(data);
    SenderSteps(data);
    ReceiverSteps(data);
    var acts := LossyRun(data);
    assert acts[..6] + acts[6..] == acts;
    FromAppend(NewNet(), acts[..6], acts[6..], AsWritten);
  }

  /** Whatever both ends and the network do after that, the IROB never arrives. */
  lemma LossyRunLoses(data: seq<byte>, acts: seq<Action>)
    requires |data| > CHUNKSIZE + W.MIN_CHUNKSIZE
    ensures var net := Run(LossyRun(data) + acts, AsWritten);
            0 in net.irobs && !Sending(net, 0) && !V.AllArrived(net.world.s, 0)
  {
    hide Fair, GivenUp, Run, From, V.AllArrived, LossyRun, Unread, S.Bytes;
    LossyRunEnds(data);
    RunFair(LossyRun(data), AsWritten);
    GivenUpForever(Run(LossyRun(data), AsWritten), acts, AsWritten, 0);
    RunOn(LossyRun(data), acts);
    GivenUpMeans(Run(LossyRun(data) + acts, AsWritten));
  }

  lemma RunOn(a: seq<Action>, b: seq<Action>)
    ensures Run(a + b, AsWritten) == From(Run(a, AsWritten), b, AsWritten)
  {
    hide From, NewNet;
    FromAppend(NewNet(), a, b, AsWritten);
  }

  lemma GivenUpMeans(net: Net)
    requires GivenUp(net, 0)
    ensures 0 in net.irobs && !Sending(net, 0)
  {
  }
}
