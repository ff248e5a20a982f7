/** The work lists of the sender: no bytes and no End are forgotten although the lock is let go
    around every write. One connection; other threads take steps at any time. */
module SenderWork {
  import opened Sequences
  import S = SenderIrob

  /** An outgoing IROB. `tried` says that a write of its Begin has ended, well or not; `endSent`
      and `endLost` record what became of its End: written, or passed over when it was due. */
  datatype Job = Job(st: S.Sending, anonymous: bool, ondemand: bool, announced: bool, endAnnounced: bool,
                     tried: bool, endSent: bool, endLost: bool)

  /** What the sender thread is writing, without the lock. `all` is a Begin that carries the
      chunk and the End as well; a data check carries the Begin, a chunk and, if it is due, the
      End. */
  datatype Busy =
    | Idle
    | InBegin(id: int, all: bool)
    | InChunk(id: int)
    | InEnd(id: int)
    | InCheck(id: int, end: bool)

  /** `used` holds the ids of all IROBs there have been; `sane` is false once an assertion of
      the code has failed, and nothing happens after that. */
  datatype Desk = Desk(jobs: map<int, Job>, used: set<int>, newIrobs: set<int>, newChunks: set<int>,
                       finished: set<int>, checks: set<int>, busy: Busy, sane: bool)

  const MIN_CHUNKSIZE: nat := 1500

  datatype Step =
    | AppBegin(id: int, ondemand: bool)
    | AppSend(id: int, data: seq<byte>, ondemand: bool)
    | AppWrite(id: int, data: seq<byte>)
    | AppEnd(id: int)
    | Gone(id: int)
    | Request(id: int, deps: bool, chunk: Option<nat>, end: Option<nat>)
    | StartBegin(id: int)
    | BeginDone(ok: bool)
    | StartChunk(id: int, requested: nat)
    | ChunkDone(ok: bool)
    | StartEnd(id: int)
    | EndDone(ok: bool)
    | ScheduleChecks(ids: set<int>)
    | StartCheck(id: int)
    | CheckDone(ok: bool)

  function NewDesk(): Desk {
    Desk(map[], {}, {}, {}, {}, {}, Idle, true)
  }

  /** All bytes are cut and there will be no more: the End is due. */
  predicate Due(st: S.Sending) {
    st.complete && S.AllBytesChunked(st)
  }

  function NewJob(st: S.Sending, anonymous: bool, ondemand: bool): Job {
    Job(st, anonymous, ondemand, false, false, false, false, Due(st))
  }

  function Put(d: Desk, id: int, j: Job): Desk {
    d.(jobs := d.jobs[id := j])
  }

  /** Requests name pieces that were cut; they may come for any IROB, since closing has every IROB
      checked, tried or not. The sender thread does one thing at a time; ids are not used again. */
  predicate Enabled(d: Desk, s: Step) {
    && d.sane
    && match s
       case AppBegin(id, _) => id !in d.used
       case AppSend(id, _, _) => id !in d.used
       case AppWrite(id, _) => id in d.jobs && !d.jobs[id].st.complete
       case AppEnd(id) => id in d.jobs && !d.jobs[id].st.complete
       case Gone(id) => true
       case Request(id, _, chunk, _) =>
         id in d.jobs && chunk.Some? ==> chunk.value < |d.jobs[id].st.sent|
       case StartBegin(id) => d.busy.Idle? && id in d.newIrobs
       case BeginDone(_) => d.busy.InBegin?
       case StartChunk(id, requested) => d.busy.Idle? && id in d.newChunks && requested > 0
       case ChunkDone(_) => d.busy.InChunk?
       case StartEnd(id) => d.busy.Idle? && id in d.finished
       case EndDone(_) => d.busy.InEnd?
       case ScheduleChecks(ids) => ids <= d.jobs.Keys
       case StartCheck(id) => d.busy.Idle? && id in d.checks
       case CheckDone(_) => d.busy.InCheck?
  }

  // ----- Steps of other threads -----

  function Accept(d: Desk, id: int, j: Job): Desk {
    Put(d, id, j).(used := d.used + {id}, newIrobs := d.newIrobs + {id})
  }

  function Write(d: Desk, id: int, data: seq<byte>): Desk
    requires id in d.jobs
  {
    var j := d.jobs[id];
    var t := Put(d, id, j.(st := S.AddApp(j.st, data)));
    if j.announced then t.(newChunks := t.newChunks + {id}) else t
  }

  function End(d: Desk, id: int): Desk
    requires id in d.jobs
  {
    var j := d.jobs[id].(st := S.EndApp(d.jobs[id].st));
    if !S.AllBytesChunked(j.st) then Put(d, id, j)
    else if j.announced && !j.endAnnounced then Put(d, id, j.(endLost := false)).(finished := d.finished + {id})
    else Put(d, id, j.(endLost := true))
  }

  function Serve(d: Desk, id: int, deps: bool, chunk: Option<nat>, end: Option<nat>): Desk {
    if id !in d.jobs then d
    else
      var j := d.jobs[id];
      var due := end.Some? && Due(j.st);
      var a := if chunk.Some? then S.MarkNotReceived(j.st, chunk.value) else j.st;
      var b := if end.Some? then S.MarkDropPoint(a, end.value) else a;
      Put(d, id, j.(st := b, endLost := j.endLost && !due)).(
        newIrobs := if deps then d.newIrobs + {id} else d.newIrobs,
        newChunks := if chunk.Some? || end.Some? then d.newChunks + {id} else d.newChunks,
        finished := if due then d.finished + {id} else d.finished)
  }

  // ----- Steps of the sender thread -----

  /** A small complete foreground IROB goes out whole with its Begin. */
  predicate SmallAndWhole(j: Job) {
    j.st.complete && |S.Bytes(j.st)| < MIN_CHUNKSIZE && j.ondemand && !j.announced
  }

  ghost function BeginStarts(d: Desk, id: int): Desk {
    var t := d.(newIrobs := d.newIrobs - {id});
    if id !in d.jobs then t
    else if SmallAndWhole(d.jobs[id]) then
      var r := S.GetReady(d.jobs[id].st, 0, |S.Bytes(d.jobs[id].st)|);
      Put(t, id, d.jobs[id].(st := r.st)).(busy := InBegin(id, r.length > 0), sane := S.AllBytesChunked(r.st))
    else t.(busy := InBegin(id, false))
  }

  function BeginEnds(d: Desk, ok: bool): Desk
    requires d.busy.InBegin?
  {
    var id, t := d.busy.id, d.(busy := Idle);
    if id !in d.jobs then (if ok then t else t.(newIrobs := t.newIrobs + {id}))
    else
      var j := d.jobs[id].(tried := true);
      if !ok then
        Put(t, id, j.(endLost := j.endLost || d.busy.all)).(newIrobs := t.newIrobs + {id})
      else if d.busy.all then
        if Due(j.st) then Put(t, id, j.(announced := true, endAnnounced := true, endSent := true))
        else Put(t, id, j.(announced := true))
      else if j.anonymous || j.st.chunks != [] then
        Put(t, id, j.(announced := true)).(newChunks := t.newChunks + {id})
      else Put(t, id, j.(announced := true))
  }

  ghost function ChunkStarts(d: Desk, id: int, requested: nat): Desk {
    var t := d.(newChunks := d.newChunks - {id});
    if id !in d.jobs then t
    else
      var r := S.GetReady(d.jobs[id].st, 0, requested);
      if r.length == 0 then t else Put(t, id, d.jobs[id].(st := r.st)).(busy := InChunk(id))
  }

  function ChunkEnds(d: Desk, ok: bool): Desk
    requires d.busy.InChunk?
  {
    var id, t := d.busy.id, d.(busy := Idle);
    if id !in d.jobs then (if ok then t else t.(newChunks := t.newChunks + {id}))
    else
      var j, u := d.jobs[id], t.(newChunks := t.newChunks + {id});
      if !Due(j.st) then u
      else if !ok then Put(u, id, j.(endLost := true))
      else if j.endAnnounced then u
      else Put(u, id, j.(endLost := false)).(finished := u.finished + {id})
  }

  function EndStarts(d: Desk, id: int): Desk {
    var t := d.(finished := d.finished - {id});
    if id in d.jobs then t.(busy := InEnd(id)) else t
  }

  function EndEnds(d: Desk, ok: bool): Desk
    requires d.busy.InEnd?
  {
    var id, t := d.busy.id, d.(busy := Idle);
    if !ok then t.(finished := t.finished + {id})
    else if id in d.jobs then Put(t, id, d.jobs[id].(endSent := true))
    else t
  }

  /** A data check brings what the other end may lack most: the Begin, the next piece or, if there
      is none, the last one again, and the End if it is due. */
  ghost function CheckStarts(d: Desk, id: int): Desk {
    var t := d.(checks := d.checks - {id});
    if id !in d.jobs then t.(busy := InCheck(id, false))
    else
      var st := S.GetReady(d.jobs[id].st, 0, MIN_CHUNKSIZE).st;
      Put(t, id, d.jobs[id].(st := st)).(busy := InCheck(id, Due(st)))
  }

  function CheckEnds(d: Desk, ok: bool): Desk
    requires d.busy.InCheck?
  {
    var id, t := d.busy.id, d.(busy := Idle);
    if !ok then t.(checks := t.checks + {id})
    else if d.busy.end && id in d.jobs then Put(t, id, d.jobs[id].(endSent := true))
    else t
  }

  ghost function After(d: Desk, s: Step): Desk
    requires Enabled(d, s)
  {
    match s
    case AppBegin(id, ondemand) => Accept(d, id, NewJob(S.NewSending(), false, ondemand))
    case AppSend(id, data, ondemand) => Accept(d, id, NewJob(S.EndApp(S.AddApp(S.NewSending(), data)), true, ondemand))
    case AppWrite(id, data) => Write(d, id, data)
    case AppEnd(id) => End(d, id)
    case Gone(id) => d.(jobs := d.jobs - {id})
    case Request(id, deps, chunk, end) => Serve(d, id, deps, chunk, end)
    case StartBegin(id) => BeginStarts(d, id)
    case BeginDone(ok) => BeginEnds(d, ok)
    case StartChunk(id, requested) => ChunkStarts(d, id, requested)
    case ChunkDone(ok) => ChunkEnds(d, ok)
    case StartEnd(id) => EndStarts(d, id)
    case EndDone(ok) => EndEnds(d, ok)
    case ScheduleChecks(ids) => d.(checks := d.checks + ids)
    case StartCheck(id) => CheckStarts(d, id)
    case CheckDone(ok) => CheckEnds(d, ok)
  }

  // ----- The invariant -----

  /** With one connection its cursor is always behind the last piece. */
  ghost predicate Cursor(st: S.Sending) {
    S.Valid(st) && !st.onAll && S.NextSeqno(st, 0) == |st.sent|
  }

  /** Where the bytes of `id` are accounted for: there is a task for what is unsent, or a write
      of a chunk after which there will be. */
  ghost predicate BytesInHand(d: Desk, id: int)
    requires id in d.jobs
  {
    var j := d.jobs[id];
    && (!j.announced ==> id in d.newIrobs || (d.busy.InBegin? && d.busy.id == id))
    && (j.announced && !S.AllBytesChunked(j.st) ==> id in d.newChunks || d.busy == InChunk(id))
    && (j.st.resend != {} ==> id in d.newChunks || d.busy == InChunk(id))
  }

  /** And its End, once it is due: sent, queued, being written, to be queued after the write under
      way, or to go with a data check that is waiting. */
  predicate EndInHand(d: Desk, id: int)
    requires id in d.jobs
  {
    Due(d.jobs[id].st) ==>
      || d.jobs[id].endSent || id in d.finished
      || d.busy == InEnd(id) || d.busy == InChunk(id) || d.busy == InBegin(id, true)
      || id in d.checks || d.busy == InCheck(id, true)
  }

  ghost predicate JobOk(d: Desk, id: int)
    requires id in d.jobs
  {
    var j := d.jobs[id];
    && Cursor(j.st) && id in d.used
    && (j.endAnnounced ==> j.endSent && j.st.complete) && (j.endLost ==> j.st.complete)
    && (id in d.finished || d.busy in {InEnd(id), InBegin(id, true), InCheck(id, true)} ==> Due(j.st))
    && BytesInHand(d, id) && (EndInHand(d, id) || j.endLost)
  }

  ghost predicate IdsOk(d: Desk) {
    && (forall id :: id in d.newIrobs || id in d.newChunks || id in d.finished || id in d.checks ==> id in d.used)
    && (!d.busy.Idle? ==> d.busy.id in d.used)
  }

  ghost predicate DeskOk(d: Desk) {
    d.sane ==> IdsOk(d) && forall id :: id in d.jobs ==> JobOk(d, id)
  }

  // ----- The sending state -----

  /** Taking something to send: unless there is nothing at all, one piece, marked or new. */
  lemma CursorMoves(st: S.Sending, requested: nat)
    requires Cursor(st) && requested > 0
    ensures var r := S.GetReady(st, 0, requested);
            && Cursor(r.st) && r.st.complete == st.complete && S.Bytes(r.st) == S.Bytes(st)
            && (r.length == 0 ==> S.AllBytesChunked(st) && st.resend == {} && r.st == st)
            && (S.AllBytesChunked(st) ==> S.AllBytesChunked(r.st))
            && (if st.resend == {} then r.st.resend == {} else r.st.sent == st.sent && r.st.chunks == st.chunks)
            && (st.resend == {} && requested >= st.numBytes ==> S.AllBytesChunked(r.st))
  {
    hide S.Valid, S.GetReady, S.Bytes, S.SentBytes, S.AllBytesChunked, S.Pieces;
    AllCutIs(st);
    S.CursorPoints(st, 0);
    if st.resend != {} {
      S.ReadyResend(st, 0, requested);
      SameChunked(st, S.GetReady(st, 0, requested).st);
    } else {
      S.ReadyNew(st, 0, requested);
      NewPieceMoves(st, requested);
      AllCutIs(S.GetReady(st, 0, requested).st);
    }
  }

  lemma AllCutIs(st: S.Sending)
    requires S.Valid(st)
    ensures S.AllBytesChunked(st) <==> S.SentBytes(st) == st.numBytes
    ensures S.SentBytes(st) <= st.numBytes
  {
    hide S.Total;
  }

  lemma SameChunked(st: S.Sending, t: S.Sending)
    requires t.chunks == st.chunks && t.sent == st.sent
    ensures S.AllBytesChunked(t) == S.AllBytesChunked(st)
  {
  }

  lemma NewPieceMoves(st: S.Sending, requested: nat)
    requires Cursor(st) && requested > 0 && st.resend == {}
    ensures var r := S.GetReady(st, 0, requested);
            && S.NextSeqno(r.st, 0) == |r.st.sent| && r.st.chunks == st.chunks && r.st.numBytes == st.numBytes
            && (r.length == 0 ==> r.st == st)
            && S.SentBytes(r.st) == S.SentBytes(st) + r.length
  {
    var r := S.GetReady(st, 0, requested);
    S.CursorPoints(st, 0);
    hide S.Valid, S.GetBytes, S.Total;
    if r.length > 0 {
      S.SentSnoc(st.sent, S.Cut(|st.sent|, S.IrobOffset(st, 0), r.length));
    }
  }

  lemma FreshCursor(data: seq<byte>)
    ensures Cursor(S.NewSending()) && S.NewSending().resend == {} && S.NewSending().sent == [] && !S.NewSending().complete
    ensures var st := S.EndApp(S.AddApp(S.NewSending(), data));
            Cursor(st) && st.resend == {} && st.sent == []
  {
    S.NewSendingValid();
    WriteKeepsCursor(S.NewSending(), data);
    EndKeepsCursor(S.AddApp(S.NewSending(), data));
  }

  lemma WriteKeepsCursor(st: S.Sending, data: seq<byte>)
    requires Cursor(st) && !st.complete
    ensures Cursor(S.AddApp(st, data)) && S.AddApp(st, data).resend == st.resend && !S.AddApp(st, data).complete
  {
    S.AddAppKeeps(st, data);
    hide S.Valid;
  }

  lemma EndKeepsCursor(st: S.Sending)
    requires Cursor(st)
    ensures var t := S.EndApp(st);
            Cursor(t) && t.resend == st.resend && t.complete && (S.AllBytesChunked(t) <==> S.AllBytesChunked(st))
  {
    S.EndAppKeeps(st);
    hide S.Valid;
  }

  lemma MarksKeepCursor(st: S.Sending, chunk: Option<nat>, end: Option<nat>)
    requires Cursor(st) && (chunk.Some? ==> chunk.value < |st.sent|)
    ensures var a := if chunk.Some? then S.MarkNotReceived(st, chunk.value) else st;
            var b := if end.Some? then S.MarkDropPoint(a, end.value) else a;
            && Cursor(b) && b == st.(resend := b.resend)
            && (chunk.None? && end.None? ==> b == st)
  {
    var a := if chunk.Some? then S.MarkNotReceived(st, chunk.value) else st;
    if chunk.Some? {
      S.MarksKeep(st, chunk.value, 0);
    }
    if end.Some? {
      S.MarksKeep(a, |a.sent| + 1, end.value);
    }
    hide S.Valid;
  }

  // ----- Every step keeps the invariant -----

  /** For an IROB that a step does not touch, nothing changes. */
  ghost predicate Beside(d: Desk, t: Desk, id: int) {
    && (t.sane ==> d.sane)
    && (forall k :: k in t.jobs && k != id ==> k in d.jobs && t.jobs[k] == d.jobs[k])
    && (forall k :: k != id ==> (k in d.newIrobs <==> k in t.newIrobs) && (k in d.newChunks <==> k in t.newChunks)
                                && (k in d.finished <==> k in t.finished) && (k in d.checks <==> k in t.checks))
    && (t.busy == d.busy || ((d.busy.Idle? || d.busy.id == id) && (t.busy.Idle? || t.busy.id == id)))
    && d.used <= t.used <= d.used + {id}
  }

  lemma BesideKeeps(d: Desk, t: Desk, id: int)
    requires DeskOk(d) && d.sane && Beside(d, t, id)
    requires id in t.used && (t.sane && id in t.jobs ==> JobOk(t, id))
    ensures DeskOk(t)
  {
    hide Cursor, S.AllBytesChunked;
    forall k | t.sane && k in t.jobs
      ensures JobOk(t, k)
    {
      if k != id {
        assert JobOk(d, k);
      }
    }
  }

  lemma AcceptKeeps(d: Desk, id: int, j: Job)
    requires DeskOk(d) && d.sane && id !in d.used && Cursor(j.st) && j.st.resend == {}
    requires j == NewJob(j.st, j.anonymous, j.ondemand)
    ensures DeskOk(Accept(d, id, j))
  {
    hide Cursor, S.AllBytesChunked;
    BesideKeeps(d, Accept(d, id, j), id);
  }

  lemma WriteKeeps(d: Desk, id: int, data: seq<byte>)
    requires DeskOk(d) && d.sane && id in d.jobs && !d.jobs[id].st.complete
    ensures DeskOk(Write(d, id, data))
  {
    hide Cursor, S.AllBytesChunked, S.AddApp;
    assert JobOk(d, id);
    WriteKeepsCursor(d.jobs[id].st, data);
    BesideKeeps(d, Write(d, id, data), id);
  }

  lemma EndKeeps(d: Desk, id: int)
    requires DeskOk(d) && d.sane && id in d.jobs && !d.jobs[id].st.complete
    ensures DeskOk(End(d, id))
  {
    hide Cursor, S.AllBytesChunked, S.EndApp;
    assert JobOk(d, id);
    EndKeepsCursor(d.jobs[id].st);
    BesideKeeps(d, End(d, id), id);
  }

  lemma ServeKeeps(d: Desk, id: int, deps: bool, chunk: Option<nat>, end: Option<nat>)
    requires DeskOk(d) && d.sane && Enabled(d, Request(id, deps, chunk, end))
    ensures DeskOk(Serve(d, id, deps, chunk, end))
  {
    hide Cursor, S.AllBytesChunked, S.MarkNotReceived, S.MarkDropPoint;
    if id in d.jobs {
      assert JobOk(d, id);
      MarksKeepCursor(d.jobs[id].st, chunk, end);
  
      SameCuts(d.jobs[id].st, chunk, end);
      BesideKeeps(d, Serve(d, id, deps, chunk, end), id);
    }
  }

  lemma SameCuts(st: S.Sending, chunk: Option<nat>, end: Option<nat>)
    ensures var a := if chunk.Some? then S.MarkNotReceived(st, chunk.value) else st;
            var b := if end.Some? then S.MarkDropPoint(a, end.value) else a;
            S.AllBytesChunked(b) == S.AllBytesChunked(st) && b.complete == st.complete && S.Bytes(b) == S.Bytes(st)
  {
  }

  lemma BeginStartKeeps(d: Desk, id: int)
    requires DeskOk(d) && d.sane && d.busy.Idle? && id in d.newIrobs
    ensures DeskOk(BeginStarts(d, id))
  {
    hide Cursor, S.Total, S.SentBytes, S.AppExtents, S.AllBytesChunked, S.GetReady, S.Bytes;
    if id in d.jobs {
      assert JobOk(d, id);
      TakingAll(d.jobs[id].st);
    }
    BesideKeeps(d, BeginStarts(d, id), id);
  }

  /** Taking as much as there is. */
  lemma TakingAll(st: S.Sending)
    requires Cursor(st)
    ensures var r := S.GetReady(st, 0, |S.Bytes(st)|);
            && Cursor(r.st) && r.st.complete == st.complete && S.Bytes(r.st) == S.Bytes(st)
            && (r.length == 0 ==> S.AllBytesChunked(st) && st.resend == {} && r.st == st)
            && (S.AllBytesChunked(st) ==> S.AllBytesChunked(r.st))
            && (if st.resend == {} then r.st.resend == {} && S.AllBytesChunked(r.st)
                else S.AllBytesChunked(r.st) == S.AllBytesChunked(st))
  {
    if S.Bytes(st) == [] {
      NothingToTake(st);
    } else {
      CursorMoves(st, |S.Bytes(st)|);
      hide S.GetReady;
    }
  }

  lemma NothingToTake(st: S.Sending)
    requires Cursor(st) && S.Bytes(st) == []
    ensures S.GetReady(st, 0, 0).length == 0 && S.GetReady(st, 0, 0).st == st && S.AllBytesChunked(st) && st.resend == {}
  {
    S.CursorPoints(st, 0);
    if st.sent != [] {
      S.CutInside(st, 0);
    }
    S.ReadyNew(st, 0, 0);
  }

  lemma BeginEndKeeps(d: Desk, ok: bool)
    requires DeskOk(d) && d.sane && d.busy.InBegin?
    ensures DeskOk(BeginEnds(d, ok))
  {
    hide Cursor, S.AllBytesChunked;
    var id := d.busy.id;
    if id in d.jobs {
      assert JobOk(d, id);
      NoChunksNoBytes(d.jobs[id].st);
    }
    BesideKeeps(d, BeginEnds(d, ok), id);
  }

  lemma NoChunksNoBytes(st: S.Sending)
    requires Cursor(st)
    ensures st.chunks == [] ==> S.AllBytesChunked(st)
  {
    hide S.Contiguous;
    assert st.chunks == [] ==> S.Total(S.AppExtents(st.chunks)) == 0;
  }

  lemma ChunkStartKeeps(d: Desk, id: int, requested: nat)
    requires DeskOk(d) && d.sane && d.busy.Idle? && id in d.newChunks && requested > 0
    ensures DeskOk(ChunkStarts(d, id, requested))
  {
    hide Cursor, S.AllBytesChunked, S.GetReady, S.Bytes;
    if id in d.jobs {
      assert JobOk(d, id);
      CursorMoves(d.jobs[id].st, requested);
    }
    BesideKeeps(d, ChunkStarts(d, id, requested), id);
  }

  lemma ChunkEndKeeps(d: Desk, ok: bool)
    requires DeskOk(d) && d.sane && d.busy.InChunk?
    ensures DeskOk(ChunkEnds(d, ok))
  {
    hide Cursor, S.AllBytesChunked;
    var id := d.busy.id;
    assert id in d.jobs ==> JobOk(d, id);
    BesideKeeps(d, ChunkEnds(d, ok), id);
  }

  lemma EndStartKeeps(d: Desk, id: int)
    requires DeskOk(d) && d.sane && d.busy.Idle? && id in d.finished
    ensures DeskOk(EndStarts(d, id))
  {
    assert id in d.jobs ==> JobOk(d, id);
    hide Cursor, S.AllBytesChunked;
    BesideKeeps(d, EndStarts(d, id), id);
  }

  lemma EndEndKeeps(d: Desk, ok: bool)
    requires DeskOk(d) && d.sane && d.busy.InEnd?
    ensures DeskOk(EndEnds(d, ok))
  {
    var id := d.busy.id;
    assert id in d.jobs ==> JobOk(d, id);
    hide Cursor, S.AllBytesChunked;
    BesideKeeps(d, EndEnds(d, ok), id);
  }

  lemma CheckStartKeeps(d: Desk, id: int)
    requires DeskOk(d) && d.sane && d.busy.Idle? && id in d.checks
    ensures DeskOk(CheckStarts(d, id))
  {
    hide Cursor, S.AllBytesChunked, S.GetReady, S.Bytes;
    if id in d.jobs {
      assert JobOk(d, id);
      CursorMoves(d.jobs[id].st, MIN_CHUNKSIZE);
    }
    BesideKeeps(d, CheckStarts(d, id), id);
  }

  lemma CheckEndKeeps(d: Desk, ok: bool)
    requires DeskOk(d) && d.sane && d.busy.InCheck?
    ensures DeskOk(CheckEnds(d, ok))
  {
    hide Cursor, S.AllBytesChunked;
    var id := d.busy.id;
    assert id in d.jobs ==> JobOk(d, id);
    BesideKeeps(d, CheckEnds(d, ok), id);
  }

  lemma ChecksKeep(d: Desk, ids: set<int>)
    requires DeskOk(d) && d.sane && ids <= d.jobs.Keys
    ensures DeskOk(d.(checks := d.checks + ids))
  {
    hide Cursor, S.AllBytesChunked;
    var t := d.(checks := d.checks + ids);
    forall k | k in t.jobs
      ensures JobOk(t, k)
    {
      assert JobOk(d, k);
    }
    forall k | k in ids
      ensures k in d.used
    {
      assert k in d.jobs && JobOk(d, k);
    }
  }

  lemma GoneKeeps(d: Desk, id: int)
    requires DeskOk(d) && d.sane
    ensures DeskOk(d.(jobs := d.jobs - {id}))
  {
    hide Cursor, S.AllBytesChunked;
    var t := d.(jobs := d.jobs - {id});
    forall k | k in t.jobs
      ensures JobOk(t, k)
    {
      assert JobOk(d, k);
    }
  }

  lemma StepKeeps(d: Desk, s: Step)
    requires DeskOk(d) && Enabled(d, s)
    ensures DeskOk(After(d, s))
  {
    hide DeskOk, Cursor, S.AddApp, S.EndApp, S.NewSending, Accept, Write, End, Serve, BeginStarts, BeginEnds, ChunkStarts,
         ChunkEnds, EndStarts, EndEnds, CheckStarts, CheckEnds;
    match s
    case AppBegin(id, ondemand) =>
      FreshCursor([]);
      AcceptKeeps(d, id, NewJob(S.NewSending(), false, ondemand));
    case AppSend(id, data, ondemand) =>
      FreshCursor(data);
      AcceptKeeps(d, id, NewJob(S.EndApp(S.AddApp(S.NewSending(), data)), true, ondemand));
    case AppWrite(id, data) => WriteKeeps(d, id, data);
    case AppEnd(id) => EndKeeps(d, id);
    case Gone(id) => GoneKeeps(d, id);
    case Request(id, deps, chunk, end) => ServeKeeps(d, id, deps, chunk, end);
    case StartBegin(id) => BeginStartKeeps(d, id);
    case BeginDone(ok) => BeginEndKeeps(d, ok);
    case StartChunk(id, requested) => ChunkStartKeeps(d, id, requested);
    case ChunkDone(ok) => ChunkEndKeeps(d, ok);
    case StartEnd(id) => EndStartKeeps(d, id);
    case EndDone(ok) => EndEndKeeps(d, ok);
    case ScheduleChecks(ids) => ChecksKeep(d, ids);
    case StartCheck(id) => CheckStartKeeps(d, id);
    case CheckDone(ok) => CheckEndKeeps(d, ok);
  }

  // ----- Runs -----

  /** Steps that are not enabled are skipped. */
  ghost function Run(steps: seq<Step>): Desk {
    if steps == [] then NewDesk()
    else
      var d, s := Run(steps[..|steps| - 1]), steps[|steps| - 1];
      if Enabled(d, s) then After(d, s) else d
  }

  lemma {:induction false} RunOk(steps: seq<Step>)
    ensures DeskOk(Run(steps))
  {
    hide DeskOk, Enabled, After;
    if steps == [] {
      NewDeskOk();
    } else {
      var before, s := steps[..|steps| - 1], steps[|steps| - 1];
      RunOk(before);
      if Enabled(Run(before), s) {
        StepKeeps(Run(before), s);
      }
    }
  }

  lemma NewDeskOk()
    ensures DeskOk(NewDesk())
  {
  }

  /** Over every run, failed writes included: a live IROB with unsent or re-requested bytes has a
      task waiting or a chunk being written, one not yet announced has its Begin waiting or being
      written, and one that is finished and wholly cut has its End sent, waiting, being written or
      to come after the write under way, unless the End was passed over. */
  lemma NothingForgotten(steps: seq<Step>, id: int)
    ensures var d := Run(steps);
            d.sane && id in d.jobs ==> BytesInHand(d, id) && (EndInHand(d, id) || d.jobs[id].endLost)
  {
    RunOk(steps);
    var d := Run(steps);
    hide Run;
    assert d.sane && id in d.jobs ==> JobOk(d, id);
  }

  /** When the sender has nothing to do, everything has been sent. */
  lemma IdleMeansSent(steps: seq<Step>, id: int)
    ensures var d := Run(steps);
            d.sane && d.busy.Idle? && d.newIrobs + d.newChunks + d.finished + d.checks == {} && id in d.jobs ==>
              var j := d.jobs[id];
              && j.announced && S.AllBytesChunked(j.st) && j.st.resend == {}
              && (j.st.complete ==> j.endSent || j.endLost)
  {
    RunOk(steps);
    var d := Run(steps);
    hide Run;
    assert d.sane && id in d.jobs ==> JobOk(d, id);
  }

  // ----- Ends passed over -----

  predicate Fails(s: Step) {
    (s.BeginDone? && !s.ok) || (s.ChunkDone? && !s.ok)
  }

  /** A data check or a resend request for an IROB whose Begin has not been tried. */
  predicate Early(d: Desk, s: Step) {
    (s.Request? || s.StartCheck?) && s.id in d.jobs && !d.jobs[s.id].tried
  }

  ghost predicate NoneEarly(steps: seq<Step>) {
    steps == [] || (NoneEarly(steps[..|steps| - 1]) && !Early(Run(steps[..|steps| - 1]), steps[|steps| - 1]))
  }

  /** Without failed writes an unannounced IROB is untouched, but for a Begin that carries all. */
  ghost predicate Untouched(d: Desk, id: int)
    requires id in d.jobs
  {
    var j := d.jobs[id];
    && (!j.announced ==> !j.tried && id !in d.newChunks && d.busy != InChunk(id) && j.st.resend == {}
                         && (j.st.sent == [] || d.busy == InBegin(id, true)))
    && (j.endLost ==> S.Bytes(j.st) == [])
    && (d.busy == InBegin(id, true) ==> j.st.complete)
  }

  ghost predicate Clean(d: Desk) {
    d.sane && forall id :: id in d.jobs ==> Untouched(d, id)
  }

  /** The application ends an IROB all of whose bytes are already cut but which is not announced -
      as is so after a failed Begin and a resend request, or for an IROB without bytes - or the
      write of its last chunk, or of a Begin that carries it whole, fails. */
  predicate PassesOver(d: Desk, s: Step, id: int)
    requires id in d.jobs
  {
    var j := d.jobs[id];
    && !j.endSent && id !in d.finished && id !in d.checks
    && (|| (s == AppEnd(id) && S.AllBytesChunked(j.st) && !j.announced && d.busy != InChunk(id))
        || (s == ChunkDone(false) && d.busy == InChunk(id) && Due(j.st))
        || (s == BeginDone(false) && d.busy == InBegin(id, true)))
  }

  lemma OthersPassOver(d: Desk, s: Step, id: int)
    requires Enabled(d, s) && !s.StartBegin? && !s.BeginDone? && !s.StartChunk? && !s.StartCheck?
    requires id in d.jobs && JobOk(d, id) && id in After(d, s).jobs && EndInHand(d, id)
    ensures !EndInHand(After(d, s), id) <==> PassesOver(d, s, id)
  {
    hide Cursor, S.AllBytesChunked, S.Bytes, S.AddApp, S.MarkNotReceived, S.MarkDropPoint, S.NewSending,
         BeginStarts, BeginEnds, ChunkStarts, BytesInHand;
    match s
    case AppWrite(k, data) =>
      if k == id {
        WriteKeepsCursor(d.jobs[id].st, data);
      }
    case AppEnd(k) =>
      if k == id {
        EndKeepsCursor(d.jobs[id].st);
      }
    case Request(k, deps, chunk, end) => if k in d.jobs { SameCuts(d.jobs[k].st, chunk, end); }
    case _ =>
  }

  lemma BeginStartPassesOver(d: Desk, k: int, id: int)
    requires Enabled(d, StartBegin(k)) && BeginStarts(d, k).sane
    requires id in d.jobs && JobOk(d, id) && EndInHand(d, id)
    ensures id in BeginStarts(d, k).jobs && EndInHand(BeginStarts(d, k), id)
  {
    hide Cursor, S.AllBytesChunked, S.GetReady, S.Bytes, BytesInHand;
    TakingAll(d.jobs[id].st);
  }

  lemma BeginEndPassesOver(d: Desk, ok: bool, id: int)
    requires d.busy.InBegin? && id in d.jobs && JobOk(d, id) && EndInHand(d, id)
    ensures !EndInHand(BeginEnds(d, ok), id) <==> PassesOver(d, BeginDone(ok), id)
  {
    hide Cursor, S.AllBytesChunked, BytesInHand;
  }

  lemma TakingPassesOver(d: Desk, s: Step, id: int)
    requires Enabled(d, s) && (s.StartChunk? || s.StartCheck?) && After(d, s).sane
    requires id in d.jobs && JobOk(d, id) && id in After(d, s).jobs && EndInHand(d, id)
    ensures !EndInHand(After(d, s), id) <==> PassesOver(d, s, id)
  {
    hide Cursor, S.AllBytesChunked, S.GetReady, S.Bytes, BytesInHand, BeginStarts, BeginEnds;
    CursorMoves(d.jobs[id].st, if s.StartChunk? then s.requested else MIN_CHUNKSIZE);
  }

  /** Exactly these steps leave a due End unqueued. */
  lemma PassedOverIff(d: Desk, s: Step, id: int)
    requires DeskOk(d) && Enabled(d, s) && After(d, s).sane
    requires id in d.jobs && id in After(d, s).jobs && EndInHand(d, id)
    ensures !EndInHand(After(d, s), id) <==> PassesOver(d, s, id)
  {
    hide BeginStarts, BeginEnds, ChunkStarts, CheckStarts, EndInHand;
    assert JobOk(d, id);
    if s.StartBegin? {
      BeginStartPassesOver(d, s.id, id);
    } else if s.BeginDone? {
      BeginEndPassesOver(d, s.ok, id);
    } else if s.StartChunk? || s.StartCheck? {
      TakingPassesOver(d, s, id);
    } else {
      OthersPassOver(d, s, id);
    }
  }

  // ----- Recovering from failed writes -----

  /** The IROBs whose Begin or chunk could not be written, and which are yet to be checked for it:
      the sender thread that fails has all it sent on its connection checked before it ends. */
  ghost function Owed(steps: seq<Step>): set<int> {
    if steps == [] then {}
    else
      var before, s := steps[..|steps| - 1], steps[|steps| - 1];
      var d := Run(before);
      if !Enabled(d, s) then Owed(before)
      else if Fails(s) then Owed(before) + {d.busy.id}
      else if s.ScheduleChecks? then Owed(before) - s.ids
      else Owed(before)
  }

  /** The application's own step makes an End due that nobody will queue. */
  predicate ComesLate(d: Desk, s: Step) {
    || (s.AppEnd? && s.id in d.jobs && S.AllBytesChunked(d.jobs[s.id].st) && !d.jobs[s.id].announced)
    || (s.AppSend? && s.data == [])
  }

  /** The IROBs that were ended, or sent without bytes, so. */
  ghost function Late(steps: seq<Step>): set<int> {
    if steps == [] then {}
    else
      var before, s := steps[..|steps| - 1], steps[|steps| - 1];
      var d := Run(before);
      if Enabled(d, s) && ComesLate(d, s) then Late(before) + {s.id} else Late(before)
  }

  lemma FreshEnds(d: Desk, s: Step, id: int)
    requires Enabled(d, s) && id !in d.jobs && id in After(d, s).jobs
    ensures EndInHand(After(d, s), id) || (ComesLate(d, s) && s.id == id)
  {
    hide S.GetReady, S.AllBytesChunked;
    if s.AppSend? {
      FreshCursor(s.data);
      NothingCut(S.EndApp(S.AddApp(S.NewSending(), s.data)));
    }
  }

  lemma StepEnds(d: Desk, s: Step, id: int)
    requires DeskOk(d) && Enabled(d, s) && After(d, s).sane && id in d.jobs && id in After(d, s).jobs
    ensures EndInHand(d, id) ==> || EndInHand(After(d, s), id) || (ComesLate(d, s) && s.id == id)
                                 || (Fails(s) && d.busy.id == id)
    ensures s.ScheduleChecks? && id in s.ids ==> EndInHand(After(d, s), id)
  {
    hide After, EndInHand, DeskOk, S.AllBytesChunked;
    if EndInHand(d, id) {
      PassedOverIff(d, s, id);
    }
    if s.ScheduleChecks? && id in s.ids {
      ChecksTakeEnds(d, s.ids, id);
    }
  }

  lemma ChecksTakeEnds(d: Desk, ids: set<int>, id: int)
    requires Enabled(d, ScheduleChecks(ids)) && id in ids
    ensures id in After(d, ScheduleChecks(ids)).jobs && EndInHand(After(d, ScheduleChecks(ids)), id)
  {
  }

  /** Over every run, with any failed writes: a due End is sent, queued, being written, to follow
      the write under way or to go with a waiting data check, unless the check that follows a failed
      write of its IROB is still to be scheduled, or the application ended the IROB when it was
      already wholly cut but not announced. */
  lemma {:induction false} EndsRecovered(steps: seq<Step>, id: int)
    ensures var d := Run(steps);
            d.sane && id in d.jobs ==> EndInHand(d, id) || id in Owed(steps) || id in Late(steps)
  {
    hide After, EndInHand, DeskOk, Enabled, ComesLate;
    if steps != [] {
      var before, s := steps[..|steps| - 1], steps[|steps| - 1];
      var d := Run(before);
      EndsRecovered(before, id);
      RunOk(before);
      if Enabled(d, s) && After(d, s).sane && id in After(d, s).jobs {
        EnabledSane(d, s);
        if id in d.jobs {
          StepEnds(d, s, id);
        } else {
          FreshEnds(d, s, id);
        }
      }
    }
  }

  lemma EnabledSane(d: Desk, s: Step)
    requires Enabled(d, s)
    ensures d.sane
  {
  }

  /** So once all lists are empty every End has been sent, if each failed write was followed by its
      check and the End did not come late. */
  lemma RecoveredMeansSent(steps: seq<Step>, id: int)
    requires id !in Owed(steps) && id !in Late(steps)
    ensures var d := Run(steps);
            d.sane && d.busy.Idle? && d.newIrobs + d.newChunks + d.finished + d.checks == {} && id in d.jobs ==>
              var j := d.jobs[id];
              j.announced && S.AllBytesChunked(j.st) && j.st.resend == {} && (j.st.complete ==> j.endSent)
  {
    hide Run, Owed, Late;
    IdleMeansSent(steps, id);
    EndsRecovered(steps, id);
    var d := Run(steps);
    if d.sane && d.busy.Idle? && d.newIrobs + d.newChunks + d.finished + d.checks == {} {
      assert d.finished <= {} && d.checks <= {};
    }
  }

  // ----- Runs without failed writes -----

  lemma NothingCut(st: S.Sending)
    requires Cursor(st) && st.sent == []
    ensures S.AllBytesChunked(st) <==> S.Bytes(st) == []
  {
    assert S.CutExtents(st.sent) == [];
  }

  /** The IROBs a step does not touch stay as they were. */
  lemma UntouchedBeside(d: Desk, t: Desk, id: int)
    requires Clean(d) && Beside(d, t, id) && t.sane
    requires id in t.jobs ==> Untouched(t, id)
    ensures Clean(t)
  {
    hide S.Bytes;
    forall k | k in t.jobs
      ensures Untouched(t, k)
    {
      if k != id {
        assert Untouched(d, k);
      }
    }
  }

  lemma BeginStartClean(d: Desk, id: int)
    requires Clean(d) && DeskOk(d) && d.busy.Idle? && id in d.newIrobs
    ensures Clean(BeginStarts(d, id))
  {
    hide Cursor, S.Total, S.SentBytes, S.AppExtents, S.AllBytesChunked, S.GetReady, S.Bytes;
    if id in d.jobs {
      assert JobOk(d, id) && Untouched(d, id);
      TakingAll(d.jobs[id].st);
    }
    UntouchedBeside(d, BeginStarts(d, id), id);
  }

  lemma ChunkStartClean(d: Desk, id: int, requested: nat)
    requires Clean(d) && DeskOk(d) && d.busy.Idle? && id in d.newChunks && requested > 0
    ensures Clean(ChunkStarts(d, id, requested))
  {
    hide Cursor, S.AllBytesChunked, S.GetReady, S.Bytes;
    if id in d.jobs {
      assert JobOk(d, id) && Untouched(d, id);
      CursorMoves(d.jobs[id].st, requested);
    }
    UntouchedBeside(d, ChunkStarts(d, id, requested), id);
  }

  lemma EndClean(d: Desk, id: int)
    requires Clean(d) && DeskOk(d) && id in d.jobs && !d.jobs[id].st.complete
    ensures Clean(End(d, id))
  {
    hide Cursor, S.AllBytesChunked, S.EndApp, S.Bytes;
    assert JobOk(d, id) && Untouched(d, id);
    var st := d.jobs[id].st;
    EndKeepsCursor(st);
    EndKeepsBytes(st);
    if st.sent == [] {
      NothingCut(st);
    }
    UntouchedBeside(d, End(d, id), id);
  }

  lemma EndKeepsBytes(st: S.Sending)
    ensures S.Bytes(S.EndApp(st)) == S.Bytes(st) && S.EndApp(st).sent == st.sent
  {
  }

  lemma AcceptClean(d: Desk, id: int, j: Job)
    requires Clean(d) && DeskOk(d) && id !in d.used && Cursor(j.st) && j.st.resend == {} && j.st.sent == []
    requires j == NewJob(j.st, j.anonymous, j.ondemand)
    ensures Clean(Accept(d, id, j))
  {
    hide Cursor, S.AllBytesChunked, S.Bytes;
    NothingCut(j.st);
    UntouchedBeside(d, Accept(d, id, j), id);
  }

  lemma WriteClean(d: Desk, id: int, data: seq<byte>)
    requires Clean(d) && DeskOk(d) && id in d.jobs && !d.jobs[id].st.complete
    ensures Clean(Write(d, id, data))
  {
    hide Cursor, S.AllBytesChunked, S.Bytes, S.AddApp;
    assert JobOk(d, id) && Untouched(d, id);
    WriteKeepsCursor(d.jobs[id].st, data);
    WriteKeepsSent(d.jobs[id].st, data);
    UntouchedBeside(d, Write(d, id, data), id);
  }

  lemma ServeClean(d: Desk, id: int, deps: bool, chunk: Option<nat>, end: Option<nat>)
    requires Clean(d) && Enabled(d, Request(id, deps, chunk, end)) && !Early(d, Request(id, deps, chunk, end))
    ensures Clean(Serve(d, id, deps, chunk, end))
  {
    hide S.AllBytesChunked, S.Bytes, S.MarkNotReceived, S.MarkDropPoint;
    if id in d.jobs {
      assert Untouched(d, id);
      SameCuts(d.jobs[id].st, chunk, end);
      UntouchedBeside(d, Serve(d, id, deps, chunk, end), id);
    }
  }

  lemma BeginEndClean(d: Desk)
    requires Clean(d) && DeskOk(d) && d.busy.InBegin?
    ensures Clean(BeginEnds(d, true))
  {
    hide Cursor, S.AllBytesChunked, S.Bytes, BytesInHand, EndInHand;
    var id := d.busy.id;
    assert id in d.jobs ==> JobOk(d, id) && Untouched(d, id);
    hide DeskOk;
    UntouchedBeside(d, BeginEnds(d, true), id);
  }

  /** The thread is back from a write, or starts on an End. */
  lemma ThreadClean(d: Desk, s: Step)
    requires Clean(d) && DeskOk(d) && Enabled(d, s) && !Fails(s)
    requires s.ChunkDone? || s.StartEnd? || s.EndDone? || s.CheckDone?
    ensures Clean(After(d, s))
  {
    hide Cursor, S.AllBytesChunked, S.Bytes, BytesInHand, EndInHand;
    var id := if s.StartEnd? then s.id else d.busy.id;
    assert id in d.jobs ==> JobOk(d, id) && Untouched(d, id);
    hide DeskOk;
    UntouchedBeside(d, After(d, s), id);
  }

  lemma WriteKeepsSent(st: S.Sending, data: seq<byte>)
    ensures S.AddApp(st, data).sent == st.sent
  {
  }

  lemma StepClean(d: Desk, s: Step)
    requires Clean(d) && DeskOk(d) && Enabled(d, s) && !Fails(s) && !Early(d, s)
    ensures Clean(After(d, s))
  {
    hide DeskOk, Cursor, S.AddApp, S.EndApp, S.NewSending, Accept, Write, End, Serve, BeginStarts, BeginEnds, ChunkStarts,
         ChunkEnds, EndStarts, EndEnds, CheckStarts, CheckEnds;
    match s
    case AppBegin(id, ondemand) =>
      FreshCursor([]);
      AcceptClean(d, id, NewJob(S.NewSending(), false, ondemand));
    case AppSend(id, data, ondemand) =>
      FreshCursor(data);
      AcceptClean(d, id, NewJob(S.EndApp(S.AddApp(S.NewSending(), data)), true, ondemand));
    case AppEnd(id) => EndClean(d, id);
    case Gone(id) => GoneClean(d, id);
    case StartBegin(id) => BeginStartClean(d, id);
    case StartChunk(id, requested) => ChunkStartClean(d, id, requested);
    case AppWrite(id, data) => WriteClean(d, id, data);
    case Request(id, deps, chunk, end) => ServeClean(d, id, deps, chunk, end);
    case BeginDone(ok) => BeginEndClean(d);
    case ScheduleChecks(ids) => ChecksClean(d, ids);
    case StartCheck(id) => CheckStartClean(d, id);
    case _ => ThreadClean(d, s);
  }

  lemma CheckStartClean(d: Desk, id: int)
    requires Clean(d) && DeskOk(d) && d.busy.Idle? && id in d.checks && !Early(d, StartCheck(id))
    ensures Clean(CheckStarts(d, id))
  {
    hide Cursor, S.AllBytesChunked, S.GetReady, S.Bytes;
    if id in d.jobs {
      assert JobOk(d, id) && Untouched(d, id);
      CursorMoves(d.jobs[id].st, MIN_CHUNKSIZE);
    }
    UntouchedBeside(d, CheckStarts(d, id), id);
  }

  lemma ChecksClean(d: Desk, ids: set<int>)
    requires Clean(d)
    ensures Clean(d.(checks := d.checks + ids))
  {
    hide S.Bytes;
    var t := d.(checks := d.checks + ids);
    forall k | k in t.jobs
      ensures Untouched(t, k)
    {
      assert Untouched(d, k);
    }
  }

  lemma GoneClean(d: Desk, id: int)
    requires Clean(d)
    ensures Clean(d.(jobs := d.jobs - {id}))
  {
    hide S.Bytes;
    var t := d.(jobs := d.jobs - {id});
    forall k | k in t.jobs
      ensures Untouched(t, k)
    {
      assert Untouched(d, k);
    }
  }

  lemma {:induction false} RunClean(steps: seq<Step>)
    requires NoneEarly(steps) && forall s :: s in steps ==> !Fails(s)
    ensures Clean(Run(steps))
  {
    hide Clean, Enabled, After, DeskOk, Early;
    if steps == [] {
      NewDeskClean();
    } else {
      var before, s := steps[..|steps| - 1], steps[|steps| - 1];
      assert s in steps;
      RunClean(before);
      RunOk(before);
      if Enabled(Run(before), s) {
        StepClean(Run(before), s);
      }
    }
  }

  lemma NewDeskClean()
    ensures Clean(NewDesk())
  {
  }

  /** Over every run without failed writes and early requests: no assertion fails, and no End of
      an IROB with any bytes is forgotten. */
  lemma NoEndForgotten(steps: seq<Step>, id: int)
    requires NoneEarly(steps) && forall s :: s in steps ==> !Fails(s)
    ensures var d := Run(steps);
            d.sane && (id in d.jobs && S.Bytes(d.jobs[id].st) != [] ==> EndInHand(d, id))
  {
    RunClean(steps);
    RunOk(steps);
    var d := Run(steps);
    hide Run;
    assert id in d.jobs ==> JobOk(d, id) && Untouched(d, id);
  }

  /** The assertion in the Begin of a small IROB - that all its bytes are now cut - fails exactly
      when a piece has to be sent again while there are bytes not yet cut. */
  lemma AssertionFailsIff(d: Desk, id: int)
    requires DeskOk(d) && Enabled(d, StartBegin(id)) && id in d.jobs
    ensures var st := d.jobs[id].st;
            !BeginStarts(d, id).sane <==> SmallAndWhole(d.jobs[id]) && st.resend != {} && !S.AllBytesChunked(st)
  {
    hide Cursor, S.AllBytesChunked, S.GetReady, S.Bytes;
    assert JobOk(d, id);
    TakingAll(d.jobs[id].st);
  }
}
