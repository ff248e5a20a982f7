/** What the sender's lists and marks mean: over every run they say what was asked for, what was
    written to the IROBs and what was sent of them. */
module SenderFacts {
  import opened Sequences
  import S = SenderIrob
  import opened SenderWork

  // ----- What is asked for -----

  /** A resend request marks just the pieces it names, lists the Begin exactly if it asks for it, the
      chunks if it asks for any, and the End if it asks for it and it is due. */
  lemma RequestAnswered(d: Desk, id: int, deps: bool, chunk: Option<nat>, end: Option<nat>)
    requires Enabled(d, Request(id, deps, chunk, end)) && id in d.jobs
    ensures var t, st := After(d, Request(id, deps, chunk, end)), d.jobs[id].st;
            && t.jobs.Keys == d.jobs.Keys && (forall k :: k in d.jobs && k != id ==> t.jobs[k] == d.jobs[k])
            && t.jobs[id].st == st.(resend := t.jobs[id].st.resend)
            && (forall i: nat :: i in t.jobs[id].st.resend <==>
                  i in st.resend || chunk == Some(i) || (end.Some? && end.value <= i < |st.sent|))
            && (forall k :: k in t.newIrobs <==> k in d.newIrobs || (k == id && deps))
            && (forall k :: k in t.newChunks <==> k in d.newChunks || (k == id && (chunk.Some? || end.Some?)))
            && (forall k :: k in t.finished <==>
                  k in d.finished || (k == id && end.Some? && st.complete && S.AllBytesChunked(st)))
            && t.checks == d.checks && t.busy == d.busy
  {
    hide S.AllBytesChunked;
    SameCuts(d.jobs[id].st, chunk, end);
  }

  lemma ListedStays(d: Desk, s: Step, id: int)
    requires Enabled(d, s) && id in d.newIrobs && s != StartBegin(id)
    ensures id in After(d, s).newIrobs
  {
    hide S.AllBytesChunked, S.GetReady, S.Bytes;
  }

  /** A Begin that was asked for stays listed until the thread takes it up, whatever else happens. */
  lemma {:induction false} AskedBeginStays(steps: seq<Step>, i: nat, j: nat, id: int)
    requires i < j <= |steps| && steps[i].Request? && steps[i].id == id && steps[i].deps
    requires Enabled(Run(steps[..i]), steps[i]) && id in Run(steps[..i]).jobs
    requires forall k :: i < k < j ==> steps[k] != StartBegin(id)
    ensures id in Run(steps[..j]).newIrobs
    decreases j
  {
    hide After, Enabled, Run;
    if j == i + 1 {
      NextRun(steps, i);
      RequestAnswered(Run(steps[..i]), id, true, steps[i].chunk, steps[i].end);
    } else {
      AskedBeginStays(steps, i, j - 1, id);
      NextRun(steps, j - 1);
      if Enabled(Run(steps[..j - 1]), steps[j - 1]) {
        ListedStays(Run(steps[..j - 1]), steps[j - 1], id);
      }
    }
  }

  lemma NextRun(steps: seq<Step>, i: nat)
    requires i < |steps|
    ensures var d := Run(steps[..i]);
            Run(steps[..i + 1]) == if Enabled(d, steps[i]) then After(d, steps[i]) else d
  {
    hide After, Enabled;
    assert steps[..i + 1][..i] == steps[..i];
  }

  // ----- What goes out -----

  lemma NothingMore(st: S.Sending, requested: nat)
    requires Cursor(st) && st.resend == {} && S.AllBytesChunked(st) && requested > 0
    ensures S.GetReady(st, 0, requested).length == 0
  {
    hide S.Valid, S.GetReady, S.Bytes, S.SentBytes, S.AllBytesChunked, S.Pieces, S.NextSeqno;
    AllCutIs(st);
    S.ReadyNew(st, 0, requested);
  }

  /** A piece goes out exactly if one is marked or there are bytes not yet cut. */
  lemma PieceGoesIff(st: S.Sending, requested: nat)
    requires Cursor(st) && requested > 0
    ensures S.GetReady(st, 0, requested).length > 0 <==> st.resend != {} || !S.AllBytesChunked(st)
  {
    hide S.Valid, S.GetReady, S.Bytes, S.SentBytes, S.AllBytesChunked, S.Pieces, S.NextSeqno;
    CursorMoves(st, requested);
    if st.resend != {} {
      S.ReadyResend(st, 0, requested);
    } else if S.AllBytesChunked(st) {
      NothingMore(st, requested);
    }
  }

  lemma WholeGoesIff(st: S.Sending)
    requires Cursor(st)
    ensures S.GetReady(st, 0, |S.Bytes(st)|).length > 0 <==> st.resend != {} || !S.AllBytesChunked(st)
  {
    hide S.Valid, S.GetReady, S.SentBytes, S.AllBytesChunked, S.Pieces, S.NextSeqno, Cursor;
    if S.Bytes(st) == [] {
      NothingToTake(st);
    } else {
      PieceGoesIff(st, |S.Bytes(st)|);
    }
  }

  /** A Begin takes chunk and End along exactly for a foreground IROB that the application has ended,
      of less than 1500 bytes, not announced before, with something left to send. */
  lemma GoesWholeIff(d: Desk, id: int)
    requires DeskOk(d) && Enabled(d, StartBegin(id)) && id in d.jobs
    ensures var j, t := d.jobs[id], After(d, StartBegin(id));
            && t.busy.InBegin? && t.busy.id == id && id !in t.newIrobs
            && (t.busy.all <==> && j.st.complete && |S.Bytes(j.st)| < 1500 && j.ondemand && !j.announced
                                && (j.st.resend != {} || !S.AllBytesChunked(j.st)))
            && (!t.busy.all ==> t.jobs == d.jobs)
  {
    hide Cursor, S.AllBytesChunked, S.GetReady, S.Bytes;
    assert JobOk(d, id);
    WholeGoesIff(d.jobs[id].st);
    TakingAll(d.jobs[id].st);
  }

  /** The other three: a chunk is written exactly if there is one, an End for any IROB still here, and
      a data check always, with the End exactly if that is due once its piece is cut. */
  lemma WhatGoes(d: Desk, id: int, requested: nat)
    requires DeskOk(d) && d.sane && d.busy.Idle?
    ensures id in d.newChunks && requested > 0 ==>
              var t := After(d, StartChunk(id, requested));
              id !in t.newChunks
              && (t.busy == InChunk(id) <==>
                    id in d.jobs && (d.jobs[id].st.resend != {} || !S.AllBytesChunked(d.jobs[id].st)))
              && (t.busy != InChunk(id) ==> t.busy.Idle?)
    ensures id in d.finished ==>
              var t := After(d, StartEnd(id));
              id !in t.finished && t.busy == if id in d.jobs then InEnd(id) else Idle
    ensures id in d.checks ==>
              var t := After(d, StartCheck(id));
              id !in t.checks && t.busy.InCheck? && t.busy.id == id
              && (t.busy.end <==> id in t.jobs && t.jobs[id].st.complete && S.AllBytesChunked(t.jobs[id].st))
  {
    hide Cursor, S.AllBytesChunked, S.GetReady, S.Bytes;
    if id in d.jobs {
      assert JobOk(d, id);
      if requested > 0 {
        PieceGoesIff(d.jobs[id].st, requested);
      }
    }
  }

  // ----- What the marks say -----

  /** What has happened to `id`: a Begin was written, or could not be; an End was written, by itself,
      with a Begin, or with a data check. */
  datatype Event = BeginWritten | BeginTried | AllWritten | EndWritten

  predicate Happens(d: Desk, s: Step, id: int, e: Event) {
    Enabled(d, s) &&
    match e
    case BeginWritten => s == BeginDone(true) && d.busy.id == id
    case BeginTried => s.BeginDone? && d.busy.id == id
    case AllWritten => s == BeginDone(true) && d.busy == InBegin(id, true)
    case EndWritten =>
      (s == EndDone(true) && d.busy == InEnd(id)) || (s == BeginDone(true) && d.busy == InBegin(id, true))
      || (s == CheckDone(true) && d.busy == InCheck(id, true))
  }

  ghost predicate Happened(steps: seq<Step>, id: int, e: Event) {
    steps != []
    && (Happened(steps[..|steps| - 1], id, e) || Happens(Run(steps[..|steps| - 1]), steps[|steps| - 1], id, e))
  }

  predicate Mark(j: Job, e: Event) {
    match e
    case BeginWritten => j.announced
    case BeginTried => j.tried
    case AllWritten => j.endAnnounced
    case EndWritten => j.endSent
  }

  lemma OwnBeginFlags(d: Desk, ok: bool)
    requires d.busy.InBegin? && d.busy.id in d.jobs && (d.busy.all ==> Due(d.jobs[d.busy.id].st))
    ensures d.busy.id in BeginEnds(d, ok).jobs
    ensures var j, k := d.jobs[d.busy.id], BeginEnds(d, ok).jobs[d.busy.id];
            && k.announced == (j.announced || ok) && k.tried
            && k.endAnnounced == (j.endAnnounced || (ok && d.busy.all))
            && k.endSent == (j.endSent || (ok && d.busy.all))
  {
    hide S.AllBytesChunked, Due;
  }

  lemma OtherBeginFlags(d: Desk, ok: bool, id: int)
    requires d.busy.InBegin? && id in d.jobs && d.busy.id != id
    ensures id in BeginEnds(d, ok).jobs && BeginEnds(d, ok).jobs[id] == d.jobs[id]
  {
    hide S.AllBytesChunked, Due;
  }

  lemma BeginMarks(d: Desk, ok: bool, id: int, e: Event)
    requires Enabled(d, BeginDone(ok)) && id in d.jobs && (d.busy == InBegin(id, true) ==> Due(d.jobs[id].st))
    ensures id in BeginEnds(d, ok).jobs
    ensures Mark(BeginEnds(d, ok).jobs[id], e) <==> Mark(d.jobs[id], e) || Happens(d, BeginDone(ok), id, e)
  {
    hide Due, BeginEnds;
    if d.busy.id == id {
      OwnBeginFlags(d, ok);
    } else {
      OtherBeginFlags(d, ok, id);
    }
  }

  lemma WriteMarks(d: Desk, s: Step, id: int, e: Event)
    requires Enabled(d, s) && (s.ChunkDone? || s.EndDone? || s.CheckDone?) && id in d.jobs
    ensures id in After(d, s).jobs
    ensures Mark(After(d, s).jobs[id], e) <==> Mark(d.jobs[id], e) || Happens(d, s, id, e)
  {
    hide S.AllBytesChunked, BeginStarts, BeginEnds, ChunkStarts, CheckStarts;
  }

  lemma OthersKeepMarks(d: Desk, s: Step, id: int, e: Event)
    requires Enabled(d, s) && !(s.BeginDone? || s.ChunkDone? || s.EndDone? || s.CheckDone?)
    requires id in After(d, s).jobs && (id in d.jobs ==> id in d.used)
    ensures id in d.jobs ==> (Mark(After(d, s).jobs[id], e) <==> Mark(d.jobs[id], e))
    ensures id !in d.jobs ==> !Mark(After(d, s).jobs[id], e)
    ensures !Happens(d, s, id, e)
  {
    hide S.AllBytesChunked, S.GetReady, S.Bytes, S.AddApp, S.EndApp;
  }

  lemma NewIsUnused(d: Desk, s: Step, id: int)
    requires Enabled(d, s) && id !in d.jobs && id in After(d, s).jobs
    ensures id !in d.used
  {
    hide S.AllBytesChunked, S.GetReady, S.Bytes, S.AddApp, S.EndApp;
  }

  lemma NoNewAtBegin(d: Desk, ok: bool, id: int)
    requires d.busy.InBegin?
    ensures id in BeginEnds(d, ok).jobs ==> id in d.jobs
  {
    hide S.AllBytesChunked;
  }

  lemma NoNewAtWrite(d: Desk, s: Step, id: int)
    requires Enabled(d, s) && (s.ChunkDone? || s.EndDone? || s.CheckDone?)
    ensures id in After(d, s).jobs ==> id in d.jobs
  {
    hide S.AllBytesChunked;
  }

  lemma StepMarks(d: Desk, s: Step, id: int, e: Event)
    requires DeskOk(d) && Enabled(d, s) && After(d, s).sane && id in After(d, s).jobs
    ensures id in d.jobs ==> (Mark(After(d, s).jobs[id], e) <==> Mark(d.jobs[id], e) || Happens(d, s, id, e))
    ensures id !in d.jobs ==> id !in d.used && !Mark(After(d, s).jobs[id], e) && !Happens(d, s, id, e)
  {
    hide Happens, Mark, Cursor, BytesInHand, EndInHand, BeginStarts, BeginEnds, ChunkStarts, ChunkEnds, EndStarts, EndEnds,
         CheckStarts, CheckEnds, Accept, Write, End, Serve, S.AddApp, S.EndApp, S.NewSending;
    if id in d.jobs {
      EnabledSane(d, s);
      assert JobOk(d, id);
    } else {
      NewIsUnused(d, s, id);
    }
    if s.BeginDone? {
      NoNewAtBegin(d, s.ok, id);
      BeginMarks(d, s.ok, id, e);
    } else if s.ChunkDone? || s.EndDone? || s.CheckDone? {
      NoNewAtWrite(d, s, id);
      WriteMarks(d, s, id, e);
    } else {
      OthersKeepMarks(d, s, id, e);
    }
  }

  lemma UsedStays(d: Desk, s: Step, id: int, e: Event)
    requires DeskOk(d) && Enabled(d, s) && id !in After(d, s).used
    ensures id !in d.used && !Happens(d, s, id, e)
  {
    hide Cursor, S.AllBytesChunked, S.GetReady, S.Bytes, BytesInHand, EndInHand, S.AddApp, S.EndApp, JobOk;
  }

  lemma {:induction false} UnusedUntouched(steps: seq<Step>, id: int, e: Event)
    requires id !in Run(steps).used && Run(steps).sane
    ensures !Happened(steps, id, e)
  {
    hide After, Enabled, DeskOk, Happens;
    if steps != [] {
      var before, s := steps[..|steps| - 1], steps[|steps| - 1];
      var d := Run(before);
      RunOk(before);
      if Enabled(d, s) {
        EnabledSane(d, s);
        UsedStays(d, s, id, e);
      } else {
        NotHappening(d, s, id, e);
      }
      UnusedUntouched(before, id, e);
    }
  }

  lemma NotHappening(d: Desk, s: Step, id: int, e: Event)
    requires !Enabled(d, s)
    ensures !Happens(d, s, id, e)
  {
  }

  /** Over every run, for an IROB still here, the marks tell the truth: it counts as announced exactly
      if its Begin was written, and its End as sent exactly if it was written. */
  lemma {:induction false} MarksAreTrue(steps: seq<Step>, id: int, e: Event)
    ensures var d := Run(steps);
            d.sane && id in d.jobs ==> (Mark(d.jobs[id], e) <==> Happened(steps, id, e))
  {
    hide After, Enabled, DeskOk, Happens, Mark;
    if steps != [] {
      var before, s := steps[..|steps| - 1], steps[|steps| - 1];
      var d := Run(before);
      MarksAreTrue(before, id, e);
      RunOk(before);
      if !Enabled(d, s) {
        NotHappening(d, s, id, e);
      } else if After(d, s).sane && id in After(d, s).jobs {
        EnabledSane(d, s);
        StepMarks(d, s, id, e);
        if id !in d.jobs {
          UnusedUntouched(before, id, e);
        }
      }
    }
  }

  // ----- What was written -----

  /** The bytes the application has written to `id`. */
  ghost function Written(steps: seq<Step>, id: int): seq<byte> {
    if steps == [] then []
    else
      var before, s := steps[..|steps| - 1], steps[|steps| - 1];
      if (s.AppSend? || s.AppWrite?) && s.id == id && Enabled(Run(before), s) then Written(before, id) + s.data
      else Written(before, id)
  }

  ghost predicate Ended(steps: seq<Step>, id: int) {
    steps != []
    && (Ended(steps[..|steps| - 1], id)
        || ((steps[|steps| - 1].AppEnd? || steps[|steps| - 1].AppSend?) && steps[|steps| - 1].id == id
            && Enabled(Run(steps[..|steps| - 1]), steps[|steps| - 1])))
  }

  lemma TakingKeepsBytes(st: S.Sending, requested: nat)
    requires Cursor(st)
    ensures var r := S.GetReady(st, 0, requested);
            requested > 0 || requested == |S.Bytes(st)| ==> S.Bytes(r.st) == S.Bytes(st) && r.st.complete == st.complete
  {
    hide S.GetReady, Cursor, S.Bytes;
    if requested > 0 {
      CursorMoves(st, requested);
    } else {
      TakingAll(st);
    }
  }

  /** Only the application's steps change what is to be sent. */
  lemma OthersKeepBytes(d: Desk, s: Step, id: int)
    requires DeskOk(d) && Enabled(d, s) && id in d.jobs && id in After(d, s).jobs
    requires !s.AppWrite? && !s.AppEnd?
    ensures S.Bytes(After(d, s).jobs[id].st) == S.Bytes(d.jobs[id].st)
            && After(d, s).jobs[id].st.complete == d.jobs[id].st.complete
  {
    hide S.AllBytesChunked, S.GetReady, S.Bytes, S.AddApp, S.EndApp, S.NewSending, Cursor, BytesInHand, EndInHand;
    assert JobOk(d, id);
    var st := d.jobs[id].st;
    match s
    case StartBegin(_) => TakingKeepsBytes(st, |S.Bytes(st)|);
    case StartChunk(_, requested) => TakingKeepsBytes(st, requested);
    case StartCheck(_) => TakingKeepsBytes(st, MIN_CHUNKSIZE);
    case Request(_, _, chunk, end) => SameCuts(st, chunk, end);
    case _ =>
  }

  lemma AppKeepsBytes(d: Desk, s: Step, id: int)
    requires DeskOk(d) && Enabled(d, s) && id in After(d, s).jobs
    requires id in d.jobs ==> s.AppWrite? || s.AppEnd?
    ensures var before := if id in d.jobs then S.Bytes(d.jobs[id].st) else [];
            S.Bytes(After(d, s).jobs[id].st)
            == before + (if (s.AppSend? || s.AppWrite?) && s.id == id then s.data else [])
    ensures After(d, s).jobs[id].st.complete <==>
              (id in d.jobs && d.jobs[id].st.complete) || ((s.AppSend? || s.AppEnd?) && s.id == id)
  {
    hide S.AllBytesChunked, S.GetReady, S.Bytes, S.AddApp, S.EndApp, S.NewSending, BytesInHand, EndInHand, S.Valid, Due,
         BeginStarts, BeginEnds, ChunkStarts, ChunkEnds, EndStarts, EndEnds, CheckStarts, CheckEnds, Serve;
    if id in d.jobs {
      assert JobOk(d, id);
      S.AddAppKeeps(d.jobs[id].st, if s.AppWrite? then s.data else []);
      S.EndAppKeeps(d.jobs[id].st);
      CompleteMarks(d.jobs[id].st, if s.AppWrite? then s.data else []);
    } else {
      NewByApp(d, s, id);
      FreshBytes(if s.AppSend? then s.data else []);
    }
  }

  lemma NewByApp(d: Desk, s: Step, id: int)
    requires Enabled(d, s) && id !in d.jobs && id in After(d, s).jobs
    ensures (s.AppSend? || s.AppBegin?) && s.id == id
  {
    hide S.AllBytesChunked, S.GetReady, S.Bytes, S.AddApp, S.EndApp, S.NewSending, Due;
  }

  lemma CompleteMarks(st: S.Sending, data: seq<byte>)
    ensures S.AddApp(st, data).complete == st.complete && S.EndApp(st).complete
  {
  }

  lemma FreshBytes(data: seq<byte>)
    ensures S.Bytes(S.NewSending()) == [] && !S.NewSending().complete
    ensures var st := S.EndApp(S.AddApp(S.NewSending(), data));
            S.Bytes(st) == data && st.complete
  {
    S.NewSendingValid();
    S.AddAppKeeps(S.NewSending(), data);
    S.EndAppKeeps(S.AddApp(S.NewSending(), data));
    assert S.AppData([]) == [];
    assert [] + data == data;
  }

  /** What the sender has of an IROB still here is what the application wrote, all of it, in order, and
      it is complete exactly if the application ended it. */
  lemma {:induction false} HoldsWhatWasWritten(steps: seq<Step>, id: int)
    ensures var d := Run(steps);
            && (d.sane && id in d.jobs ==> S.Bytes(d.jobs[id].st) == Written(steps, id)
                                           && (d.jobs[id].st.complete <==> Ended(steps, id)))
            && (d.sane && id !in d.used ==> Written(steps, id) == [] && !Ended(steps, id))
  {
    hide After, Enabled, DeskOk, S.Bytes;
    if steps != [] {
      var before, s := steps[..|steps| - 1], steps[|steps| - 1];
      var d := Run(before);
      HoldsWhatWasWritten(before, id);
      RunOk(before);
      if Enabled(d, s) && After(d, s).sane {
        EnabledSane(d, s);
        UsedGrows(d, s, id);
        if id in After(d, s).jobs {
          if id in d.jobs && !s.AppWrite? && !s.AppEnd? {
            OthersKeepBytes(d, s, id);
          } else {
            AppKeepsBytes(d, s, id);
          }
        }
      }
    }
  }

  lemma UsedGrows(d: Desk, s: Step, id: int)
    requires DeskOk(d) && Enabled(d, s)
    ensures id in d.used ==> id in After(d, s).used && !((s.AppSend? || s.AppBegin?) && s.id == id)
    ensures id !in d.used ==> id !in d.jobs && !((s.AppWrite? || s.AppEnd?) && s.id == id)
    ensures id !in d.used && id !in After(d, s).used ==> !((s.AppSend? || s.AppBegin?) && s.id == id)
    ensures id in d.jobs ==> id in d.used
    ensures id !in d.jobs && id in After(d, s).jobs ==> id !in d.used && (s.AppSend? || s.AppBegin?) && s.id == id
  {
    hide S.AllBytesChunked, S.GetReady, S.Bytes, S.AddApp, S.EndApp, S.NewSending, BytesInHand, EndInHand, Cursor;
    EnabledSane(d, s);
    assert id in d.jobs ==> JobOk(d, id);
  }

  /** What can happen at any time: other threads begin and send IROBs under new ids, write to and end
      those not ended, remove any, ask for any piece that was cut, and have any checked; and the thread
      takes up whatever is listed when it is not writing. */
  lemma CanHappen(d: Desk, id: int, data: seq<byte>, ondemand: bool, deps: bool, chunk: Option<nat>, end: Option<nat>,
                  ids: set<int>, requested: nat)
    requires d.sane
    ensures Enabled(d, Gone(id)) && (ids <= d.jobs.Keys ==> Enabled(d, ScheduleChecks(ids)))
    ensures (id !in d.used <==> Enabled(d, AppBegin(id, ondemand))) && (id !in d.used <==> Enabled(d, AppSend(id, data, ondemand)))
    ensures id in d.jobs && !d.jobs[id].st.complete <==> Enabled(d, AppWrite(id, data))
    ensures id in d.jobs && !d.jobs[id].st.complete <==> Enabled(d, AppEnd(id))
    ensures id in d.jobs && (chunk.Some? ==> chunk.value < |d.jobs[id].st.sent|) ==> Enabled(d, Request(id, deps, chunk, end))
    ensures d.busy.Idle? ==>
              && (id in d.newIrobs <==> Enabled(d, StartBegin(id))) && (id in d.finished <==> Enabled(d, StartEnd(id)))
              && (id in d.checks <==> Enabled(d, StartCheck(id)))
              && (id in d.newChunks && requested > 0 <==> Enabled(d, StartChunk(id, requested)))
  {
  }

  /** A write that failed is listed again, whatever it was and whether or not the IROB is still here; an
      IROB that is acknowledged or dropped is gone, and only that one. */
  lemma FailedIsListed(d: Desk, id: int)
    requires d.sane
    ensures Enabled(d, BeginDone(false)) ==> d.busy.id in After(d, BeginDone(false)).newIrobs
    ensures Enabled(d, ChunkDone(false)) ==> d.busy.id in After(d, ChunkDone(false)).newChunks
    ensures Enabled(d, EndDone(false)) ==> d.busy.id in After(d, EndDone(false)).finished
    ensures Enabled(d, CheckDone(false)) ==> d.busy.id in After(d, CheckDone(false)).checks
    ensures After(d, Gone(id)) == d.(jobs := After(d, Gone(id)).jobs)
            && forall k :: k in After(d, Gone(id)).jobs <==> k in d.jobs && k != id
  {
    hide S.AllBytesChunked;
  }
}
