/** Left to itself the sender thread comes to rest, with everything sent: no list fills itself. */
module SenderRest {
  import opened Sequences
  import S = SenderIrob
  import opened SenderWork
  import F = SenderFacts

  // ----- What is left to send -----

  /** Bytes not yet cut, and pieces to be sent again. */
  ghost function Left(st: S.Sending): nat {
    (if S.SentBytes(st) <= st.numBytes then st.numBytes - S.SentBytes(st) else 0) + |st.resend|
  }

  ghost function Total(jobs: map<int, Job>): nat
    decreases |jobs|
  {
    if jobs == map[] then 0
    else
      SomeMember(jobs.Keys);
      var k :| k in jobs.Keys;
      Fewer(jobs, k);
      Left(jobs[k].st) + Total(jobs - {k})
  }

  lemma Fewer(jobs: map<int, Job>, k: int)
    requires k in jobs
    ensures |jobs - {k}| < |jobs|
  {
    assert (jobs - {k}).Keys == jobs.Keys - {k};
    assert |jobs.Keys - {k}| == |jobs.Keys| - 1;
  }

  lemma {:induction false} TotalPick(jobs: map<int, Job>, k: int)
    requires k in jobs
    ensures Total(jobs) == Left(jobs[k].st) + Total(jobs - {k})
    decreases |jobs|
  {
    SomeMember(jobs.Keys);
    var x :| x in jobs.Keys && Total(jobs) == Left(jobs[x].st) + Total(jobs - {x});
    if x != k {
      Fewer(jobs, x);
      Fewer(jobs, k);
      TotalPick(jobs - {x}, k);
      TotalPick(jobs - {k}, x);
      assert jobs - {x} - {k} == jobs - {k} - {x};
    }
  }

  /** Changing one IROB changes the total by as much. */
  lemma TotalPut(jobs: map<int, Job>, k: int, j: Job)
    requires k in jobs
    ensures Total(jobs[k := j]) + Left(jobs[k].st) == Total(jobs) + Left(j.st)
  {
    TotalPick(jobs, k);
    TotalPick(jobs[k := j], k);
    assert jobs[k := j] - {k} == jobs - {k};
  }

  // ----- The measure -----

  function Writing(b: Busy): nat {
    match b
    case Idle => 0
    case InBegin(_, _) => 2
    case InChunk(_) => 4
    case InEnd(_) => 1
    case InCheck(_, _) => 1
  }

  ghost function ToDo(d: Desk): nat {
    8 * Total(d.jobs) + 7 * |d.newIrobs| + |d.newChunks| + 2 * |d.finished| + 2 * |d.checks| + Writing(d.busy)
  }

  /** The thread's own steps, with writes that succeed. */
  predicate Own(s: Step) {
    || s.StartBegin? || s.StartChunk? || s.StartEnd? || s.StartCheck?
    || s == BeginDone(true) || s == ChunkDone(true) || s == EndDone(true) || s == CheckDone(true)
  }

  /** Taking a piece leaves less to send; taking nothing leaves as much. */
  lemma TakingLeavesLess(st: S.Sending, requested: nat)
    requires Cursor(st) && requested > 0
    ensures var r := S.GetReady(st, 0, requested);
            Left(r.st) + (if r.length > 0 then 1 else 0) <= Left(st)
  {
    hide S.Valid, S.GetReady, S.Bytes, S.SentBytes, S.AllBytesChunked, S.Pieces;
    AllCutIs(st);
    CursorMoves(st, requested);
    AllCutIs(S.GetReady(st, 0, requested).st);
    if st.resend != {} {
      S.ReadyResend(st, 0, requested);
      SameSentBytes(st, S.GetReady(st, 0, requested).st);
    } else {
      S.ReadyNew(st, 0, requested);
      NewPieceMoves(st, requested);
    }
  }

  lemma SameSentBytes(st: S.Sending, t: S.Sending)
    requires t.sent == st.sent
    ensures S.SentBytes(t) == S.SentBytes(st)
  {
  }

  lemma OneLess(s: set<int>, k: int)
    requires k in s
    ensures |s - {k}| == |s| - 1
  {
  }

  lemma OneMore(s: set<int>, k: int)
    ensures |s + {k}| <= |s| + 1
  {
    if k in s {
      assert s + {k} == s;
    }
  }

  /** Changing only flags leaves the total as it is. */
  lemma SameTotal(jobs: map<int, Job>, k: int, j: Job)
    requires k in jobs && j.st == jobs[k].st
    ensures Total(jobs[k := j]) == Total(jobs)
  {
    TotalPut(jobs, k, j);
  }

  lemma AllLeavesLess(st: S.Sending)
    requires Cursor(st)
    ensures Left(S.GetReady(st, 0, |S.Bytes(st)|).st) <= Left(st)
  {
    hide S.GetReady, Cursor, S.Bytes, Left;
    if S.Bytes(st) == [] {
      NothingToTake(st);
    } else {
      TakingLeavesLess(st, |S.Bytes(st)|);
    }
  }

  lemma BeginShrinks(d: Desk, id: int)
    requires DeskOk(d) && Enabled(d, StartBegin(id))
    ensures ToDo(BeginStarts(d, id)) < ToDo(d)
  {
    hide S.GetReady, S.Bytes, S.AllBytesChunked, Cursor, Total, Left;
    OneLess(d.newIrobs, id);
    if id in d.jobs {
      assert JobOk(d, id);
      var st := d.jobs[id].st;
      AllLeavesLess(st);
      TotalPut(d.jobs, id, d.jobs[id].(st := S.GetReady(st, 0, |S.Bytes(st)|).st));
    }
  }

  lemma ChunkShrinks(d: Desk, id: int, requested: nat)
    requires DeskOk(d) && Enabled(d, StartChunk(id, requested))
    ensures ToDo(ChunkStarts(d, id, requested)) < ToDo(d)
  {
    hide S.GetReady, S.Bytes, S.AllBytesChunked, Cursor, Total, Left;
    OneLess(d.newChunks, id);
    if id in d.jobs {
      assert JobOk(d, id);
      var st := d.jobs[id].st;
      TakingLeavesLess(st, requested);
      TotalPut(d.jobs, id, d.jobs[id].(st := S.GetReady(st, 0, requested).st));
    }
  }

  lemma CheckShrinks(d: Desk, id: int)
    requires DeskOk(d) && Enabled(d, StartCheck(id))
    ensures ToDo(CheckStarts(d, id)) < ToDo(d)
  {
    hide S.GetReady, S.Bytes, S.AllBytesChunked, Cursor, Total, Left;
    OneLess(d.checks, id);
    if id in d.jobs {
      assert JobOk(d, id);
      var st := d.jobs[id].st;
      TakingLeavesLess(st, MIN_CHUNKSIZE);
      TotalPut(d.jobs, id, d.jobs[id].(st := S.GetReady(st, 0, MIN_CHUNKSIZE).st));
    }
  }

  lemma EndShrinks(d: Desk, id: int)
    requires Enabled(d, StartEnd(id))
    ensures ToDo(EndStarts(d, id)) < ToDo(d)
  {
    hide Total;
    OneLess(d.finished, id);
  }

  lemma BeginDoneShrinks(d: Desk)
    requires Enabled(d, BeginDone(true))
    ensures ToDo(BeginEnds(d, true)) < ToDo(d)
  {
    hide BeginEnds, Total;
    BeginDoneLists(d);
    OneMore(d.newChunks, d.busy.id);
    if d.busy.id in d.jobs {
      var j := BeginDoneJobs(d);
      SameTotal(d.jobs, d.busy.id, j);
    } else {
      BeginGone(d);
    }
  }

  lemma BeginGone(d: Desk)
    requires d.busy.InBegin? && d.busy.id !in d.jobs
    ensures BeginEnds(d, true).jobs == d.jobs
  {
  }

  lemma BeginDoneLists(d: Desk)
    requires d.busy.InBegin?
    ensures var t := BeginEnds(d, true);
            && t.newIrobs == d.newIrobs && t.finished == d.finished && t.checks == d.checks && t.busy.Idle?
            && (t.newChunks == d.newChunks || t.newChunks == d.newChunks + {d.busy.id})
  {
    hide Due;
  }

  lemma BeginDoneJobs(d: Desk) returns (j: Job)
    requires d.busy.InBegin? && d.busy.id in d.jobs
    ensures BeginEnds(d, true).jobs == d.jobs[d.busy.id := j] && j.st == d.jobs[d.busy.id].st
  {
    hide Due;
    j := d.jobs[d.busy.id].(tried := true, announced := true);
    if d.busy.all && Due(j.st) {
      j := j.(endAnnounced := true, endSent := true);
    }
  }

  lemma ChunkDoneShrinks(d: Desk)
    requires Enabled(d, ChunkDone(true))
    ensures ToDo(ChunkEnds(d, true)) < ToDo(d)
  {
    hide S.AllBytesChunked, Total;
    OneMore(d.newChunks, d.busy.id);
    OneMore(d.finished, d.busy.id);
    SameJobs(d.jobs, ChunkEnds(d, true).jobs, d.busy.id);
  }

  lemma EndDoneShrinks(d: Desk)
    requires Enabled(d, EndDone(true))
    ensures ToDo(EndEnds(d, true)) < ToDo(d)
  {
    hide S.AllBytesChunked, Total;
    SameJobs(d.jobs, EndEnds(d, true).jobs, d.busy.id);
  }

  lemma CheckDoneShrinks(d: Desk)
    requires Enabled(d, CheckDone(true))
    ensures ToDo(CheckEnds(d, true)) < ToDo(d)
  {
    hide S.AllBytesChunked, Total;
    SameJobs(d.jobs, CheckEnds(d, true).jobs, d.busy.id);
  }

  lemma SameJobs(jobs: map<int, Job>, next: map<int, Job>, id: int)
    requires next == jobs || (id in jobs && id in next && next == jobs[id := next[id]] && next[id].st == jobs[id].st)
    ensures Total(next) == Total(jobs)
  {
    hide Total;
    if next != jobs {
      SameTotal(jobs, id, next[id]);
    }
  }

  /** Every step of its own leaves the thread with less to do. */
  lemma OwnStepShrinks(d: Desk, s: Step)
    requires DeskOk(d) && Enabled(d, s) && Own(s)
    ensures ToDo(After(d, s)) < ToDo(d)
  {
    hide DeskOk, ToDo, BeginStarts, BeginEnds, ChunkStarts, ChunkEnds, EndStarts, EndEnds, CheckStarts, CheckEnds;
    match s
    case StartBegin(id) => BeginShrinks(d, id);
    case BeginDone(_) => BeginDoneShrinks(d);
    case StartChunk(id, requested) => ChunkShrinks(d, id, requested);
    case ChunkDone(_) => ChunkDoneShrinks(d);
    case StartEnd(id) => EndShrinks(d, id);
    case EndDone(_) => EndDoneShrinks(d);
    case StartCheck(id) => CheckShrinks(d, id);
    case CheckDone(_) => CheckDoneShrinks(d);
    case _ =>
  }

  // ----- Rest -----

  /** Steps `i` and on are the thread's own, and each can be taken. */
  ghost predicate LeftAlone(steps: seq<Step>, i: nat) {
    forall k :: i <= k < |steps| ==> Own(steps[k]) && Enabled(Run(steps[..k]), steps[k])
  }

  lemma {:induction false} OwnStepsBounded(steps: seq<Step>, i: nat, j: nat)
    requires i <= j <= |steps| && LeftAlone(steps, i)
    ensures j - i + ToDo(Run(steps[..j])) <= ToDo(Run(steps[..i]))
    decreases j
  {
    hide Run, After, Enabled, ToDo, DeskOk;
    if i < j {
      OwnStepsBounded(steps, i, j - 1);
      RunOk(steps[..j - 1]);
      F.NextRun(steps, j - 1);
      OwnStepShrinks(Run(steps[..j - 1]), steps[j - 1]);
    }
  }

  /** Something can always be done while there is anything on a list or in hand. */
  lemma Goes(d: Desk)
    requires d.sane && !(d.busy.Idle? && d.newIrobs + d.newChunks + d.finished + d.checks == {})
    ensures exists s :: Own(s) && Enabled(d, s)
  {
    match d.busy
    case InBegin(_, _) => assert Enabled(d, BeginDone(true));
    case InChunk(_) => assert Enabled(d, ChunkDone(true));
    case InEnd(_) => assert Enabled(d, EndDone(true));
    case InCheck(_, _) => assert Enabled(d, CheckDone(true));
    case Idle =>
      SomeMember(d.newIrobs + d.newChunks + d.finished + d.checks);
      var id :| id in d.newIrobs + d.newChunks + d.finished + d.checks;
      if id in d.newIrobs {
        assert Enabled(d, StartBegin(id));
      } else if id in d.newChunks {
        assert Enabled(d, StartChunk(id, 1));
      } else if id in d.finished {
        assert Enabled(d, StartEnd(id));
      } else {
        assert Enabled(d, StartCheck(id));
      }
  }

  /** Left to itself from any point of any run, with writes that succeed, the thread takes no more
      steps than it has to do; and when it can take none, every IROB still here has its Begin and all
      its pieces written, with nothing asked for again, and each finished one its End, unless that
      came late or a check for it is owed. */
  lemma ComesToRest(steps: seq<Step>, i: nat, id: int)
    requires i <= |steps| && LeftAlone(steps, i)
    ensures |steps| - i <= ToDo(Run(steps[..i]))
    ensures var d := Run(steps);
            d.sane && (forall s :: Own(s) ==> !Enabled(d, s)) && id in d.jobs ==>
              var j := d.jobs[id];
              && F.Happened(steps, id, F.BeginWritten) && S.AllBytesChunked(j.st) && j.st.resend == {}
              && (F.Ended(steps, id) ==> F.Happened(steps, id, F.EndWritten) || id in Late(steps) || id in Owed(steps))
  {
    hide Run, Enabled, Own, ToDo, F.Happened, F.Ended, Late, Owed, F.Mark, EndInHand, S.AllBytesChunked, F.Written, S.Bytes;
    assert steps[..|steps|] == steps;
    OwnStepsBounded(steps, i, |steps|);
    var d := Run(steps);
    if d.sane && (forall s :: Own(s) ==> !Enabled(d, s)) && id in d.jobs {
      if !(d.busy.Idle? && d.newIrobs + d.newChunks + d.finished + d.checks == {}) {
        Goes(d);
      }
      IdleMeansSent(steps, id);
      EndsRecovered(steps, id);
      F.HoldsWhatWasWritten(steps, id);
      F.MarksAreTrue(steps, id, F.BeginWritten);
      F.MarksAreTrue(steps, id, F.EndWritten);
      MarksOf(d.jobs[id]);
      if d.jobs[id].st.complete && EndInHand(d, id) {
        RestingEnd(d, id);
      }
    }
  }

  lemma MarksOf(j: Job)
    ensures F.Mark(j, F.BeginWritten) == j.announced && F.Mark(j, F.EndWritten) == j.endSent
  {
  }

  lemma RestingEnd(d: Desk, id: int)
    requires d.busy.Idle? && d.newIrobs + d.newChunks + d.finished + d.checks == {} && id in d.jobs
    requires S.AllBytesChunked(d.jobs[id].st) && d.jobs[id].st.complete && EndInHand(d, id)
    ensures d.jobs[id].endSent
  {
    hide S.AllBytesChunked;
    assert d.finished <= {} && d.checks <= {};
  }
}
