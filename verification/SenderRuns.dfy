/** Runs of the sender's work lists that end badly. */
module SenderRuns {
  import opened Sequences
  import S = SenderIrob
  import opened SenderWork

  function OneJob(j: Job, newIrobs: set<int>, newChunks: set<int>, busy: Busy): Desk {
    Desk(map[1 := j], {1}, newIrobs, newChunks, {}, {}, busy, true)
  }

  /** The `k`-th step of a run. */
  lemma Next(steps: seq<Step>, k: nat, s: Step, d: Desk, t: Desk)
    requires k < |steps| && steps[k] == s && Run(steps[..k]) == d && Enabled(d, s) && After(d, s) == t
    ensures Run(steps[..k + 1]) == t
  {
    hide After, Enabled;
    var next := steps[..k + 1];
    assert next[..|next| - 1] == steps[..k] && next[|next| - 1] == steps[k];
  }

  lemma RunStarts(steps: seq<Step>)
    ensures Run(steps[..0]) == NewDesk()
  {
  }

  lemma HasChunks(st: S.Sending)
    ensures S.Bytes(st) != [] ==> st.chunks != []
  {
    assert st.chunks == [] ==> S.AppData(st.chunks) == [];
  }

  lemma OneByteWritten()
    ensures var w := S.AddApp(S.NewSending(), [7]);
            Cursor(w) && S.Bytes(w) == [7] && w.numBytes == 1 && !w.complete && w.sent == [] && w.resend == {}
  {
    FreshCursor([]);
    WriteKeepsCursor(S.NewSending(), [7]);
    S.AddAppKeeps(S.NewSending(), [7]);
    assert S.AppData([]) == [] && [] + [7] == [7 as byte];
    hide S.Valid, S.Bytes;
  }

  /** The one byte of the run as a data check cuts it. */
  ghost function Cut(): S.Sending {
    S.GetReady(S.AddApp(S.NewSending(), [7]), 0, MIN_CHUNKSIZE).st
  }

  /** It is then all cut, and once the IROB is ended there is nothing more to take. */
  lemma OneByteCut()
    ensures Cursor(Cut()) && !Cut().complete && S.AllBytesChunked(Cut()) && Cut().resend == {} && S.Bytes(Cut()) == [7]
    ensures var e := S.EndApp(Cut());
            && e.complete && S.AllBytesChunked(e) && e.chunks != [] && S.GetReady(e, 0, 10).length == 0
  {
    hide Cursor, S.AllBytesChunked, S.GetReady, S.Bytes, S.AddApp, S.EndApp, S.NewSending;
    OneByteWritten();
    CursorMoves(S.AddApp(S.NewSending(), [7]), MIN_CHUNKSIZE);
    EndKeepsCursor(Cut());
    EndKeepsBytes(Cut());
    HasChunks(S.EndApp(Cut()));
    NothingMore(S.EndApp(Cut()));
  }

  lemma NothingMore(st: S.Sending)
    requires Cursor(st) && st.resend == {} && S.AllBytesChunked(st)
    ensures S.GetReady(st, 0, 10).length == 0
  {
    hide S.Valid, S.GetReady, S.Bytes, S.SentBytes, S.AllBytesChunked, S.Pieces, S.NextSeqno;
    AllCutIs(st);
    S.ReadyNew(st, 0, 10);
  }

  function Plain(st: S.Sending, ondemand: bool, tried: bool): Job {
    Job(st, false, ondemand, false, false, tried, false, false)
  }

  // ----- What single steps do to a single IROB -----

  lemma SecondBegin(j: Job, newChunks: set<int>)
    requires !SmallAndWhole(j)
    ensures var d := OneJob(j, {1}, newChunks, Idle);
            Enabled(d, StartBegin(1)) && After(d, StartBegin(1)) == OneJob(j, {}, newChunks, InBegin(1, false))
  {
    hide SmallAndWhole, S.GetReady;
    assert {1} - {1} == {};
  }

  lemma BeginFails(j: Job)
    ensures var d := OneJob(j, {}, {}, InBegin(1, false));
            && Enabled(d, BeginDone(false)) && After(d, BeginDone(false)) == OneJob(j.(tried := true), {1}, {}, Idle)
  {
  }

  lemma BeginSucceeds(j: Job, newChunks: set<int>)
    requires j.st.chunks != []
    ensures var d := OneJob(j, {}, newChunks, InBegin(1, false));
            && Enabled(d, BeginDone(true))
            && After(d, BeginDone(true)) == OneJob(j.(tried := true, announced := true), {}, newChunks + {1}, Idle)
  {
  }

  lemma ChunkGoes(j: Job)
    requires S.GetReady(j.st, 0, 10).length == 0
    ensures var d := OneJob(j, {}, {1}, Idle);
            Enabled(d, StartChunk(1, 10)) && After(d, StartChunk(1, 10)) == OneJob(j, {}, {}, Idle)
  {
    hide S.GetReady;
    assert {1} - {1} == {};
  }

  lemma ChecksScheduled(j: Job)
    ensures var d := OneJob(j, {1}, {}, Idle);
            && Enabled(d, ScheduleChecks({1})) && After(d, ScheduleChecks({1})) == d.(checks := {1})
  {
    assert {} + {1} == {1};
  }

  lemma CheckGoes(j: Job)
    requires !S.GetReady(j.st, 0, MIN_CHUNKSIZE).st.complete
    ensures var d := OneJob(j, {1}, {}, Idle).(checks := {1});
            && Enabled(d, StartCheck(1))
            && After(d, StartCheck(1))
               == OneJob(j.(st := S.GetReady(j.st, 0, MIN_CHUNKSIZE).st), {1}, {}, InCheck(1, false))
  {
    hide S.GetReady, S.AllBytesChunked;
    assert {1} - {1} == {};
  }

  lemma CheckGone(j: Job)
    ensures var d := OneJob(j, {1}, {}, InCheck(1, false));
            && Enabled(d, CheckDone(true)) && After(d, CheckDone(true)) == OneJob(j, {1}, {}, Idle)
  {
  }

  lemma EndComes(j: Job)
    requires !j.st.complete && S.AllBytesChunked(S.EndApp(j.st)) && !j.announced
    ensures var d := OneJob(j, {1}, {}, InCheck(1, false));
            && Enabled(d, AppEnd(1))
            && After(d, AppEnd(1)) == OneJob(j.(st := S.EndApp(j.st), endLost := true), {1}, {}, InCheck(1, false))
  {
    hide S.AllBytesChunked, S.EndApp;
  }

  lemma FirstSteps(steps: seq<Step>, ondemand: bool)
    requires |steps| >= 2 && steps[0] == AppBegin(1, ondemand) && steps[1] == AppWrite(1, [7])
    ensures Run(steps[..2]) == OneJob(Plain(S.AddApp(S.NewSending(), [7]), ondemand, false), {1}, {}, Idle)
  {
    FreshCursor([]);
    RunStarts(steps);
    var d := OneJob(Plain(S.NewSending(), ondemand, false), {1}, {}, Idle);
    var t := OneJob(Plain(S.AddApp(S.NewSending(), [7]), ondemand, false), {1}, {}, Idle);
    FirstTwo(ondemand);
    hide Run, Enabled, After, S.AddApp, S.NewSending, OneJob;
    Next(steps, 0, AppBegin(1, ondemand), NewDesk(), d);
    Next(steps, 1, AppWrite(1, [7]), d, t);
  }

  lemma FirstTwo(ondemand: bool)
    ensures var d := OneJob(Plain(S.NewSending(), ondemand, false), {1}, {}, Idle);
            && Enabled(NewDesk(), AppBegin(1, ondemand)) && After(NewDesk(), AppBegin(1, ondemand)) == d
            && Enabled(d, AppWrite(1, [7]))
            && After(d, AppWrite(1, [7])) == OneJob(Plain(S.AddApp(S.NewSending(), [7]), ondemand, false), {1}, {}, Idle)
  {
    hide S.AllBytesChunked, S.AddApp;
    assert {} + {1} == {1};
    var j := Plain(S.NewSending(), ondemand, false);
    assert map[][1 := j] == map[1 := j];
  }

  /** A data check takes the only byte along. */
  lemma CheckTakesByte(steps: seq<Step>, k: nat, ondemand: bool, tried: bool)
    requires k + 2 <= |steps| && steps[k..k + 2] == [ScheduleChecks({1}), StartCheck(1)]
    requires Run(steps[..k]) == OneJob(Plain(S.AddApp(S.NewSending(), [7]), ondemand, tried), {1}, {}, Idle)
    ensures Run(steps[..k + 2]) == OneJob(Plain(Cut(), ondemand, tried), {1}, {}, InCheck(1, false))
  {
    OneByteCut();
    hide Run, Enabled, After, S.AllBytesChunked, S.GetReady, S.Bytes, S.AddApp, S.EndApp, S.NewSending, Cursor;
    assert steps[k] == steps[k..k + 2][0] && steps[k + 1] == steps[k..k + 2][1];
    var j := Plain(S.AddApp(S.NewSending(), [7]), ondemand, tried);
    ChecksScheduled(j);
    CheckGoes(j);
    var d := OneJob(j, {1}, {}, Idle);
    Next(steps, k, ScheduleChecks({1}), d, d.(checks := {1}));
    Next(steps, k + 1, StartCheck(1), d.(checks := {1}), OneJob(Plain(Cut(), ondemand, tried), {1}, {}, InCheck(1, false)));
  }

  /** A Begin is tried and fails. */
  lemma BeginTried(steps: seq<Step>, k: nat, st: S.Sending, ondemand: bool)
    requires k + 2 <= |steps| && steps[k..k + 2] == [StartBegin(1), BeginDone(false)] && !st.complete
    requires Run(steps[..k]) == OneJob(Plain(st, ondemand, false), {1}, {}, Idle)
    ensures Run(steps[..k + 2]) == OneJob(Plain(st, ondemand, true), {1}, {}, Idle)
  {
    var j := Plain(st, ondemand, false);
    SecondBegin(j, {});
    BeginFails(j);
    hide Run, Enabled, After, OneJob;
    assert steps[k] == steps[k..k + 2][0] && steps[k + 1] == steps[k..k + 2][1];
    Next(steps, k, StartBegin(1), OneJob(j, {1}, {}, Idle), OneJob(j, {}, {}, InBegin(1, false)));
    Next(steps, k + 1, BeginDone(false), OneJob(j, {}, {}, InBegin(1, false)), OneJob(j.(tried := true), {1}, {}, Idle));
  }

  /** Nothing is left to do, and the End of a finished, announced, wholly cut IROB was not sent. */
  predicate EndMissing(d: Desk) {
    && d.sane && d.busy.Idle? && d.newIrobs + d.newChunks + d.finished + d.checks == {}
    && 1 in d.jobs && d.jobs[1].announced && Due(d.jobs[1].st) && !d.jobs[1].endSent
  }

  /** The application ends the IROB while the check is being written; its Begin is written next. */
  lemma EndComesLate(steps: seq<Step>, k: nat, tried: bool)
    requires k + 5 == |steps|
    requires steps[k..] == [AppEnd(1), CheckDone(true), StartBegin(1), BeginDone(true), StartChunk(1, 10)]
    requires Run(steps[..k]) == OneJob(Plain(Cut(), false, tried), {1}, {}, InCheck(1, false))
    ensures EndMissing(Run(steps))
  {
    OneByteCut();
    hide Run, Enabled, After, S.AllBytesChunked, S.GetReady, S.Bytes, S.AddApp, S.EndApp, S.NewSending, Cursor, Cut;
    assert steps[k] == steps[k..][0] && steps[k + 1] == steps[k..][1] && steps[k + 2] == steps[k..][2]
           && steps[k + 3] == steps[k..][3] && steps[k + 4] == steps[k..][4];
    var c := Plain(Cut(), false, tried);
    var e := Plain(S.EndApp(Cut()), false, tried).(endLost := true);
    var a := e.(tried := true, announced := true);
    EndComes(c);
    Next(steps, k, AppEnd(1), OneJob(c, {1}, {}, InCheck(1, false)), OneJob(e, {1}, {}, InCheck(1, false)));
    CheckGone(e);
    Next(steps, k + 1, CheckDone(true), OneJob(e, {1}, {}, InCheck(1, false)), OneJob(e, {1}, {}, Idle));
    SecondBegin(e, {});
    Next(steps, k + 2, StartBegin(1), OneJob(e, {1}, {}, Idle), OneJob(e, {}, {}, InBegin(1, false)));
    BeginSucceeds(e, {});
    assert {} + {1} == {1};
    Next(steps, k + 3, BeginDone(true), OneJob(e, {}, {}, InBegin(1, false)), OneJob(a, {}, {1}, Idle));
    ChunkGoes(a);
    Next(steps, k + 4, StartChunk(1, 10), OneJob(a, {}, {1}, Idle), OneJob(a, {}, {}, Idle));
    assert steps[..k + 5] == steps;
  }

  // ----- Lost Ends -----

  /** The Begin fails; the data check that follows takes the only byte along; the application ends
      the IROB while it is being written; only then is the Begin written. */
  function LateEnd(): seq<Step> {
    [AppBegin(1, false), AppWrite(1, [7]), StartBegin(1), BeginDone(false), ScheduleChecks({1}), StartCheck(1),
     AppEnd(1), CheckDone(true), StartBegin(1), BeginDone(true), StartChunk(1, 10)]
  }

  lemma LateEndIsLost()
    ensures EndMissing(Run(LateEnd()))
  {
    hide Run, S.GetReady, S.AddApp, OneJob, EndMissing, Cut;
    var steps := LateEnd();
    FirstSteps(steps, false);
    NotEnded();
    BeginTried(steps, 2, S.AddApp(S.NewSending(), [7]), false);
    CheckTakesByte(steps, 4, false, true);
    EndComesLate(steps, 6, true);
  }

  lemma NotEnded()
    ensures !S.AddApp(S.NewSending(), [7]).complete
  {
  }

  /** No write fails at all: this end starts to close at the other's request, which has every IROB
      checked, and the check goes out before the Begin. The application's end of the IROB passed its
      test for closing, which takes no lock, just before. */
  function EarlyCheck(): seq<Step> {
    [AppBegin(1, false), AppWrite(1, [7]), ScheduleChecks({1}), StartCheck(1),
     AppEnd(1), CheckDone(true), StartBegin(1), BeginDone(true), StartChunk(1, 10)]
  }

  lemma EarlyCheckLosesEnd()
    ensures EndMissing(Run(EarlyCheck())) && forall s :: s in EarlyCheck() ==> !Fails(s)
  {
    hide Run, S.GetReady, S.AddApp, OneJob, EndMissing, Cut;
    var steps := EarlyCheck();
    FirstSteps(steps, false);
    CheckTakesByte(steps, 2, false, false);
    EndComesLate(steps, 4, false);
  }

  // ----- The assertion -----

  /** The Begin fails; a data check takes the only byte along and is lost; the other end, asked
      again, wants everything; the application writes more and ends the IROB; then the Begin is
      tried again. */
  function MarkedAndMore(): seq<Step> {
    [AppBegin(1, true), AppWrite(1, [7]), StartBegin(1), BeginDone(false), ScheduleChecks({1}), StartCheck(1),
     CheckDone(true), Request(1, true, None, Some(0)), AppWrite(1, [8]), AppEnd(1), StartBegin(1)]
  }

  /** Its sending state after that. */
  ghost function MarkedSt(): S.Sending {
    S.EndApp(S.AddApp(S.MarkDropPoint(Cut(), 0), [8]))
  }

  lemma SecondByte()
    ensures !Cut().complete && !S.MarkDropPoint(Cut(), 0).complete && !S.AddApp(S.MarkDropPoint(Cut(), 0), [8]).complete
    ensures var e := MarkedSt();
            e.complete && S.Bytes(e) == [7, 8] && e.resend != {} && !S.AllBytesChunked(e)
  {
    hide S.GetReady, S.Valid, S.Bytes, S.AllBytesChunked, S.NewSending, S.SentBytes, S.AddApp, S.EndApp, S.MarkDropPoint,
         Cursor, Cut;
    OneByteCut();
    SomethingCut(Cut());
    MarksKeepCursor(Cut(), None, Some(0));
    SameCuts(Cut(), None, Some(0));
    Marked(Cut());
    OneMore(Cut(), S.MarkDropPoint(Cut(), 0));
    EndKeepsCursor(S.AddApp(S.MarkDropPoint(Cut(), 0), [8]));
    EndKeepsBytes(S.AddApp(S.MarkDropPoint(Cut(), 0), [8]));
  }

  lemma Marked(st: S.Sending)
    requires |st.sent| > 0
    ensures S.MarkDropPoint(st, 0).resend != {}
  {
    assert 0 in S.MarkDropPoint(st, 0).resend;
  }

  /** A byte written after everything was cut is not cut. */
  lemma OneMore(st: S.Sending, m: S.Sending)
    requires Cursor(st) && Cursor(m) && m == st.(resend := m.resend) && S.AllBytesChunked(st) && !st.complete
    ensures var w := S.AddApp(m, [8]);
            && Cursor(w) && !w.complete && w.resend == m.resend && S.Bytes(w) == S.Bytes(m) + [8]
            && !S.AllBytesChunked(w)
  {
    AllCutIs(st);
    S.AddAppKeeps(m, [8]);
    WriteKeepsCursor(m, [8]);
    AllCutIs(S.AddApp(m, [8]));
    hide S.Valid, S.Bytes, S.AllBytesChunked, S.SentBytes;
    SameSent(st, S.AddApp(m, [8]));
  }

  lemma SomethingCut(st: S.Sending)
    requires Cursor(st) && S.AllBytesChunked(st) && S.Bytes(st) != []
    ensures |st.sent| > 0
  {
    if st.sent == [] {
      NothingCut(st);
    }
  }

  lemma SameSent(st: S.Sending, t: S.Sending)
    requires t.sent == st.sent
    ensures S.SentBytes(t) == S.SentBytes(st)
  {
  }

  lemma AllWanted(j: Job)
    requires !j.st.complete
    ensures var d, s := OneJob(j, {1}, {}, Idle), Request(1, true, None, Some(0));
            Enabled(d, s) && After(d, s) == OneJob(j.(st := S.MarkDropPoint(j.st, 0)), {1}, {1}, Idle)
  {
    hide S.MarkDropPoint, S.AllBytesChunked;
    assert {1} + {1} == {1} && {} + {1} == {1};
  }

  lemma MoreWritten(j: Job)
    requires !j.st.complete && !j.announced
    ensures var d, s := OneJob(j, {1}, {1}, Idle), AppWrite(1, [8]);
            Enabled(d, s) && After(d, s) == OneJob(j.(st := S.AddApp(j.st, [8])), {1}, {1}, Idle)
  {
    hide S.AddApp;
  }

  lemma EndComesUncut(j: Job)
    requires !j.st.complete && !S.AllBytesChunked(S.EndApp(j.st))
    ensures var d, s := OneJob(j, {1}, {1}, Idle), AppEnd(1);
            Enabled(d, s) && After(d, s) == OneJob(j.(st := S.EndApp(j.st)), {1}, {1}, Idle)
  {
    hide S.EndApp, S.AllBytesChunked;
  }

  lemma MarkedReached()
    ensures Run(MarkedAndMore()[..10]) == OneJob(Plain(MarkedSt(), true, true), {1}, {1}, Idle)
  {
    hide Run, Enabled, After, S.GetReady, S.AddApp, S.EndApp, S.MarkDropPoint, S.Bytes, S.AllBytesChunked, OneJob,
         S.NewSending, Cut;
    var steps := MarkedAndMore();
    FirstSteps(steps, true);
    NotEnded();
    BeginTried(steps, 2, S.AddApp(S.NewSending(), [7]), true);
    CheckTakesByte(steps, 4, true, true);
    SecondByte();
    var c := Plain(Cut(), true, true);
    var m := c.(st := S.MarkDropPoint(Cut(), 0));
    var w := c.(st := S.AddApp(m.st, [8]));
    CheckGone(c);
    Next(steps, 6, CheckDone(true), OneJob(c, {1}, {}, InCheck(1, false)), OneJob(c, {1}, {}, Idle));
    AllWanted(c);
    Next(steps, 7, Request(1, true, None, Some(0)), OneJob(c, {1}, {}, Idle), OneJob(m, {1}, {1}, Idle));
    MoreWritten(m);
    Next(steps, 8, AppWrite(1, [8]), OneJob(m, {1}, {1}, Idle), OneJob(w, {1}, {1}, Idle));
    EndComesUncut(w);
    Next(steps, 9, AppEnd(1), OneJob(w, {1}, {1}, Idle), OneJob(c.(st := MarkedSt()), {1}, {1}, Idle));
  }

  lemma BeginBreaks(j: Job)
    requires DeskOk(OneJob(j, {1}, {1}, Idle)) && j.st.complete && |S.Bytes(j.st)| < MIN_CHUNKSIZE && j.ondemand && !j.announced
    requires j.st.resend != {} && !S.AllBytesChunked(j.st)
    ensures var d := OneJob(j, {1}, {1}, Idle);
            Enabled(d, StartBegin(1)) && After(d, StartBegin(1)) == BeginStarts(d, 1) && !BeginStarts(d, 1).sane
  {
    hide DeskOk, S.Bytes, S.AllBytesChunked, BeginStarts;
    AssertionFailsIff(OneJob(j, {1}, {1}, Idle), 1);
  }

  /** The assertion that a small IROB is wholly cut does fail. */
  lemma AssertionFails()
    ensures !Run(MarkedAndMore()).sane
  {
    hide Run, DeskOk, S.Bytes, S.AllBytesChunked, OneJob, Enabled, After, BeginStarts, MarkedSt;
    var steps := MarkedAndMore();
    MarkedReached();
    RunOk(steps[..10]);
    SecondByte();
    BeginBreaks(Plain(MarkedSt(), true, true));
    var d := OneJob(Plain(MarkedSt(), true, true), {1}, {1}, Idle);
    Next(steps, 10, StartBegin(1), d, BeginStarts(d, 1));
    assert steps[..11] == steps;
  }
}
