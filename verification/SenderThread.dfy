/** The sender thread itself: `schedule_work` and the three writes it makes, as steps of the
    work-list machine with other threads' steps in between. */
module SenderThread {
  import opened Sequences
  import S = SenderIrob
  import opened SenderWork

  /** How one write goes: the size asked for if it is a chunk, what other threads do while the
      lock is free, and whether the write succeeds. */
  datatype Outcome = Outcome(size: nat, meanwhile: seq<Step>, ok: bool)

  predicate Foreign(s: Step) {
    s.AppBegin? || s.AppSend? || s.AppWrite? || s.AppEnd? || s.Gone? || s.Request? || s.ScheduleChecks?
  }

  predicate Plausible(outcomes: seq<Outcome>) {
    forall o :: o in outcomes ==> o.size > 0 && forall s :: s in o.meanwhile ==> Foreign(s)
  }

  lemma RunSnoc(steps: seq<Step>, s: Step)
    ensures var d := Run(steps);
            Run(steps + [s]) == if Enabled(d, s) then After(d, s) else d
  {
    hide After, Enabled;
    assert (steps + [s])[..|steps|] == steps;
  }

  /** Something to send, as `get_ready_bytes` gives it. */
  method TakeReady(st: S.Sending, requested: nat) returns (r: S.Ready)
    ensures r == S.GetReady(st, 0, requested)
  {
    hide S.GetBytes, S.AddSentChunk;
    if st.resend != {} {
      var front := S.Lowest(st.resend);
      var c := if front < |st.sent| then st.sent[front] else S.Cut(0, 0, 0);
      var g := S.GetBytes(st, c.offset, c.length);
      r := S.Ready(st.(resend := st.resend - {front}), g.data, g.length, c.seqno, c.offset);
    } else {
      var offset := S.IrobOffset(st, 0);
      var want := if requested > 0 then requested else if offset <= st.numBytes then st.numBytes - offset else 0;
      var g := S.GetBytes(st, offset, want);
      r := S.Ready(if g.length == 0 then st else S.AddSentChunk(st, 0, g.length),
                   g.data, g.length, S.NextSeqno(st, 0), offset);
    }
  }

  class CSocketSender {
    var jobs: map<int, Job>
    var used: set<int>
    var newIrobs: set<int>
    var newChunks: set<int>
    var finished: set<int>
    var checks: set<int>
    var busy: Busy
    var sane: bool

    /** Every step taken so far, by any thread. */
    ghost var steps: seq<Step>

    ghost function Now(): Desk
      reads this
    {
      Desk(jobs, used, newIrobs, newChunks, finished, checks, busy, sane)
    }

    ghost predicate Valid()
      reads this
    {
      Now() == Run(steps)
    }

    /** The thread has the lock and nothing under way. */
    ghost predicate Free()
      reads this
    {
      Valid() && sane && busy.Idle?
    }

    constructor ()
      ensures Valid() && steps == [] && Now() == NewDesk()
    {
      jobs, used, newIrobs, newChunks, finished, checks, busy, sane := map[], {}, {}, {}, {}, {}, Idle, true;
      steps := [];
    }

    method Become(d: Desk, ghost s: Step)
      requires Valid() && Enabled(Now(), s) && d == After(Now(), s)
      modifies this
      ensures Valid() && Now() == d && steps == old(steps) + [s]
    {
      hide Run, After, Enabled;
      RunSnoc(steps, s);
      jobs, used, newIrobs, newChunks, finished, checks, busy, sane :=
        d.jobs, d.used, d.newIrobs, d.newChunks, d.finished, d.checks, d.busy, d.sane;
      steps := steps + [s];
    }

    /** Other threads, while the lock is free; what they cannot do is skipped. */
    method Others(meanwhile: seq<Step>)
      requires Valid() && forall s :: s in meanwhile ==> Foreign(s)
      modifies this
      ensures Valid() && steps == old(steps) + meanwhile && busy == old(busy) && sane == old(sane)
    {
      hide Run, Put, Accept, Write, End, Serve;
      var i := 0;
      while i < |meanwhile|
        invariant 0 <= i <= |meanwhile| && Valid() && busy == old(busy) && sane == old(sane)
        invariant steps == old(steps) + meanwhile[..i]
      {
        var s := meanwhile[i];
        assert meanwhile[..i + 1] == meanwhile[..i] + [s] && Foreign(s);
        OtherStep(s);
        i := i + 1;
      }
      assert meanwhile[..i] == meanwhile;
    }

    method OtherStep(s: Step)
      requires Valid() && Foreign(s)
      modifies this
      ensures Valid() && steps == old(steps) + [s] && busy == old(busy) && sane == old(sane)
    {
      hide Run;
      var d := Desk(jobs, used, newIrobs, newChunks, finished, checks, busy, sane);
      if Enabled(d, s) {
        var t := d;
        match s {
          case AppBegin(id, ondemand) => t := Accept(d, id, NewJob(S.NewSending(), false, ondemand));
          case AppSend(id, data, ondemand) =>
            t := Accept(d, id, NewJob(S.EndApp(S.AddApp(S.NewSending(), data)), true, ondemand));
          case AppWrite(id, data) => t := Write(d, id, data);
          case AppEnd(id) => t := End(d, id);
          case Gone(id) => t := d.(jobs := d.jobs - {id});
          case Request(id, deps, chunk, end) => t := Serve(d, id, deps, chunk, end);
          case ScheduleChecks(ids) => t := d.(checks := d.checks + ids);
          case _ =>
        }
        Become(t, s);
      } else {
        RunSnoc(steps, s);
        steps := steps + [s];
      }
    }

    /** The thread has the lock back after writing a Begin. After a failure it is to be written
      again; an IROB acknowledged meanwhile needs nothing more. */
    method Begun(id: int, ok: bool)
      requires Valid() && sane && busy.InBegin? && busy.id == id
      modifies this
      ensures Free() && steps == old(steps) + [BeginDone(ok)]
    {
      hide Run;
      var d := Desk(jobs, used, newIrobs, newChunks, finished, checks, Idle, sane);
      if !ok {
        d := d.(newIrobs := d.newIrobs + {id});
      }
      if id in jobs {
        var j := jobs[id].(tried := true);
        if !ok {
          j := j.(endLost := j.endLost || busy.all);
        } else {
          j := j.(announced := true);
          if busy.all {
            if j.st.complete && S.AllBytesChunked(j.st) {
              j := j.(endAnnounced := true, endSent := true);
            }
          } else if j.anonymous || j.st.chunks != [] {
            d := d.(newChunks := d.newChunks + {id});
          }
        }
        d := d.(jobs := d.jobs[id := j]);
      }
      Become(d, BeginDone(ok));
    }

    /** Back after writing a chunk: there may be more, so the task is put back; after the last
      one the End is due. */
    method ChunkWritten(id: int, ok: bool)
      requires Valid() && sane && busy.InChunk? && busy.id == id
      modifies this
      ensures Free() && steps == old(steps) + [ChunkDone(ok)]
    {
      hide Run;
      var d := Desk(jobs, used, newIrobs, newChunks, finished, checks, Idle, sane);
      if !ok || id in jobs {
        d := d.(newChunks := d.newChunks + {id});
      }
      if id in jobs {
        var j := jobs[id];
        if j.st.complete && S.AllBytesChunked(j.st) {
          if !ok {
            d := d.(jobs := d.jobs[id := j.(endLost := true)]);
          } else if !j.endAnnounced {
            d := d.(jobs := d.jobs[id := j.(endLost := false)], finished := d.finished + {id});
          }
        }
      }
      Become(d, ChunkDone(ok));
    }

    /** Back after writing an End. */
    method EndWritten(id: int, ok: bool)
      requires Valid() && sane && busy.InEnd? && busy.id == id
      modifies this
      ensures Free() && steps == old(steps) + [EndDone(ok)]
    {
      hide Run;
      var d := Desk(jobs, used, newIrobs, newChunks, finished, checks, Idle, sane);
      if !ok {
        d := d.(finished := d.finished + {id});
      } else if id in jobs {
        d := d.(jobs := d.jobs[id := jobs[id].(endSent := true)]);
      }
      Become(d, EndDone(ok));
    }

    /** Takes `id` off the list of new IROBs and writes its Begin. */
    method BeginIrob(id: int, o: Outcome) returns (wrote: bool)
      requires Free() && id in newIrobs && Plausible([o])
      modifies this
      ensures Valid() && old(steps) <= steps && (sane ==> busy.Idle?)
      ensures steps == old(steps) + [StartBegin(id)] + (if wrote then o.meanwhile + [BeginDone(o.ok)] else [])
    {
      hide Run, S.GetReady, S.Bytes, S.AllBytesChunked;
      var d := Desk(jobs, used, newIrobs - {id}, newChunks, finished, checks, busy, sane);
      if id in jobs {
        var j := jobs[id];
        if SmallAndWhole(j) {
          var r := TakeReady(j.st, |S.Bytes(j.st)|);
          d := Put(d, id, j.(st := r.st)).(busy := InBegin(id, r.length > 0), sane := S.AllBytesChunked(r.st));
        } else {
          d := d.(busy := InBegin(id, false));
        }
      }
      Become(d, StartBegin(id));
      wrote := sane && busy.InBegin?;
      if wrote {
        assert o in [o];
        Others(o.meanwhile);
        Begun(id, o.ok);
      }
    }

    /** Takes `id` off the list and writes its next chunk, if there is one. */
    method IrobChunk(id: int, o: Outcome) returns (wrote: bool)
      requires Free() && id in newChunks && Plausible([o])
      modifies this
      ensures Free()
      ensures steps == old(steps) + [StartChunk(id, o.size)] + (if wrote then o.meanwhile + [ChunkDone(o.ok)] else [])
    {
      hide Run, DeskOk, S.GetReady, S.AllBytesChunked;
      assert o in [o];
      var d := Desk(jobs, used, newIrobs, newChunks - {id}, finished, checks, busy, sane);
      if id in jobs {
        var r := TakeReady(jobs[id].st, o.size);
        if r.length > 0 {
          d := Put(d, id, jobs[id].(st := r.st)).(busy := InChunk(id));
        }
      }
      Become(d, StartChunk(id, o.size));
      wrote := busy.InChunk?;
      if wrote {
        Others(o.meanwhile);
        ChunkWritten(id, o.ok);
      }
    }

    /** Takes `id` off the list and writes its End. */
    method EndIrob(id: int, o: Outcome) returns (wrote: bool)
      requires Free() && id in finished && Plausible([o])
      modifies this
      ensures Free()
      ensures steps == old(steps) + [StartEnd(id)] + (if wrote then o.meanwhile + [EndDone(o.ok)] else [])
    {
      hide Run, DeskOk;
      assert o in [o];
      var d := Desk(jobs, used, newIrobs, newChunks, finished - {id}, checks, busy, sane);
      if id in jobs {
        d := d.(busy := InEnd(id));
      }
      Become(d, StartEnd(id));
      wrote := busy.InEnd?;
      if wrote {
        Others(o.meanwhile);
        EndWritten(id, o.ok);
      }
    }

    /** Back after writing a data check, which brought the End along if it was due. */
    method CheckWritten(id: int, ok: bool)
      requires Valid() && sane && busy.InCheck? && busy.id == id
      modifies this
      ensures Free() && steps == old(steps) + [CheckDone(ok)]
    {
      hide Run;
      var d := Desk(jobs, used, newIrobs, newChunks, finished, checks, Idle, sane);
      if !ok {
        d := d.(checks := d.checks + {id});
      } else if busy.end && id in jobs {
        d := d.(jobs := d.jobs[id := jobs[id].(endSent := true)]);
      }
      Become(d, CheckDone(ok));
    }

    /** Takes `id` off the list and writes its data check, with a piece and the Begin and End. */
    method SendDataCheck(id: int, o: Outcome)
      requires Free() && id in checks && Plausible([o])
      modifies this
      ensures Free() && steps == old(steps) + [StartCheck(id)] + (o.meanwhile + [CheckDone(o.ok)])
    {
      hide Run, DeskOk, S.GetReady, S.AllBytesChunked;
      assert o in [o];
      var d := Desk(jobs, used, newIrobs, newChunks, finished, checks - {id}, busy, sane);
      var end := false;
      if id in jobs {
        var r := TakeReady(jobs[id].st, MIN_CHUNKSIZE);
        end := r.st.complete && S.AllBytesChunked(r.st);
        d := d.(jobs := d.jobs[id := jobs[id].(st := r.st)]);
      }
      d := d.(busy := InCheck(id, end));
      Become(d, StartCheck(id));
      Others(o.meanwhile);
      CheckWritten(id, o.ok);
    }

    /** All data checks that are waiting, one write each. */
    method SendDataChecks(outcomes: seq<Outcome>) returns (alive: bool, left: seq<Outcome>)
      requires Free() && Plausible(outcomes)
      modifies this
      ensures Free() && old(steps) <= steps && Plausible(left)
      ensures alive && left != [] ==> checks == {}
      ensures old(checks) == {} ==> Now() == old(Now()) && alive && left == outcomes
    {
      hide Run, JobOk;
      alive, left := true, outcomes;
      while alive && left != [] && checks != {}
        invariant Free() && old(steps) <= steps && Plausible(left)
        invariant old(checks) == {} ==> Now() == old(Now()) && alive && left == outcomes
        decreases |left|
      {
        SomeMember(checks);
        var id: int :| id in checks;
        var o := left[0];
        assert o in left;
        SendDataCheck(id, o);
        alive, left := o.ok, left[1..];
      }
    }

    /** Whether the list of chunks has a task for `id` that a lookup without labels finds. */
    function Findable(id: int): bool
      reads this
    {
      id in newChunks && (id in jobs ==> !jobs[id].ondemand)
    }

    /** Goes on with the same IROB as long as there is a task for it. `alive` is false when a
      write failed, which ends this thread. */
    method SendChunks(id: int, outcomes: seq<Outcome>) returns (alive: bool, left: seq<Outcome>)
      requires Free() && Plausible(outcomes)
      modifies this
      ensures Free() && old(steps) <= steps && Plausible(left)
      ensures alive && left != [] ==> !Findable(id)
    {
      alive, left := true, outcomes;
      while alive && left != [] && Findable(id)
        invariant Free() && old(steps) <= steps && Plausible(left)
        decreases |left|
      {
        hide Run;
        var o := left[0];
        assert o in left;
        var wrote := IrobChunk(id, o);
        alive := !wrote || o.ok;
        left := left[1..];
      }
    }

    /** After the Begin or a chunk of `id`: its further chunks, and its End if that is listed. */
    method FollowUp(id: int, outcomes: seq<Outcome>) returns (alive: bool, left: seq<Outcome>)
      requires Free() && Plausible(outcomes)
      modifies this
      ensures Free() && old(steps) <= steps && Plausible(left)
    {
      hide Run;
      alive, left := SendChunks(id, outcomes);
      if alive && left != [] && id in finished {
        var o := left[0];
        assert o in left;
        var wrote := EndIrob(id, o);
        alive, left := !wrote || o.ok, left[1..];
      }
    }

    /** Where a stage of the pass leaves things: `did` says whether it found anything to do. */
    twostate predicate Went(outcomes: seq<Outcome>, left: seq<Outcome>, did: bool)
      reads this
    {
      && Valid() && old(steps) <= steps && (sane ==> busy.Idle?) && Plausible(left)
      && (!did ==> Now() == old(Now()) && left == outcomes)
    }

    /** The first new IROB, if there is one, with what it has to send. */
    method ScheduleNewIrob(outcomes: seq<Outcome>) returns (did: bool, alive: bool, left: seq<Outcome>)
      requires Free() && Plausible(outcomes)
      modifies this
      ensures Went(outcomes, left, did) && (did <==> outcomes != [] && old(newIrobs) != {}) && (!did ==> alive)
    {
      hide Run;
      did, alive, left := false, true, outcomes;
      if left != [] && newIrobs != {} {
        SomeMember(newIrobs);
        var id: int :| id in newIrobs;
        var o := left[0];
        assert o in left;
        var wrote := BeginIrob(id, o);
        did, alive, left := true, !wrote || o.ok, left[1..];
        if sane && alive {
          alive, left := FollowUp(id, left);
        }
      }
    }

    /** The first IROB with chunks, if there is one. */
    method ScheduleChunks(outcomes: seq<Outcome>) returns (did: bool, alive: bool, left: seq<Outcome>)
      requires Free() && Plausible(outcomes)
      modifies this
      ensures Went(outcomes, left, did) && (did <==> outcomes != [] && old(newChunks) != {}) && (!did ==> alive) && sane
    {
      hide Run;
      did, alive, left := false, true, outcomes;
      if left != [] && newChunks != {} {
        SomeMember(newChunks);
        var id: int :| id in newChunks;
        var o := left[0];
        assert o in left;
        var wrote := IrobChunk(id, o);
        did, alive, left := true, !wrote || o.ok, left[1..];
        if alive {
          alive, left := FollowUp(id, left);
        }
      }
    }

    /** The first End, if there is one. */
    method ScheduleEnd(outcomes: seq<Outcome>) returns (did: bool, alive: bool, left: seq<Outcome>)
      requires Free() && Plausible(outcomes)
      modifies this
      ensures Went(outcomes, left, did) && (did <==> outcomes != [] && old(finished) != {}) && (!did ==> alive)
    {
      hide Run;
      did, alive, left := false, true, outcomes;
      if left != [] && finished != {} {
        SomeMember(finished);
        var id: int :| id in finished;
        var o := left[0];
        assert o in left;
        var wrote := EndIrob(id, o);
        did, alive, left := true, !wrote || o.ok, left[1..];
      }
    }

    /** One pass over the work lists: every data check, then at most one new IROB, one IROB with
        chunks, one End. The pass stops early when a write fails, or after as many writes as there
        are outcomes. */
    method ScheduleWork(outcomes: seq<Outcome>) returns (didSomething: bool, alive: bool)
      requires Free() && Plausible(outcomes)
      modifies this
      ensures Valid() && old(steps) <= steps && (sane ==> busy.Idle?)
      ensures forall id :: sane && id in jobs ==>
                BytesInHand(Now(), id) && (EndInHand(Now(), id) || jobs[id].endLost)
      ensures !didSomething && outcomes != [] ==>
                old(newIrobs + newChunks + finished + checks) == {} && Now() == old(Now())
    {
      hide Run, JobOk;
      var did;
      var left;
      didSomething := outcomes != [] && checks != {};
      alive, left := SendDataChecks(outcomes);
      if alive {
        did, alive, left := ScheduleNewIrob(left);
        didSomething := didSomething || did;
      }
      if sane && alive {
        did, alive, left := ScheduleChunks(left);
        didSomething := didSomething || did;
      }
      if sane && alive {
        did, alive, left := ScheduleEnd(left);
        didSomething := didSomething || did;
      }
      forall id | sane && id in jobs
        ensures BytesInHand(Now(), id) && (EndInHand(Now(), id) || jobs[id].endLost)
      {
        NothingForgotten(steps, id);
      }
    }

    /** What a thread does after its write has failed, before it ends: while it looks for another
        connection other threads go on; then it has every IROB it sent here checked. */
    method Recover(sentHere: set<int>, meanwhile: seq<Step>)
      requires Free() && forall s :: s in meanwhile ==> Foreign(s)
      modifies this
      ensures Free() && steps == old(steps) + meanwhile + [ScheduleChecks(sentHere * jobs.Keys)]
      ensures forall id :: id in jobs ==>
                BytesInHand(Now(), id) && (id in sentHere ==> id in checks && EndInHand(Now(), id))
                && (EndInHand(Now(), id) || id in Owed(steps) || id in Late(steps))
    {
      hide Run, JobOk, Owed, Late;
      Others(meanwhile);
      var ids := sentHere * jobs.Keys;
      Become(Desk(jobs, used, newIrobs, newChunks, finished, checks + ids, busy, sane), ScheduleChecks(ids));
      forall id | id in jobs
        ensures BytesInHand(Now(), id) && (EndInHand(Now(), id) || id in Owed(steps) || id in Late(steps))
      {
        NothingForgotten(steps, id);
        EndsRecovered(steps, id);
      }
    }
  }
}
