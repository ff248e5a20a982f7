/** How long a message waits behind those sent before it: the recurrence the code computes, and
    what it means. Times are in microseconds. */
module QueuingDelays {
  import opened TimeOps

  datatype Message = Message(time: int, size: nat, bw: nat, irob: int)

  /** Messages of one IROB sent back to back count as one. */
  type Groups = gs: seq<Message> | forall g :: g in gs ==> g.bw > 0

  function TimeToSend(size: nat, bw: nat): nat
    requires bw > 0
  {
    size * 1_000_000 / bw
  }

  /** The whole microseconds that so many bytes take at so many bytes a second. */
  lemma TimeToSendIs(size: nat, bw: nat)
    requires bw > 0
    ensures var t := TimeToSend(size, bw);
            t * bw <= size * 1_000_000 < (t + 1) * bw
  {
  }

  function SendTime(gs: Groups, k: nat): nat
    requires k < |gs|
  {
    assert gs[k] in gs;
    TimeToSend(gs[k].size, gs[k].bw)
  }

  /** The clock may jump back; then no time has passed. */
  function Gap(gs: Groups, k: nat): nat
    requires k + 1 < |gs|
  {
    if gs[k].time < gs[k + 1].time then gs[k + 1].time - gs[k].time else 0
  }

  /** The recurrence: what was left of the queue, plus one group, minus the time since. */
  function Delay(gs: Groups, n: nat): nat
    requires n < |gs|
  {
    if n == 0 then 0
    else
      var queued := Delay(gs, n - 1) + SendTime(gs, n - 1);
      if queued > Gap(gs, n - 1) then queued - Gap(gs, n - 1) else 0
  }

  /** How much sending was queued from group `k` on, up to group `n`. */
  function Work(gs: Groups, k: nat, n: nat): nat
    requires k <= n < |gs|
    decreases n
  {
    if k == n then 0 else Work(gs, k, n - 1) + SendTime(gs, n - 1)
  }

  function Elapsed(gs: Groups, k: nat, n: nat): nat
    requires k <= n < |gs|
    decreases n
  {
    if k == n then 0 else Elapsed(gs, k, n - 1) + Gap(gs, n - 1)
  }

  function Backlog(gs: Groups, k: nat, n: nat): int
    requires k <= n < |gs|
  {
    Work(gs, k, n) - Elapsed(gs, k, n)
  }

  /** The closed form: the delay is the greatest backlog from any earlier group on, and 0. */
  lemma {:induction false} DelayIsGreatestBacklog(gs: Groups, n: nat)
    returns (best: nat)
    requires n < |gs|
    ensures best <= n && Delay(gs, n) == Backlog(gs, best, n)
    ensures forall k: nat :: k <= n ==> Backlog(gs, k, n) <= Delay(gs, n)
  {
    best := n;
    if n > 0 {
      var before := DelayIsGreatestBacklog(gs, n - 1);
      forall k: nat | k <= n
        ensures Backlog(gs, k, n) <= Delay(gs, n)
      {
        if k < n {
          assert Backlog(gs, k, n - 1) <= Delay(gs, n - 1);
        }
      }
      if Delay(gs, n) > 0 {
        best := before;
      }
    }
  }

  ghost predicate ClockForward(gs: Groups) {
    forall k :: 0 <= k < |gs| - 1 ==> gs[k].time <= gs[k + 1].time
  }

  /** With a clock that does not go back, the time elapsed is the difference of the readings. */
  lemma {:induction false} ElapsedIsDifference(gs: Groups, k: nat, n: nat)
    requires k <= n < |gs| && ClockForward(gs)
    ensures Elapsed(gs, k, n) == gs[n].time - gs[k].time
    decreases n
  {
    if k < n {
      ElapsedIsDifference(gs, k, n - 1);
      assert gs[n - 1].time <= gs[n - 1 + 1].time;
    }
  }

  /** In terms of clock readings: the greatest, over earlier groups, of the total send time since
      minus the time elapsed since. */
  lemma DelayClosedForm(gs: Groups, n: nat)
    requires n < |gs| && ClockForward(gs)
    ensures forall k: nat :: k <= n ==> Work(gs, k, n) - (gs[n].time - gs[k].time) <= Delay(gs, n)
    ensures exists k: nat :: k <= n && Work(gs, k, n) - (gs[n].time - gs[k].time) == Delay(gs, n)
  {
    var best := DelayIsGreatestBacklog(gs, n);
    forall k: nat | k <= n
      ensures Backlog(gs, k, n) == Work(gs, k, n) - (gs[n].time - gs[k].time)
    {
      ElapsedIsDifference(gs, k, n);
    }
    assert Backlog(gs, best, n) == Work(gs, best, n) - (gs[n].time - gs[best].time);
  }

  // ----- Grouping -----

  /** What one more message does: a message without an estimate is ignored, one of the same IROB
      adds to the last group and renews its estimate, any other starts a group. */
  function Grouped(gs: Groups, m: Message): Groups
    requires gs == [] ==> m.bw > 0
  {
    if gs == [] then [m]
    else if m.bw == 0 then gs
    else
      var last := gs[|gs| - 1];
      if m.irob == last.irob && m.irob != -1 then
        gs[..|gs| - 1] + [last.(size := last.size + m.size, bw := m.bw)]
      else gs + [m]
  }

  /** Groups keep the order of the clock. */
  lemma GroupedForward(gs: Groups, m: Message)
    requires ClockForward(gs) && (gs == [] ==> m.bw > 0)
    requires gs != [] ==> gs[|gs| - 1].time <= m.time
    ensures ClockForward(Grouped(gs, m))
    ensures var u := Grouped(gs, m); u[|u| - 1].time <= m.time
  {
  }

  /** A new group leaves the delays before it alone, and so does adding to the last group. */
  lemma {:induction false} DelayLocal(gs: Groups, hs: Groups, n: nat)
    requires n < |gs| && n < |hs| && gs[..n] == hs[..n] && gs[n].time == hs[n].time
    ensures Delay(gs, n) == Delay(hs, n)
  {
    if n > 0 {
      assert gs[n - 1] == gs[..n][n - 1] == hs[..n][n - 1] == hs[n - 1];
      assert gs[..n - 1] == gs[..n][..n - 1] == hs[..n][..n - 1] == hs[..n - 1];
      DelayLocal(gs, hs, n - 1);
    }
  }

  function GroupAll(ms: seq<Message>): Groups
    requires ms != [] ==> ms[0].bw > 0
    ensures ms != [] ==> GroupAll(ms) != []
  {
    if ms == [] then [] else Grouped(GroupAll(ms[..|ms| - 1]), ms[|ms| - 1])
  }

  lemma GroupAllSnoc(ms: seq<Message>, m: Message)
    requires (ms != [] ==> ms[0].bw > 0) && (ms == [] ==> m.bw > 0)
    ensures (ms + [m])[0].bw > 0 && GroupAll(ms + [m]) == Grouped(GroupAll(ms), m)
  {
    assert (ms + [m])[..|ms|] == ms;
  }

  /** Whatever is merged or ignored: if the clock does not go back from message to message, it
      does not from group to group, so that the closed form applies. */
  lemma {:induction false} GroupAllForward(ms: seq<Message>)
    requires (ms != [] ==> ms[0].bw > 0) && forall i, j :: 0 <= i < j < |ms| ==> ms[i].time <= ms[j].time
    ensures var gs := GroupAll(ms); ClockForward(gs) && (gs != [] ==> gs[|gs| - 1].time <= ms[|ms| - 1].time)
  {
    if ms != [] {
      var before := ms[..|ms| - 1];
      GroupAllForward(before);
      if before != [] {
        assert ms[|before| - 1].time <= ms[|ms| - 1].time;
      }
      GroupedForward(GroupAll(before), ms[|ms| - 1]);
    }
  }

  // ----- Groups in terms of messages -----

  /** The messages that have an estimate. */
  function Counted(ms: seq<Message>): Groups {
    if ms == [] then []
    else
      var m := ms[|ms| - 1];
      if m.bw == 0 then Counted(ms[..|ms| - 1]) else Counted(ms[..|ms| - 1]) + [m]
  }

  function TotalSize(ms: seq<Message>): nat {
    if ms == [] then 0 else TotalSize(ms[..|ms| - 1]) + ms[|ms| - 1].size
  }

  function Flatten(runs: seq<seq<Message>>): seq<Message> {
    if runs == [] then [] else Flatten(runs[..|runs| - 1]) + runs[|runs| - 1]
  }

  /** Messages sent back to back for one IROB; those for none stay alone. */
  ghost predicate OneRun(r: seq<Message>) {
    && r != [] && (forall i :: 0 <= i < |r| ==> r[i].irob == r[0].irob && r[i].bw > 0)
    && (|r| > 1 ==> r[0].irob != -1)
  }

  /** The group begins with its first message, has the last one's estimate, and all their bytes. */
  ghost predicate GroupOf(g: Message, r: seq<Message>) {
    r != [] && g == Message(r[0].time, TotalSize(r), r[|r| - 1].bw, r[0].irob)
  }

  /** The groups are the longest such runs. */
  ghost predicate LongestRuns(gs: seq<Message>, runs: seq<seq<Message>>) {
    && |runs| == |gs|
    && (forall k :: 0 <= k < |gs| ==> OneRun(runs[k]) && GroupOf(gs[k], runs[k]))
    && (forall k :: 0 < k < |gs| ==> gs[k - 1].irob != gs[k].irob || gs[k].irob == -1)
  }

  lemma LongerRun(g: Message, r: seq<Message>, m: Message)
    requires OneRun(r) && GroupOf(g, r) && m.bw > 0 && m.irob == g.irob && m.irob != -1
    ensures OneRun(r + [m]) && GroupOf(g.(size := g.size + m.size, bw := m.bw), r + [m])
  {
    assert (r + [m])[..|r|] == r;
  }

  lemma RunAlone(m: Message)
    requires m.bw > 0
    ensures OneRun([m]) && GroupOf(m, [m])
  {
    assert [m][..0] == [];
  }

  lemma AddToLastRun(gs: seq<Message>, runs: seq<seq<Message>>, m: Message)
    requires LongestRuns(gs, runs) && gs != [] && m.bw > 0 && m.irob == gs[|gs| - 1].irob && m.irob != -1
    ensures var last := gs[|gs| - 1];
            var more := runs[..|runs| - 1] + [runs[|runs| - 1] + [m]];
            && LongestRuns(gs[..|gs| - 1] + [last.(size := last.size + m.size, bw := m.bw)], more)
            && Flatten(more) == Flatten(runs) + [m]
  {
    hide OneRun, GroupOf;
    var more := runs[..|runs| - 1] + [runs[|runs| - 1] + [m]];
    assert more[..|more| - 1] == runs[..|runs| - 1];
    var k := |gs| - 1;
    assert OneRun(runs[k]) && GroupOf(gs[k], runs[k]);
    LongerRun(gs[k], runs[k], m);
  }

  lemma AddRun(gs: seq<Message>, runs: seq<seq<Message>>, m: Message)
    requires LongestRuns(gs, runs) && m.bw > 0 && (gs != [] ==> m.irob != gs[|gs| - 1].irob || m.irob == -1)
    ensures LongestRuns(gs + [m], runs + [[m]]) && Flatten(runs + [[m]]) == Flatten(runs) + [m]
  {
    hide OneRun, GroupOf;
    RunAlone(m);
    assert (runs + [[m]])[..|runs|] == runs;
  }

  /** What the groups are: the longest runs of messages for one IROB, those without an estimate left
      out, each with the time of its first message, the estimate of its last, and all its bytes. */
  lemma {:induction false} GroupsAreRuns(ms: seq<Message>) returns (runs: seq<seq<Message>>)
    requires ms != [] ==> ms[0].bw > 0
    ensures Flatten(runs) == Counted(ms) && LongestRuns(GroupAll(ms), runs)
  {
    hide LongestRuns, OneRun, GroupOf;
    if ms == [] {
      runs := [];
      assert LongestRuns([], []) by { NoRuns(); }
    } else {
      var m := ms[|ms| - 1];
      var was := GroupsAreRuns(ms[..|ms| - 1]);
      var gs := GroupAll(ms[..|ms| - 1]);
      SameLength(gs, was);
      if m.bw == 0 {
        runs := was;
      } else if gs != [] && m.irob == gs[|gs| - 1].irob && m.irob != -1 {
        runs := was[..|was| - 1] + [was[|was| - 1] + [m]];
        AddToLastRun(gs, was, m);
      } else {
        runs := was + [[m]];
        AddRun(gs, was, m);
        assert [] + [m] == [m];
      }
    }
  }

  lemma NoRuns()
    ensures LongestRuns([], [])
  {
  }

  lemma SameLength(gs: seq<Message>, runs: seq<seq<Message>>)
    requires LongestRuns(gs, runs)
    ensures |runs| == |gs|
  {
  }

  lemma TotalSnoc(ms: seq<Message>, m: Message)
    ensures TotalSize(ms + [m]) == TotalSize(ms) + m.size
  {
    assert (ms + [m])[..|ms|] == ms;
  }

  lemma GroupedConserves(gs: Groups, m: Message)
    requires m.bw > 0
    ensures TotalSize(Grouped(gs, m)) == TotalSize(gs) + m.size
  {
    hide TotalSize;
    TotalSnoc(gs, m);
    if gs == [] {
      assert gs + [m] == [m];
    } else {
      var first, last := gs[..|gs| - 1], gs[|gs| - 1];
      assert first + [last] == gs;
      TotalSnoc(first, last);
      TotalSnoc(first, last.(size := last.size + m.size, bw := m.bw));
    }
  }

  /** No bytes of a message with an estimate are lost or counted twice. */
  lemma {:induction false} GroupsConserve(ms: seq<Message>)
    requires ms != [] ==> ms[0].bw > 0
    ensures TotalSize(GroupAll(ms)) == TotalSize(Counted(ms))
  {
    hide TotalSize, Grouped;
    if ms != [] {
      var before, m := ms[..|ms| - 1], ms[|ms| - 1];
      GroupsConserve(before);
      if m.bw > 0 {
        GroupedConserves(GroupAll(before), m);
        TotalSnoc(Counted(before), m);
      } else {
        SameGroups(GroupAll(before), m);
      }
    }
  }

  lemma SameGroups(gs: Groups, m: Message)
    requires m.bw == 0 && gs != []
    ensures Grouped(gs, m) == gs
  {
  }

  /** How long it takes to send the messages of the runs from `k` on, up to `n`. */
  ghost function RunsWork(runs: seq<seq<Message>>, k: nat, n: nat): nat
    requires k <= n <= |runs| && forall r :: r in runs ==> OneRun(r)
    decreases n
  {
    if k == n then 0
    else
      var r := runs[n - 1];
      assert r in runs;
      assert OneRun(r);
      RunsWork(runs, k, n - 1) + TimeToSend(TotalSize(r), r[|r| - 1].bw)
  }

  lemma {:induction false} WorkOfRuns(gs: Groups, runs: seq<seq<Message>>, k: nat, n: nat)
    requires LongestRuns(gs, runs) && k <= n < |gs|
    ensures (forall r :: r in runs ==> OneRun(r)) && RunsWork(runs, k, n) == Work(gs, k, n)
    decreases n
  {
    hide OneRun, TimeToSend;
    if k < n {
      WorkOfRuns(gs, runs, k, n - 1);
      assert GroupOf(gs[n - 1], runs[n - 1]) && gs[n - 1] in gs;
    }
  }

  /** The delay of the `n`-th run in terms of the messages themselves, for a clock that does not go
      back: the greatest, over the runs before it, of the time it takes to send all messages since,
      minus the time elapsed since. */
  lemma DelayOverMessages(ms: seq<Message>, n: nat) returns (runs: seq<seq<Message>>)
    requires (ms != [] ==> ms[0].bw > 0) && forall i, j :: 0 <= i < j < |ms| ==> ms[i].time <= ms[j].time
    requires n < |GroupAll(ms)|
    ensures Flatten(runs) == Counted(ms) && LongestRuns(GroupAll(ms), runs)
    ensures n < |runs| && forall r :: r in runs ==> OneRun(r)
    ensures forall k: nat :: k <= n ==> RunsWork(runs, k, n) - (runs[n][0].time - runs[k][0].time) <= Delay(GroupAll(ms), n)
    ensures exists k: nat :: k <= n && RunsWork(runs, k, n) - (runs[n][0].time - runs[k][0].time) == Delay(GroupAll(ms), n)
  {
    var gs := GroupAll(ms);
    runs := GroupsAreRuns(ms);
    GroupAllForward(ms);
    DelayClosedForm(gs, n);
    hide Delay, Work, RunsWork, GroupAll, Flatten, Counted;
    WorkOfRuns(gs, runs, n, n);
    assert GroupOf(gs[n], runs[n]);
    forall k: nat | k <= n
      ensures RunsWork(runs, k, n) - (runs[n][0].time - runs[k][0].time) == Work(gs, k, n) - (gs[n].time - gs[k].time)
    {
      WorkOfRuns(gs, runs, k, n);
      assert GroupOf(gs[k], runs[k]);
    }
    var k: nat :| k <= n && Work(gs, k, n) - (gs[n].time - gs[k].time) == Delay(gs, n);
    assert RunsWork(runs, k, n) - (runs[n][0].time - runs[k][0].time) == Delay(gs, n);
  }

  /** If the clock has jumped back, a new group waits for all that was queued. */
  lemma JumpBack(gs: Groups, m: Message)
    requires gs != [] && m.bw > 0 && m.time <= gs[|gs| - 1].time
    ensures Delay(gs + [m], |gs|) == Delay(gs, |gs| - 1) + SendTime(gs, |gs| - 1)
  {
    NewGroupDelay(gs, m);
  }

  lemma NoDelayFirst(gs: Groups)
    ensures gs != [] ==> Delay(gs, 0) == 0
  {
  }

  /** A message that adds to the last group leaves its delay as it was. */
  lemma SameGroupDelay(gs: Groups, m: Message)
    requires gs != [] && m.bw > 0 && m.irob == gs[|gs| - 1].irob && m.irob != -1
    ensures |Grouped(gs, m)| == |gs| && Delay(Grouped(gs, m), |gs| - 1) == Delay(gs, |gs| - 1)
  {
    DelayLocal(Grouped(gs, m), gs, |gs| - 1);
  }

  lemma ApartFromLast(ms: seq<Message>, m: Message)
    requires ms != [] && ms[0].bw > 0 && m.bw > 0
    ensures var gs := GroupAll(ms);
            m.irob != gs[|gs| - 1].irob || m.irob == -1 ==>
              (ms + [m])[0].bw > 0 && GroupAll(ms + [m]) == gs + [m]
  {
    GroupAllSnoc(ms, m);
  }

  lemma NewGroupDelay(gs: Groups, m: Message)
    requires gs != [] && m.bw > 0
    ensures var n := |gs| - 1;
            assert gs[n] in gs;
            var queued := Delay(gs, n) + TimeToSend(gs[n].size, gs[n].bw);
            var gap := if gs[n].time < m.time then m.time - gs[n].time else 0;
            Delay(gs + [m], n + 1) == if queued > gap then queued - gap else 0
  {
    var n := |gs| - 1;
    var hs: Groups := gs + [m];
    assert hs[n] == gs[n] && hs[..n] == gs[..n];
    DelayLocal(hs, gs, n);
  }

  /** When the queue will be empty again. */
  function DrainTime(gs: Groups): int
    requires gs != []
  {
    var n := |gs| - 1;
    gs[n].time + Delay(gs, n) + SendTime(gs, n)
  }

  /** A later group waits exactly until the queue before it has drained. */
  lemma WaitsForDrain(gs: Groups, m: Message)
    requires gs != [] && m.bw > 0 && gs[|gs| - 1].time <= m.time
    ensures var left := DrainTime(gs) - m.time;
            Delay(gs + [m], |gs|) == if left > 0 then left else 0
  {
    var n := |gs| - 1;
    var hs: Groups := gs + [m];
    assert hs[n] == gs[n] && hs[..n] == gs[..n];
    DelayLocal(hs, gs, n);
  }

  // ----- The code -----

  class QueuingDelay {
    var lastTime: Timeval
    var lastQdelay: Timeval
    var lastSize: nat
    var lastBw: nat
    var lastIrob: int

    ghost var messages: seq<Message>
    ghost var groups: Groups

    ghost predicate Valid()
      reads this
    {
      && Normal(lastTime) && Normal(lastQdelay)
      && (messages != [] ==> messages[0].bw > 0) && groups == GroupAll(messages) && (groups == [] <==> messages == [])
      && (lastQdelay.sec == -1 <==> groups == [])
      && (groups == [] ==> lastQdelay.usec == 0 && lastIrob == -1)
      && (groups != [] ==>
            var n := |groups| - 1;
            && groups[n] == Message(Micros(lastTime), lastSize, lastBw, lastIrob) && lastBw > 0
            && Micros(lastQdelay) == Delay(groups, n))
    }

    constructor ()
      ensures Valid() && messages == []
    {
      lastTime := Timeval(0, 0);
      lastQdelay := Timeval(-1, 0);
      lastSize, lastBw, lastIrob := 0, 0, -1;
      messages, groups := [], [];
    }

    /** Returns the delay of a message that starts a group, and no delay for any other. */
    method AddMessage(now: Timeval, size: nat, bw: nat, irob: int) returns (qdelay: Timeval)
      requires Valid() && Normal(now) && (messages == [] ==> bw > 0)
      modifies this
      ensures Valid() && Normal(qdelay)
      ensures messages == old(messages) + [Message(Micros(now), size, bw, irob)] && groups == GroupAll(messages)
      ensures Micros(qdelay) == if |groups| == |old(groups)| then 0 else Delay(groups, |groups| - 1)
    {
      hide Delay, TimeToSend, SendTime, GroupAll;
      ghost var m := Message(Micros(now), size, bw, irob);
      GroupAllSnoc(messages, m);
      ghost var sent := messages + [m];
      if lastQdelay.sec == -1 {
        messages := sent;
        lastTime := now;
        lastQdelay := Timeval(0, lastQdelay.usec);
        lastSize, lastBw, lastIrob := size, bw, irob;
        groups := [m];
        NoDelayFirst(groups);
        return lastQdelay;
      }
      if bw == 0 {
        messages := sent;
        return Timeval(0, 0);
      }
      if irob == lastIrob && irob != -1 {
        ghost var was := groups;
        messages := sent;
        groups := Grouped(was, m);
        SameGroupDelay(was, m);
        lastSize := lastSize + size;
        lastBw := bw;
        return Timeval(0, 0);
      }
      qdelay := StartGroup(now, size, bw, irob);
    }

    /** What is queued after the last group, less the time since it began. */
    method Waiting(now: Timeval) returns (left: Timeval)
      requires Normal(now) && Normal(lastTime) && Normal(lastQdelay) && lastQdelay.sec >= 0 && lastBw > 0
      ensures Normal(left)
      ensures var queued := Micros(lastQdelay) + TimeToSend(lastSize, lastBw);
              var gap := if Micros(lastTime) < Micros(now) then Micros(now) - Micros(lastTime) else 0;
              Micros(left) == if queued > gap then queued - gap else 0
    {
      hide TimeToSend;
      var prevBwTime := ConvertToTimeval(TimeToSend(lastSize, lastBw));
      var queued := TimerAdd(lastQdelay, prevBwTime);
      var diff := Timeval(0, 0);
      EarlierIs(lastTime, now);
      if Earlier(lastTime, now) {
        diff := TimeDiff(lastTime, now);
      }
      EarlierIs(diff, queued);
      if Earlier(diff, queued) {
        left := TimerSub(queued, diff);
      } else {
        left := Timeval(0, 0);
      }
    }

    /** A message of another IROB starts a group. */
    method StartGroup(now: Timeval, size: nat, bw: nat, irob: int) returns (qdelay: Timeval)
      requires Valid() && Normal(now) && groups != [] && bw > 0 && (irob != lastIrob || irob == -1)
      modifies this
      ensures Valid() && Normal(qdelay) && groups == old(groups) + [Message(Micros(now), size, bw, irob)]
      ensures messages == old(messages) + [Message(Micros(now), size, bw, irob)]
      ensures Micros(qdelay) == Delay(groups, |groups| - 1)
    {
      hide Delay, TimeToSend, SendTime, GroupAll, Grouped;
      ghost var m := Message(Micros(now), size, bw, irob);
      ApartFromLast(messages, m);
      NewGroupDelay(groups, m);
      lastQdelay := Waiting(now);
      groups := groups + [m];
      messages := messages + [m];
      lastTime := now;
      lastSize, lastIrob, lastBw := size, irob, bw;
      return lastQdelay;
    }

    /** The earliest time at which a message could follow the last one. */
    method GetQueuableTime(irob: int) returns (t: Timeval)
      requires Valid() && (irob == lastIrob ==> groups != [])
      ensures Normal(t) && Micros(t) == if irob != lastIrob then 0 else DrainTime(groups)
    {
      if irob != lastIrob {
        return Timeval(0, 0);
      }
      t := TimerAdd(lastTime, lastQdelay);
      var bwTime := ConvertToTimeval(TimeToSend(lastSize, lastBw));
      t := TimerAdd(t, bwTime);
    }
  }
}
