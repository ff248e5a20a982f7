/** The order in which the other end gets what was sent: dependencies inferred by the sender,
    carried by the messages and enforced by the receiver. */
module Ordering {
  import opened Sequences
  import D = Dominators
  import S = SenderIrob
  import R = Receiver
  import V = Delivery
  import opened Protocol

  ghost predicate Before(ids: seq<int>, a: int, b: int) {
    exists i, j :: 0 <= i < j < |ids| && ids[i] == a && ids[j] == b
  }

  /** What the receiver is told of dependencies is what the sender announced. */
  ghost predicate SameDeps(h: R.Sends, deps: map<int, set<int>>) {
    forall k :: k in h ==> k in deps && h[k].deps == deps[k]
  }

  lemma {:induction false} PathDelivered(h: R.Sends, deps: map<int, set<int>>, ids: seq<int>, p: seq<int>, j: nat)
    returns (i: nat)
    requires V.InDependencyOrder(h, ids) && SameDeps(h, deps) && D.DepPath(deps, p)
    requires j < |ids| && ids[j] == p[0]
    ensures i <= j && ids[i] == p[|p| - 1]
    decreases |p|
  {
    i := j;
    if |p| > 1 {
      var tail := p[1..];
      forall x | 0 <= x < |tail| - 1
        ensures tail[x + 1] in deps[tail[x]]
      {
        assert p[x + 1 + 1] in deps[p[x + 1]];
      }
      assert D.DepPath(deps, tail);
      assert p[1] in Elements(ids[..j]);
      var x :| 0 <= x < j && ids[..j][x] == p[1];
      i := PathDelivered(h, deps, ids, tail, x);
    }
  }

  /** Nothing is delivered before what it depends on, directly or through others. */
  lemma DependencyDelivered(h: R.Sends, deps: map<int, set<int>>, ids: seq<int>, a: int, b: int)
    requires V.InDependencyOrder(h, ids) && SameDeps(h, deps) && D.DependsOn(deps, b, a) && a != b
    ensures b in ids ==> Before(ids, a, b)
  {
    if b in ids {
      var j :| 0 <= j < |ids| && ids[j] == b;
      var p :| D.DepPath(deps, p) && p[0] == b && p[|p| - 1] == a;
      var i := PathDelivered(h, deps, ids, p, j);
      assert i != j;
    }
  }

  /** Nor is any byte of an IROB read before all it depends on has been delivered. */
  lemma ReadAfterDependency(h: R.Sends, deps: map<int, set<int>>, ids: seq<int>, a: int, b: int)
    requires V.InDependencyOrder(h, ids) && SameDeps(h, deps) && D.DependsOn(deps, b, a) && a != b
    requires b in h && h[b].deps <= Elements(ids)
    ensures a in ids
  {
    var p :| D.DepPath(deps, p) && p[0] == b && p[|p| - 1] == a;
    var tail := p[1..];
    forall x | 0 <= x < |tail| - 1
      ensures tail[x + 1] in deps[tail[x]]
    {
      assert p[x + 1 + 1] in deps[p[x + 1]];
    }
    assert p[1] in deps[p[0]] && D.DepPath(deps, tail);
    var j :| 0 <= j < |ids| && ids[j] == p[1];
    var i := PathDelivered(h, deps, ids, tail, j);
  }

  lemma SentInOrder(net: Net)
    requires Fair(net)
    ensures SameIds(net) && SameDeps(History(net), net.track.deps)
    ensures NoDuplicates(net.track.order) && forall k :: k in net.track.order <==> k in net.track.deps
    ensures D.AnonymousOrdered(net.track)
  {
    hide BagFair, ReceiverOk, IrobOk, D.Dominating, D.Undominated, D.AnonymousOrdered;
  }

  lemma GotInOrder(net: Net)
    requires Fair(net) && SameIds(net)
    ensures var w, h := net.world, History(net);
            && V.InDependencyOrder(h, w.delivered) && NoDuplicates(w.delivered)
            && (w.s.reading.Some? ==> w.s.reading.value in h && w.s.reading.value in w.s.bodies
                                      && h[w.s.reading.value].deps <= Elements(w.delivered)
                                      && w.s.reading.value !in w.delivered)
  {
    hide BagFair, IrobOk, D.Sound, R.NonEmptySends, R.InvBut, V.InDependencyOrder, V.PartialPrefix, V.Contents;
    var w, h := net.world, History(net);
    FairReads(net);
    if w.s.reading.Some? {
      V.ReadPrefix(w, h, w.s.reading.value);
    }
  }

  /** Over every run: of two IROBs of which at least one is anonymous, the one sent later is
      delivered - even in part - only after the whole of the other. */
  lemma AnonymousInOrder(acts: seq<Action>, rule: Rule, i: nat, j: nat)
    ensures var net := Run(acts, rule);
            var order, w := net.track.order, net.world;
            i < j < |order| && (order[i] in net.track.anon || order[j] in net.track.anon) ==>
              && (order[j] in w.delivered ==> Before(w.delivered, order[i], order[j]))
              && (w.s.reading == Some(order[j]) ==> order[i] in w.delivered)
  {
    RunFair(acts, rule);
    var net := Run(acts, rule);
    hide Run, Fair, V.InDependencyOrder, Elements;
    SentInOrder(net);
    GotInOrder(net);
    var order, w := net.track.order, net.world;
    if i < j < |order| && (order[i] in net.track.anon || order[j] in net.track.anon) {
      DependencyDelivered(History(net), net.track.deps, w.delivered, order[i], order[j]);
      if w.s.reading == Some(order[j]) {
        ReadAfterDependency(History(net), net.track.deps, w.delivered, order[i], order[j]);
      }
    }
  }

  /** The same for the dependencies the application names. */
  lemma DependentsInOrder(acts: seq<Action>, rule: Rule, a: int, b: int)
    ensures var net := Run(acts, rule);
            D.DependsOn(net.track.deps, b, a) && a != b ==>
              && (b in net.world.delivered ==> Before(net.world.delivered, a, b))
              && (net.world.s.reading == Some(b) ==> a in net.world.delivered)
  {
    RunFair(acts, rule);
    var net := Run(acts, rule);
    hide Run, Fair, D.DependsOn, V.InDependencyOrder, Elements;
    SentInOrder(net);
    GotInOrder(net);
    if D.DependsOn(net.track.deps, b, a) && a != b {
      DependencyDelivered(History(net), net.track.deps, net.world.delivered, a, b);
      if net.world.s.reading == Some(b) {
        ReadAfterDependency(History(net), net.track.deps, net.world.delivered, a, b);
      }
    }
  }

  // ----- One bytestream -----

  /** `ids` holds, of any two in `order`, the earlier one first. */
  ghost predicate Follows(ids: seq<int>, order: seq<int>) {
    && NoDuplicates(ids) && NoDuplicates(order) && (forall k :: k in ids ==> k in order)
    && forall i, j :: 0 <= i < j < |order| && order[j] in ids ==> Before(ids, order[i], order[j])
  }

  lemma {:induction false} FollowsIsPrefix(ids: seq<int>, order: seq<int>, n: nat)
    requires Follows(ids, order) && n <= |ids|
    ensures n <= |order| && ids[..n] == order[..n]
  {
    if n > 0 {
      FollowsIsPrefix(ids, order, n - 1);
      assert ids[n - 1] in ids;
      var j :| 0 <= j < |order| && order[j] == ids[n - 1];
      SamePlace(ids, order, n - 1, j);
      assert ids[..n] == ids[..n - 1] + [ids[n - 1]];
    }
  }

  lemma InPrefix(s: seq<int>, n: nat, j: nat)
    requires NoDuplicates(s) && n <= |s| && j < |s|
    ensures s[j] in s[..n] <==> j < n
  {
    if j < n {
      assert s[..n][j] == s[j];
    }
  }

  lemma BeforeInPrefix(ids: seq<int>, a: int, y: nat)
    requires NoDuplicates(ids) && y < |ids| && Before(ids, a, ids[y])
    ensures a in ids[..y]
  {
    var i, j :| 0 <= i < j < |ids| && ids[i] == a && ids[j] == ids[y];
    assert ids[..y][i] == a;
  }

  lemma SamePlace(ids: seq<int>, order: seq<int>, n: nat, j: nat)
    requires Follows(ids, order) && n < |ids| && n <= |order| && ids[..n] == order[..n]
    requires j < |order| && order[j] == ids[n]
    ensures j == n
  {
    InPrefix(ids, n, n);
    InPrefix(order, n, j);
    if n < |order| {
      InPrefix(order, n, n);
      forall a | Before(ids, a, ids[n])
        ensures a in ids[..n]
      {
        BeforeInPrefix(ids, a, n);
      }
    }
  }

  /** What the application wrote into the given IROBs. */
  function Stream(irobs: map<int, Outgoing>, ids: seq<int>): seq<byte>
    requires forall k :: k in ids ==> k in irobs
  {
    if ids == [] then []
    else
      var k := ids[|ids| - 1];
      assert k in ids;
      Stream(irobs, ids[..|ids| - 1]) + S.Bytes(irobs[k].st)
  }

  lemma {:induction false} StreamGrows(irobs: map<int, Outgoing>, ids: seq<int>, n: nat)
    requires (forall k :: k in ids ==> k in irobs) && n <= |ids|
    ensures Stream(irobs, ids[..n]) <= Stream(irobs, ids)
    decreases |ids| - n
  {
    if n < |ids| {
      assert ids[..n + 1][..n] == ids[..n];
      StreamGrows(irobs, ids, n + 1);
    } else {
      assert ids[..n] == ids;
    }
  }

  lemma ContentIsBytes(net: Net, k: int)
    requires SameIds(net) && k in net.irobs && S.Valid(net.irobs[k].st)
    ensures R.Content(History(net), k) <= S.Bytes(net.irobs[k].st)
    ensures History(net)[k].closed ==> R.Content(History(net), k) == S.Bytes(net.irobs[k].st)
  {
    S.PiecesPartition(net.irobs[k].st);
    hide S.Valid, S.Bytes, S.Pieces, S.SentBytes, S.AllBytesChunked;
  }

  lemma {:induction false} ContentsAreStream(net: Net, ids: seq<int>)
    requires SameIds(net) && forall k :: k in ids ==> k in net.irobs && S.Valid(net.irobs[k].st) && Closed(net.irobs[k].st)
    ensures V.Contents(History(net), ids) == Stream(net.irobs, ids)
  {
    hide S.Valid, S.Bytes, S.Pieces, Closed;
    if ids != [] {
      ContentsAreStream(net, ids[..|ids| - 1]);
      ContentIsBytes(net, ids[|ids| - 1]);
    }
  }

  /** End to end, over every run: the other application has what was written into finished IROBs,
      each once and whole, one after another, and then at most a first part of one more. */
  lemma EndToEnd(acts: seq<Action>, rule: Rule) returns (part: seq<byte>)
    ensures var net := Run(acts, rule);
            var w := net.world;
            && NoDuplicates(w.delivered)
            && (forall k :: k in w.delivered ==> k in net.irobs && net.irobs[k].st.complete)
            && w.output == Stream(net.irobs, w.delivered) + part
            && if w.s.reading.Some? then w.s.reading.value !in w.delivered && w.s.reading.value in net.irobs
                                         && part <= S.Bytes(net.irobs[w.s.reading.value].st)
               else part == []
  {
    RunFair(acts, rule);
    hide Run, Fair, S.Bytes, S.Valid, S.AllBytesChunked, V.Contents, V.PartialPrefix, Stream;
    var net := Run(acts, rule);
    SentInOrder(net);
    GotInOrder(net);
    StreamFacts(net);
    ContentsAreStream(net, net.world.delivered);
    part := if net.world.s.reading.Some? then V.PartialPrefix(net.world, History(net)) else [];
  }

  /** Over every run in which only anonymous IROBs are sent: what the other application has is
      one prefix of all that was written, in the order it was sent. */
  lemma OneStream(acts: seq<Action>, rule: Rule)
    requires var net := Run(acts, rule); forall k :: k in net.track.order ==> k in net.track.anon
    ensures var net := Run(acts, rule);
            && (forall k :: k in net.track.order ==> k in net.irobs)
            && net.world.delivered <= net.track.order
            && net.world.output <= Stream(net.irobs, net.track.order)
  {
    RunFair(acts, rule);
    hide Run, Fair, Before, History;
    var net := Run(acts, rule);
    SentInOrder(net);
    var order, w := net.track.order, net.world;
    forall i, j | 0 <= i < j < |order| && order[j] in w.delivered
      ensures Before(w.delivered, order[i], order[j])
    {
      AnonymousInOrder(acts, rule, i, j);
    }
    forall i, j | 0 <= i < j < |order|
      ensures w.s.reading == Some(order[j]) ==> order[i] in w.delivered
    {
      var k := order[j];
      assert k in order;
      AnonymousInOrder(acts, rule, i, j);
    }
    hide Run;
    StreamPrefix(net);
  }

  /** What was delivered is where the order begins, and what is being read comes next. */
  lemma DeliveredPrefix(delivered: seq<int>, order: seq<int>, reading: Option<int>)
    requires NoDuplicates(delivered) && NoDuplicates(order) && forall k :: k in delivered ==> k in order
    requires forall i, j :: 0 <= i < j < |order| && order[j] in delivered ==> Before(delivered, order[i], order[j])
    requires reading.Some? ==> reading.value in order && reading.value !in delivered
    requires forall i, j :: 0 <= i < j < |order| && reading == Some(order[j]) ==> order[i] in delivered
    ensures |delivered| <= |order| && delivered == order[..|delivered|]
    ensures reading.Some? ==> |delivered| < |order| && order[|delivered|] == reading.value
  {
    FollowsIsPrefix(delivered, order, |delivered|);
    assert delivered[..|delivered|] == delivered;
    hide Before;
    if reading.Some? {
      NextIsRead(order, |delivered|, reading.value);
    }
  }

  lemma StreamPrefix(net: Net)
    requires Fair(net)
    requires var order, w := net.track.order, net.world;
             && (forall i, j :: 0 <= i < j < |order| && order[j] in w.delivered ==> Before(w.delivered, order[i], order[j]))
             && (forall i, j :: 0 <= i < j < |order| && w.s.reading == Some(order[j]) ==> order[i] in w.delivered)
    ensures && (forall k :: k in net.track.order ==> k in net.irobs)
            && net.world.delivered <= net.track.order
            && net.world.output <= Stream(net.irobs, net.track.order)
  {
    hide Fair, Before, S.Bytes, S.Valid, V.Contents, V.PartialPrefix, SameDeps, V.InDependencyOrder, D.AnonymousOrdered,
         Elements, History, Closed, Stream, NoDuplicates;
    SentInOrder(net);
    GotInOrder(net);
    StreamFacts(net);
    var order, w := net.track.order, net.world;
    DeliveredPrefix(w.delivered, order, w.s.reading);
    OutputPrefix(net, |w.delivered|);
  }

  lemma OutputPrefix(net: Net, n: nat)
    requires Fair(net)
    requires n <= |net.track.order| && net.world.delivered == net.track.order[..n]
    requires net.world.s.reading.Some? ==> n < |net.track.order| && net.track.order[n] == net.world.s.reading.value
    ensures (forall k :: k in net.track.order ==> k in net.irobs) && net.world.output <= Stream(net.irobs, net.track.order)
  {
    hide Fair, S.Bytes, S.Valid, S.Pieces, V.Contents, V.PartialPrefix, Closed, Stream;
    StreamFacts(net);
    var order, w := net.track.order, net.world;
    ContentsAreStream(net, w.delivered);
    StreamGrows(net.irobs, order, n);
    if w.s.reading.Some? {
      StreamSnoc(net.irobs, order, n);
      PrefixPlus(V.Contents(History(net), w.delivered), V.PartialPrefix(w, History(net)),
                 S.Bytes(net.irobs[order[n]].st), Stream(net.irobs, order));
    }
  }

  lemma StreamSnoc(irobs: map<int, Outgoing>, ids: seq<int>, n: nat)
    requires (forall k :: k in ids ==> k in irobs) && n < |ids|
    ensures ids[n] in irobs && Stream(irobs, ids[..n]) + S.Bytes(irobs[ids[n]].st) <= Stream(irobs, ids)
  {
    assert ids[..n + 1][..n] == ids[..n];
    StreamGrows(irobs, ids, n + 1);
  }

  lemma PrefixPlus(a: seq<byte>, p: seq<byte>, b: seq<byte>, all: seq<byte>)
    requires p <= b && a + b <= all
    ensures a + p <= all
  {
  }

  /** The IROB being read is the first not yet delivered. */
  lemma NextIsRead(order: seq<int>, n: nat, r: int)
    requires n <= |order| && r in order && r !in order[..n]
    requires forall i, j :: 0 <= i < j < |order| && order[j] == r ==> order[i] in order[..n]
    requires NoDuplicates(order)
    ensures n < |order| && order[n] == r
  {
    var j :| 0 <= j < |order| && order[j] == r;
    InPrefix(order, n, j);
    if n < |order| {
      InPrefix(order, n, n);
    }
  }

  lemma StreamFacts(net: Net)
    requires Fair(net)
    ensures SameIds(net) && (forall k :: k in net.track.order <==> k in net.irobs)
    ensures var w, h := net.world, History(net);
            && (forall k :: k in w.delivered ==> k in net.irobs && S.Valid(net.irobs[k].st) && Closed(net.irobs[k].st))
            && (w.s.reading.Some? ==> var k := w.s.reading.value;
                                      k in net.irobs && k in w.s.bodies && V.PartialPrefix(w, h) <= S.Bytes(net.irobs[k].st))
            && w.output == V.Contents(h, w.delivered) + (if w.s.reading.Some? then V.PartialPrefix(w, h) else [])
  {
    hide BagFair, D.Dominating, D.Undominated, S.Valid, S.Bytes, S.Pieces, S.AllBytesChunked;
    var w, h := net.world, History(net);
    forall k | k in net.irobs
      ensures S.Valid(net.irobs[k].st)
    {
      assert IrobOk(net.irobs[k]);
    }
    if w.s.reading.Some? {
      ContentIsBytes(net, w.s.reading.value);
    }
  }
}
