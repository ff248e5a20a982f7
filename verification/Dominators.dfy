/** What the sender's inferred dependencies promise: the dominator set stands for
    everything inserted so far, and anonymous IROBs are totally ordered with all others. */
module Dominators {
  import opened Sequences
  import opened Lattice

  /** The sender's lattice with its history: ids in insertion order, the deps each one
      was announced with, and which of them are anonymous. */
  datatype Track = Track(lattice: State, order: seq<int>, deps: map<int, set<int>>, anon: set<int>)

  function NewTrack(): Track {
    Track(Empty(), [], map[], {})
  }

  /** A send operation names only IROBs already inserted. */
  predicate Acceptable(t: Track, r: Irob) {
    && r.id >= 0 && r.id !in t.order
    && !r.placeholder && r.dependents == {}
    && forall d :: d in r.deps ==> d in t.order
  }

  function Announced(t: Track, r: Irob): set<int> {
    CorrectDeps(t.lattice.past, t.lattice.dominators, t.lattice.lastAnon, r, true).deps
  }

  function Begin(t: Track, r: Irob): Track {
    Track(Inserted(t.lattice, r, true), t.order + [r.id], t.deps[r.id := Announced(t, r)],
          if r.anonymous then t.anon + {r.id} else t.anon)
  }

  function Retire(t: Track, id: int): Track {
    t.(lattice := Erased(t.lattice, id, false))
  }

  ghost function Abandon(t: Track, id: int): Track {
    t.(lattice := Dropped(t.lattice, Closure(t.lattice.live, id)))
  }

  /** What an IROB is announced to depend on: what it names, and besides, if it is anonymous, the
      dominators, or the last anonymous IROB when there are none; if it is named, the last anonymous
      one, unless one of those it names is a dominator and so depends on that already. */
  lemma AnnouncedExactly(t: Track, r: Irob)
    ensures var s := t.lattice;
            var beside := if r.anonymous then (if s.dominators == {} && s.lastAnon >= 0 then {s.lastAnon} else s.dominators)
                          else if s.lastAnon >= 0 && r.deps !! s.dominators then {s.lastAnon} else {};
            Announced(t, r) == r.deps + beside
  {
  }

  // ----- Reachability through announced deps -----

  ghost predicate DepPath(deps: map<int, set<int>>, p: seq<int>) {
    && |p| > 0
    && (forall i :: 0 <= i < |p| ==> p[i] in deps)
    && (forall i :: 0 <= i < |p| - 1 ==> p[i + 1] in deps[p[i]])
  }

  /** `a` is `b` or depends on it, directly or through others. */
  ghost predicate DependsOn(deps: map<int, set<int>>, a: int, b: int) {
    exists p :: DepPath(deps, p) && p[0] == a && p[|p| - 1] == b
  }

  lemma DependsOnSelf(deps: map<int, set<int>>, a: int)
    requires a in deps
    ensures DependsOn(deps, a, a)
  {
    assert DepPath(deps, [a]) && [a][0] == a && [a][|[a]| - 1] == a;
  }

  lemma DependsOnStep(deps: map<int, set<int>>, a: int, b: int, c: int)
    requires a in deps && b in deps[a] && DependsOn(deps, b, c)
    ensures DependsOn(deps, a, c)
  {
    var p :| DepPath(deps, p) && p[0] == b && p[|p| - 1] == c;
    var q := [a] + p;
    assert forall i :: 0 <= i < |q| - 1 ==> q[i + 1] in deps[q[i]];
    assert DepPath(deps, q) && q[0] == a && q[|q| - 1] == c;
  }

  lemma DependsOnTrans(deps: map<int, set<int>>, a: int, b: int, c: int)
    requires DependsOn(deps, a, b) && DependsOn(deps, b, c)
    ensures DependsOn(deps, a, c)
  {
    var p :| DepPath(deps, p) && p[0] == a && p[|p| - 1] == b;
    PathTrans(deps, p, c);
  }

  lemma {:induction false} PathTrans(deps: map<int, set<int>>, p: seq<int>, c: int)
    requires DepPath(deps, p) && DependsOn(deps, p[|p| - 1], c)
    ensures DependsOn(deps, p[0], c)
  {
    if |p| > 1 {
      var tail := p[1..];
      forall i | 0 <= i < |tail| - 1
        ensures tail[i + 1] in deps[tail[i]]
      {
        assert p[i + 1 + 1] in deps[p[i + 1]];
      }
      assert DepPath(deps, tail);
      PathTrans(deps, tail, c);
      assert p[1] in deps[p[0]];
      DependsOnStep(deps, p[0], p[1], c);
    }
  }

  lemma DependsOnGrows(deps: map<int, set<int>>, id: int, ds: set<int>, a: int, b: int)
    requires id !in deps && DependsOn(deps, a, b)
    ensures DependsOn(deps[id := ds], a, b)
  {
    var p :| DepPath(deps, p) && p[0] == a && p[|p| - 1] == b;
    assert DepPath(deps[id := ds], p);
  }

  // ----- The invariant -----

  /** No placeholders at the sender: everything inserted is live as announced, or past. */
  ghost predicate LiveAsAnnounced(t: Track) {
    && Linked(t.lattice)
    && (forall k :: k in t.deps <==> k in t.lattice.live || k in t.lattice.past)
    && (forall k :: k in t.lattice.live ==> !t.lattice.live[k].placeholder && t.lattice.live[k].deps == t.deps[k])
    && (forall k :: k in t.lattice.live ==> (t.lattice.live[k].anonymous <==> k in t.anon))
  }

  /** Deps point backwards in insertion order. */
  ghost predicate Backward(t: Track) {
    && NoDuplicates(t.order)
    && (forall k :: k in t.order <==> k in t.deps)
    && (forall i, d :: 0 <= i < |t.order| && d in t.deps[t.order[i]] ==> d in t.order[..i])
  }

  ghost predicate LastAnonymousKnown(t: Track) {
    && (forall k :: k in t.deps ==> k >= 0)
    && (forall k :: k in t.anon ==> k in t.deps)
    && (t.lattice.lastAnon >= 0 ==> t.lattice.lastAnon in t.anon)
    && (t.lattice.lastAnon < 0 ==> t.anon == {})
  }

  ghost predicate WellKept(t: Track) {
    LiveAsAnnounced(t) && Backward(t) && LastAnonymousKnown(t)
  }

  /** A named IROB nothing depends on directly. */
  ghost predicate Exposed(deps: map<int, set<int>>, anon: set<int>, k: int) {
    k in deps && k !in anon && forall j :: j in deps ==> k !in deps[j]
  }

  /** The dominators are exactly the named IROBs nothing depends on directly. */
  ghost predicate Undominated(t: Track) {
    forall k :: k in t.lattice.dominators <==> Exposed(t.deps, t.anon, k)
  }

  ghost predicate CoveredBy(deps: map<int, set<int>>, dominators: set<int>, last: int, k: int) {
    || (last >= 0 && DependsOn(deps, last, k))
    || exists m :: m in dominators && DependsOn(deps, m, k)
  }

  ghost predicate Covered(t: Track, k: int) {
    CoveredBy(t.deps, t.lattice.dominators, t.lattice.lastAnon, k)
  }

  /** Depending on the dominators (or, when there are none, on the last anonymous IROB)
      means depending on everything so far. */
  ghost predicate Dominating(t: Track) {
    && (forall k :: k in t.deps ==> Covered(t, k))
    && (t.lattice.lastAnon >= 0 ==>
          forall m :: m in t.lattice.dominators ==> DependsOn(t.deps, m, t.lattice.lastAnon))
    && (forall a :: a in t.anon ==> DependsOn(t.deps, t.lattice.lastAnon, a))
  }

  /** Of two IROBs at least one of which is anonymous, the later depends on the earlier. */
  ghost predicate AnonymousOrdered(t: Track) {
    forall i, j :: 0 <= i < j < |t.order| && (t.order[i] in t.anon || t.order[j] in t.anon) ==>
      DependsOn(t.deps, t.order[j], t.order[i])
  }

  ghost predicate Sound(t: Track) {
    WellKept(t) && Undominated(t) && Dominating(t) && AnonymousOrdered(t)
  }

  lemma NewTrackSound()
    ensures Sound(NewTrack())
  {
  }

  /** A new anonymous IROB depends on every IROB before it. */
  lemma AnonymousDependsOnAll(t: Track, r: Irob, k: int)
    requires Sound(t) && Acceptable(t, r) && r.anonymous && k in t.deps
    ensures DependsOn(Begin(t, r).deps, r.id, k)
  {
    var deps := Begin(t, r).deps;
    var last := t.lattice.lastAnon;
    if last >= 0 && DependsOn(t.deps, last, k) {
      DependsOnGrows(t.deps, r.id, Announced(t, r), last, k);
      if t.lattice.dominators == {} {
        DependsOnStep(deps, r.id, last, k);
      } else {
        SomeMember(t.lattice.dominators);
        var m: int :| m in t.lattice.dominators;
        DependsOnGrows(t.deps, r.id, Announced(t, r), m, last);
        DependsOnStep(deps, r.id, m, last);
        DependsOnTrans(deps, r.id, last, k);
      }
    } else {
      var m :| m in t.lattice.dominators && DependsOn(t.deps, m, k);
      DependsOnGrows(t.deps, r.id, Announced(t, r), m, k);
      DependsOnStep(deps, r.id, m, k);
    }
  }

  /** Any new IROB depends on the last anonymous one. */
  lemma NamedDependsOnLastAnonymous(t: Track, r: Irob)
    requires Sound(t) && Acceptable(t, r) && !r.anonymous && t.lattice.lastAnon >= 0
    ensures DependsOn(Begin(t, r).deps, r.id, t.lattice.lastAnon)
  {
    var deps := Begin(t, r).deps;
    var last := t.lattice.lastAnon;
    var isect := r.deps * t.lattice.dominators;
    if isect == {} {
      DependsOnSelf(t.deps, last);
      DependsOnGrows(t.deps, r.id, Announced(t, r), last, last);
      DependsOnStep(deps, r.id, last, last);
    } else {
      SomeMember(isect);
      var m: int :| m in isect;
      DependsOnGrows(t.deps, r.id, Announced(t, r), m, last);
      DependsOnStep(deps, r.id, m, last);
    }
  }

  lemma BeginKeepsLive(t: Track, r: Irob)
    requires LiveAsAnnounced(t) && LastAnonymousKnown(t) && Undominated(t)
    requires Acceptable(t, r) && forall k :: k in t.order <==> k in t.deps
    ensures LiveAsAnnounced(Begin(t, r))
  {
    InsertKeepsLinked(t.lattice, r, true);
    var ds := Announced(t, r);
    assert forall d :: d in ds ==> d in t.deps;
    var live := t.lattice.live[r.id := r.(deps := ds)];
    assert Begin(t, r).lattice.live == Link(live, r.id, ds - t.lattice.past);
    assert forall k :: k in ds - t.lattice.past ==> k in live;
  }

  lemma BeginKeepsBackward(t: Track, r: Irob)
    requires Backward(t) && LastAnonymousKnown(t) && Undominated(t) && Acceptable(t, r)
    ensures Backward(Begin(t, r))
  {
    var u := Begin(t, r);
    var ds := Announced(t, r);
    assert forall d :: d in ds ==> d in t.order;
    assert forall k :: k in u.order <==> k in t.order || k == r.id;
    forall i, d | 0 <= i < |u.order| && u.order[i] in u.deps && d in u.deps[u.order[i]]
      ensures d in u.order[..i]
    {
      if i < |t.order| {
        assert u.order[i] == t.order[i] && t.order[i] in t.order;
        assert u.order[..i] == t.order[..i];
      } else {
        assert u.order[..i] == t.order;
      }
    }
  }

  lemma NothingDependsOnNew(t: Track, id: int)
    requires Backward(t) && id !in t.order
    ensures forall j :: j in t.deps ==> id !in t.deps[j]
  {
    forall j | j in t.deps
      ensures id !in t.deps[j]
    {
      var i :| 0 <= i < |t.order| && t.order[i] == j;
      assert forall d :: d in t.order[..i] ==> d in t.order;
    }
  }

  lemma ExposedStep(deps: map<int, set<int>>, anon: set<int>, id: int, ds: set<int>, anonymous: bool, k: int)
    requires id !in deps && id !in ds && id !in anon && forall j :: j in deps ==> id !in deps[j]
    ensures Exposed(deps[id := ds], if anonymous then anon + {id} else anon, k) <==>
            if k == id then !anonymous else Exposed(deps, anon, k) && k !in ds
  {
    var more := deps[id := ds];
    assert more[id] == ds;
    assert forall j :: j in deps ==> j in more && more[j] == deps[j];
  }

  lemma BeginKeepsUndominated(t: Track, r: Irob)
    requires WellKept(t) && Undominated(t) && Acceptable(t, r)
    ensures Undominated(Begin(t, r))
  {
    var u := Begin(t, r);
    var ds := Announced(t, r);
    NothingDependsOnNew(t, r.id);
    assert r.id !in ds && r.id !in t.lattice.dominators;
    assert !Exposed(t.deps, t.anon, t.lattice.lastAnon);
    forall k
      ensures k in u.lattice.dominators <==> Exposed(u.deps, u.anon, k)
    {
      ExposedStep(t.deps, t.anon, r.id, ds, r.anonymous, k);
      assert k in u.lattice.dominators <==>
        if k == r.id then !r.anonymous else k in t.lattice.dominators && k !in ds;
    }
  }

  lemma BeginKeepsDominating(t: Track, r: Irob)
    requires Sound(t) && Acceptable(t, r)
    ensures Dominating(Begin(t, r))
  {
    var u := Begin(t, r);
    var last := t.lattice.lastAnon;
    DependsOnSelf(u.deps, r.id);
    if r.anonymous {
      forall k | k in t.deps
        ensures DependsOn(u.deps, r.id, k)
      {
        AnonymousDependsOnAll(t, r, k);
      }
      assert u.lattice.lastAnon == r.id && u.lattice.dominators == {};
    } else {
      forall k | k in t.deps
        ensures Covered(u, k)
      {
        NamedKeepsCovered(t, r, k);
      }
      if last >= 0 {
        NamedDependsOnLastAnonymous(t, r);
        forall m | m in t.lattice.dominators
          ensures DependsOn(u.deps, m, last)
        {
          DependsOnGrows(t.deps, r.id, Announced(t, r), m, last);
        }
      }
      forall a | a in t.anon
        ensures DependsOn(u.deps, last, a)
      {
        DependsOnGrows(t.deps, r.id, Announced(t, r), last, a);
      }
    }
  }

  lemma NamedKeepsCovered(t: Track, r: Irob, k: int)
    requires Sound(t) && Acceptable(t, r) && !r.anonymous && k in t.deps
    ensures Covered(Begin(t, r), k)
  {
    var u := Begin(t, r);
    var last := t.lattice.lastAnon;
    if last >= 0 && DependsOn(t.deps, last, k) {
      DependsOnGrows(t.deps, r.id, Announced(t, r), last, k);
    } else {
      var m :| m in t.lattice.dominators && DependsOn(t.deps, m, k);
      DependsOnGrows(t.deps, r.id, Announced(t, r), m, k);
      if m in r.deps {
        DependsOnStep(u.deps, r.id, m, k);
        assert r.id in u.lattice.dominators;
      } else {
        assert m in u.lattice.dominators;
      }
    }
  }

  lemma BeginKeepsAnonymousOrdered(t: Track, r: Irob)
    requires Sound(t) && Acceptable(t, r)
    ensures AnonymousOrdered(Begin(t, r))
  {
    var u := Begin(t, r);
    forall i, j | 0 <= i < j < |u.order| && (u.order[i] in u.anon || u.order[j] in u.anon)
      ensures DependsOn(u.deps, u.order[j], u.order[i])
    {
      var k := u.order[i];
      if j < |t.order| {
        DependsOnGrows(t.deps, r.id, Announced(t, r), u.order[j], k);
      } else if r.anonymous {
        AnonymousDependsOnAll(t, r, k);
      } else {
        assert k in t.anon;
        NamedDependsOnLastAnonymous(t, r);
        DependsOnGrows(t.deps, r.id, Announced(t, r), t.lattice.lastAnon, k);
        DependsOnTrans(u.deps, r.id, t.lattice.lastAnon, k);
      }
    }
  }

  lemma BeginKeepsLastAnonymousKnown(t: Track, r: Irob)
    requires WellKept(t) && Acceptable(t, r)
    ensures LastAnonymousKnown(Begin(t, r))
  {
  }

  lemma BeginKeepsSound(t: Track, r: Irob)
    requires Sound(t) && Acceptable(t, r)
    ensures Sound(Begin(t, r))
  {
    BeginKeepsLastAnonymousKnown(t, r);
    BeginKeepsLive(t, r);
    BeginKeepsBackward(t, r);
    BeginKeepsUndominated(t, r);
    BeginKeepsDominating(t, r);
    BeginKeepsAnonymousOrdered(t, r);
  }

  lemma RetireKeepsSound(t: Track, id: int)
    requires Sound(t)
    ensures Sound(Retire(t, id))
  {
    EraseKeepsLinked(t.lattice, id, false);
  }

  lemma AbandonKeepsSound(t: Track, id: int)
    requires Sound(t)
    ensures Sound(Abandon(t, id))
  {
    DropKeepsLinked(t.lattice, id);
  }

  // ----- Whole histories -----

  datatype Op = Send(irob: Irob) | Acked(id: int) | Drop(id: int)

  ghost function Apply(t: Track, op: Op): Track {
    match op
    case Send(r) => if Acceptable(t, r) then Begin(t, r) else t
    case Acked(id) => Retire(t, id)
    case Drop(id) => Abandon(t, id)
  }

  ghost function History(ops: seq<Op>): Track {
    if ops == [] then NewTrack() else Apply(History(ops[..|ops| - 1]), ops[|ops| - 1])
  }

  lemma {:induction false} HistorySound(ops: seq<Op>)
    ensures Sound(History(ops))
  {
    if ops == [] {
      NewTrackSound();
    } else {
      var t := History(ops[..|ops| - 1]);
      HistorySound(ops[..|ops| - 1]);
      match ops[|ops| - 1]
      case Send(r) => if Acceptable(t, r) { BeginKeepsSound(t, r); }
      case Acked(id) => RetireKeepsSound(t, id);
      case Drop(id) => AbandonKeepsSound(t, id);
    }
  }

  /** After any sends, acks and drops: depending on every dominator and on the last anonymous
      IROB covers everything before. */
  lemma DominatorsCoverHistory(ops: seq<Op>, k: int)
    ensures var t := History(ops); k in t.order ==> Covered(t, k)
  {
    HistorySound(ops);
  }

  lemma LastEdge(deps: map<int, set<int>>, a: int, b: int)
    requires DependsOn(deps, a, b) && a != b
    ensures exists j :: j in deps && b in deps[j]
  {
    var p :| DepPath(deps, p) && p[0] == a && p[|p| - 1] == b;
    var i := |p| - 2;
    var j := p[i];
    assert j in deps && p[i + 1] in deps[j] && p[i + 1] == b;
  }

  /** No dominator is redundant: nothing else reaches it. */
  lemma DominatorsIrredundant(ops: seq<Op>, m: int, a: int)
    ensures var t := History(ops);
            m in t.lattice.dominators && a != m ==> !DependsOn(t.deps, a, m)
  {
    HistorySound(ops);
    var t := History(ops);
    if m in t.lattice.dominators && a != m && DependsOn(t.deps, a, m) {
      LastEdge(t.deps, a, m);
    }
  }

  /** The documented ordering rule, in terms of announced deps alone. */
  lemma AnonymousTotalOrder(ops: seq<Op>, i: nat, j: nat)
    ensures var t := History(ops);
            i < j < |t.order| && (t.order[i] in t.anon || t.order[j] in t.anon) ==>
              DependsOn(t.deps, t.order[j], t.order[i])
  {
    HistorySound(ops);
  }
}
