/** The order in which scheduled IROB work is taken. */
module Scheduling {
  import opened Sequences

  /** `time` is the completion time in microseconds; work without one carries `NEVER`. */
  datatype Task = Task(id: int, ondemand: bool, time: int)

  const NEVER: int := -1_000_000

  predicate Before(a: Task, b: Task) {
    if a.ondemand && !b.ondemand then true
    else if !a.ondemand && b.ondemand then false
    else a.time < b.time || a.id < b.id
  }

  /** With different completion times two tasks can each come before the other. */
  lemma AmbiguousIff(a: Task, b: Task)
    ensures Before(a, b) && Before(b, a) <==>
            a.ondemand == b.ondemand
            && ((a.time < b.time && b.id < a.id) || (b.time < a.time && a.id < b.id))
  {
  }

  /** Foreground work comes before background work, whatever the times and ids; among equals,
      earlier before later and, at one time, lower ids before higher. */
  lemma ForegroundFirst(a: Task, b: Task)
    ensures a.ondemand && !b.ondemand ==> Before(a, b) && !Before(b, a)
    ensures a.ondemand == b.ondemand && a.id < b.id ==> Before(a, b) && (Before(b, a) <==> b.time < a.time)
    ensures a.ondemand == b.ondemand && a.id == b.id ==> (Before(a, b) <==> a.time < b.time)
  {
  }

  ghost predicate SameTime(s: set<Task>) {
    forall a, b :: a in s && b in s ==> a.time == b.time
  }

  /** Over tasks of one time the comparison is a strict total order. */
  lemma SameTimeTotalOrder(a: Task, b: Task, c: Task)
    requires a.time == b.time == c.time
    ensures !Before(a, a)
    ensures a == b || (Before(a, b) <==> !Before(b, a))
    ensures Before(a, b) && Before(b, c) ==> Before(a, c)
  {
  }

  ghost predicate Least(s: set<Task>, t: Task) {
    t in s && forall u :: u in s ==> u == t || Before(t, u)
  }

  /** The scheduling sets, kept in that order. */
  class IROBPrioritySet {
    var tasks: set<Task>

    ghost predicate Valid()
      reads this
    {
      SameTime(tasks)
    }

    constructor ()
      ensures tasks == {}
    {
      tasks := {};
    }

    method Insert(t: Task)
      requires Valid() && forall u :: u in tasks ==> u.time == t.time
      modifies this
      ensures Valid() && tasks == old(tasks) + {t}
    {
      tasks := tasks + {t};
    }

    /** Takes the first task in order. */
    method Pop() returns (r: Option<Task>)
      requires Valid()
      modifies this
      ensures Valid() && (r.None? <==> old(tasks) == {})
      ensures r.Some? ==> Least(old(tasks), r.value) && tasks == old(tasks) - {r.value}
      ensures r.Some? ==> forall t :: t in old(tasks) ==>
                (t.ondemand ==> r.value.ondemand) && (t.ondemand == r.value.ondemand ==> r.value.id <= t.id)
    {
      if tasks == {} {
        return None;
      }
      SomeTask(tasks);
      var best: Task :| best in tasks;
      var todo := tasks - {best};
      while todo != {}
        invariant todo <= tasks && tasks == old(tasks) && best in tasks && best !in todo
        invariant forall u :: u in tasks && u !in todo ==> u == best || Before(best, u)
        decreases todo
      {
        SomeTask(todo);
        var u: Task :| u in todo;
        todo := todo - {u};
        if Before(u, best) {
          best := u;
        }
      }
      forall t | t in tasks
        ensures (t.ondemand ==> best.ondemand) && (t.ondemand == best.ondemand ==> best.id <= t.id)
      {
        ForegroundFirst(best, t);
      }
      tasks := tasks - {best};
      return Some(best);
    }

    /** The lookup key carries no labels, so only a task without the on-demand label is found. */
    method Remove(id: int) returns (r: Option<Task>)
      requires Valid() && forall t :: t in tasks ==> t.time == NEVER
      modifies this
      ensures r.Some? <==> exists t :: t in old(tasks) && t.id == id && !t.ondemand
      ensures r.Some? ==> r.value in old(tasks) && r.value.id == id && !r.value.ondemand
      ensures tasks == if r.Some? then old(tasks) - {r.value} else old(tasks)
    {
      var key := Task(id, false, NEVER);
      if key in tasks {
        tasks := tasks - {key};
        return Some(key);
      }
      return None;
    }
  }

  lemma SomeTask(s: set<Task>)
    ensures s != {} ==> exists t :: t in s
  {
    if forall t :: t !in s {
      NoMember(s);
    }
  }

  ghost predicate FirstOf(ids: set<int>, key: int -> Task, k: int) {
    k in ids && forall j :: j in ids ==> j == k || Before(key(k), key(j))
  }

  /** The first one is foreground if any is, and has the lowest id of those labelled as it is. */
  lemma FirstMeans(ids: set<int>, key: int -> Task, k: int)
    requires FirstOf(ids, key, k) && forall j :: key(j).id == j && key(j).time == NEVER
    ensures forall j :: j in ids ==>
              (key(j).ondemand ==> key(k).ondemand) && (key(j).ondemand == key(k).ondemand ==> k <= j)
  {
    forall j | j in ids
      ensures (key(j).ondemand ==> key(k).ondemand) && (key(j).ondemand == key(k).ondemand ==> k <= j)
    {
      if j != k {
        assert Before(key(k), key(j));
        ForegroundFirst(key(k), key(j));
      }
    }
  }

  /** Any nonempty set of ids has a first one, however they are labelled. */
  lemma {:induction false} FirstExists(ids: set<int>, key: int -> Task)
    requires ids != {} && forall k :: key(k).id == k && key(k).time == NEVER
    ensures exists k :: FirstOf(ids, key, k)
    decreases |ids|
  {
    SomeMember(ids);
    var a: int :| a in ids;
    var rest := ids - {a};
    if rest == {} {
      assert forall j :: j in ids ==> j == a || j in rest;
      assert FirstOf(ids, key, a);
    } else {
      FirstExists(rest, key);
      var k :| FirstOf(rest, key, k);
      if Before(key(a), key(k)) {
        forall j | j in ids
          ensures j == a || Before(key(a), key(j))
        {
          assert j == a || j in rest;
          SameTimeTotalOrder(key(a), key(k), key(j));
        }
        assert FirstOf(ids, key, a);
      } else {
        SameTimeTotalOrder(key(a), key(k), key(a));
        assert forall j :: j in ids ==> j == a || j in rest;
        assert FirstOf(ids, key, k);
      }
    }
  }
}
