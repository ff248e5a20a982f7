/** The timeval macros are integer arithmetic on microseconds. */
module TimeOps {

  const MAX_SUBSECS: int := 1_000_000

  datatype Timeval = Timeval(sec: int, usec: int)

  function Micros(t: Timeval): int {
    t.sec * MAX_SUBSECS + t.usec
  }

  predicate Normal(t: Timeval) {
    0 <= t.usec < MAX_SUBSECS
  }

  /** A normalized time is determined by its microseconds. */
  lemma NormalUnique(t: Timeval, u: Timeval)
    requires Normal(t) && Normal(u) && Micros(t) == Micros(u)
    ensures t == u
  {
  }

  /** `timercmp` with `<`. */
  predicate Earlier(t: Timeval, u: Timeval) {
    if t.sec == u.sec then t.usec < u.usec else t.sec < u.sec
  }

  /** On normalized times the comparison is that of the microseconds; with a subsecond part out
      of range it need not be. */
  lemma EarlierIs(t: Timeval, u: Timeval)
    requires Normal(t) && Normal(u)
    ensures Earlier(t, u) <==> Micros(t) < Micros(u)
  {
  }

  /** `timeradd`: carries at most one second. */
  method TimerAdd(t: Timeval, u: Timeval) returns (v: Timeval)
    requires Normal(t) && Normal(u)
    ensures Normal(v) && Micros(v) == Micros(t) + Micros(u)
  {
    var sec := t.sec + u.sec;
    var usec := t.usec + u.usec;
    if usec >= MAX_SUBSECS {
      sec := sec + 1;
      usec := usec - MAX_SUBSECS;
    }
    v := Timeval(sec, usec);
  }

  /** `timersub`: borrows at most one second. */
  method TimerSub(t: Timeval, u: Timeval) returns (v: Timeval)
    requires Normal(t) && Normal(u)
    ensures Normal(v) && Micros(v) == Micros(t) - Micros(u)
  {
    var sec := t.sec - u.sec;
    var usec := t.usec - u.usec;
    if usec < 0 {
      sec := sec - 1;
      usec := usec + MAX_SUBSECS;
    }
    v := Timeval(sec, usec);
  }

  /** `TIMEDIFF`: what it asserts on entry is exactly that the result is not negative. */
  method TimeDiff(begin: Timeval, end: Timeval) returns (v: Timeval)
    requires Normal(begin) && Normal(end) && Micros(begin) <= Micros(end)
    ensures Normal(v) && Micros(v) == Micros(end) - Micros(begin) && v.sec >= 0
  {
    assert end.sec > begin.sec || (end.sec == begin.sec && end.usec >= begin.usec);
    if end.usec < begin.usec {
      v := Timeval(end.sec - begin.sec - 1, MAX_SUBSECS + end.usec - begin.usec);
    } else {
      v := Timeval(end.sec - begin.sec, end.usec - begin.usec);
    }
  }

  /** From microseconds: the one normalized time that has so many. */
  method ConvertToTimeval(useconds: nat) returns (v: Timeval)
    ensures Normal(v) && Micros(v) == useconds && v.sec >= 0
    ensures forall t: Timeval :: Normal(t) && Micros(t) == useconds ==> t == v
  {
    var sec := useconds / 1_000_000;
    v := Timeval(sec, useconds - sec * 1_000_000);
    forall t: Timeval | Normal(t) && Micros(t) == useconds
      ensures t == v
    {
      NormalUnique(t, v);
    }
  }
}
