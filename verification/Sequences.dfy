/** Byte sequences, option values and the few sequence facts the rest of the model shares. */
module Sequences {

  newtype byte = x: int | 0 <= x < 256

  datatype Option<+T> = None | Some(value: T)

  function Min(a: int, b: int): int {
    if a <= b then a else b
  }

  /** All pieces, one after another. */
  function Concat(pieces: seq<seq<byte>>): seq<byte> {
    if pieces == [] then [] else pieces[0] + Concat(pieces[1..])
  }

  /** Where piece `i` begins in the concatenation. */
  function PieceOffset(pieces: seq<seq<byte>>, i: nat): nat
    requires i <= |pieces|
  {
    |Concat(pieces[..i])|
  }

  lemma {:induction false} ConcatAppend(a: seq<seq<byte>>, b: seq<seq<byte>>)
    ensures Concat(a + b) == Concat(a) + Concat(b)
  {
    if a == [] {
      assert a + b == b;
    } else {
      assert (a + b)[1..] == a[1..] + b;
      ConcatAppend(a[1..], b);
    }
  }

  lemma ConcatSnoc(a: seq<seq<byte>>, x: seq<byte>)
    ensures Concat(a + [x]) == Concat(a) + x
  {
    ConcatAppend(a, [x]);
    assert Concat([x]) == x + Concat([]);
  }

  /** A piece sits in the concatenation at its own offset. */
  lemma PieceInConcat(pieces: seq<seq<byte>>, i: nat)
    requires i < |pieces|
    ensures PieceOffset(pieces, i) + |pieces[i]| == PieceOffset(pieces, i + 1) <= |Concat(pieces)|
    ensures Concat(pieces)[PieceOffset(pieces, i)..PieceOffset(pieces, i + 1)] == pieces[i]
  {
    var a, x, b := Concat(pieces[..i]), pieces[i], pieces[i + 1..];
    assert pieces[..i + 1] == pieces[..i] + [x];
    ConcatSnoc(pieces[..i], x);
    assert pieces == pieces[..i + 1] + b;
    ConcatAppend(pieces[..i + 1], b);
    assert Concat(pieces) == (a + x) + Concat(b);
    assert ((a + x) + Concat(b))[|a|..|a + x|] == x;
  }

  lemma PieceOffsetExtends(pieces: seq<seq<byte>>, more: seq<seq<byte>>, i: nat)
    requires i <= |pieces|
    ensures PieceOffset(pieces + more, i) == PieceOffset(pieces, i)
  {
    assert (pieces + more)[..i] == pieces[..i];
  }

  predicate NoDuplicates<T(==)>(s: seq<T>) {
    forall i, j :: 0 <= i < j < |s| ==> s[i] != s[j]
  }

  function Elements<T>(s: seq<T>): set<T> {
    set i | 0 <= i < |s| :: s[i]
  }

  lemma NothingLeft(a: set<int>, b: set<int>)
    requires a - b == {}
    ensures a <= b
  {
    assert forall x :: x in a ==> x in a - b || x in b;
  }

  lemma NoMember<T>(s: set<T>)
    requires forall y :: y !in s
    ensures s == {}
  {
  }

  /** A nonempty set has something to pick. */
  lemma SomeMember(s: set<int>)
    ensures s != {} ==> exists y :: y in s
  {
    if forall y :: y !in s {
      NoMember(s);
    }
  }

  lemma SameInts(a: set<int>, b: set<int>)
    requires forall x :: x in a <==> x in b
    ensures a == b
  {
    if a - b != {} {
      SomeMember(a - b);
    }
    if b - a != {} {
      SomeMember(b - a);
    }
    NothingLeft(a, b);
    NothingLeft(b, a);
  }
}
