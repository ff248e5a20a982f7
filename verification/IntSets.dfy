/** A set of integers as two bit vectors, for those not negative and for the others, and a count. */
module IntSets {
  import opened Sequences

  type Bits = seq<bool>

  function Members(bits: Bits): set<int> {
    set i | 0 <= i < |bits| && bits[i]
  }

  function Negated(bits: Bits): set<int> {
    set i | 0 <= i < |bits| && bits[i] :: -i
  }

  /** Setting a bit, growing the vector if it has to be. */
  function SetBit(bits: Bits, i: nat): Bits {
    if i < |bits| then bits[i := true] else bits + seq(i - |bits|, _ => false) + [true]
  }

  lemma SetBitAdds(bits: Bits, i: int)
    requires i >= 0
    ensures Members(SetBit(bits, i)) == Members(bits) + {i}
    ensures Negated(SetBit(bits, i)) == Negated(bits) + {-i}
  {
    var b := SetBit(bits, i);
    forall j
      ensures j in Members(b) <==> j in Members(bits) + {i}
    {
    }
    forall j
      ensures j in Negated(b) <==> j in Negated(bits) + {-i}
    {
      assert j == -(-j);
      assert -j in Members(b) <==> -j in Members(bits) + {i};
    }
    SameInts(Members(b), Members(bits) + {i});
    SameInts(Negated(b), Negated(bits) + {-i});
  }

  lemma ClearBitRemoves(bits: Bits, i: int)
    requires 0 <= i < |bits|
    ensures Members(bits[i := false]) == Members(bits) - {i}
    ensures Negated(bits[i := false]) == Negated(bits) - {-i}
  {
    var b := bits[i := false];
    forall j
      ensures j in Negated(b) <==> j in Negated(bits) - {-i}
    {
      assert j == -(-j);
      assert -j in Members(b) <==> -j in Members(bits) - {i};
    }
    SameInts(Members(b), Members(bits) - {i});
    SameInts(Negated(b), Negated(bits) - {-i});
  }

  lemma BitIs(bits: Bits, i: int)
    ensures i in Members(bits) <==> 0 <= i < |bits| && bits[i]
    ensures -i in Negated(bits) <==> 0 <= i < |bits| && bits[i]
  {
    assert i in Members(bits) ==> -i in Negated(bits);
  }

  lemma SignsApart(pos: Bits, neg: Bits)
    requires neg != [] ==> !neg[0]
    ensures forall x :: x in Members(pos) ==> x >= 0
    ensures forall x :: x in Negated(neg) ==> x < 0
  {
  }

  class IntSet {
    var posVec: Bits
    var negVec: Bits
    var size: nat

    ghost function Contents(): set<int>
      reads this
    {
      Members(posVec) + Negated(negVec)
    }

    ghost predicate Valid()
      reads this
    {
      size == |Contents()| && (negVec != [] ==> !negVec[0])
    }

    constructor ()
      ensures Valid() && Contents() == {}
    {
      posVec, negVec, size := [], [], 0;
    }

    method Insert(num: int)
      requires Valid()
      modifies this
      ensures Valid() && Contents() == old(Contents()) + {num}
    {
      hide Members, Negated;
      var present := Contains(num);
      if !present {
        size := size + 1;
        if num >= 0 {
          SetBitAdds(posVec, num);
          posVec := SetBit(posVec, num);
        } else {
          SetBitAdds(negVec, -num);
          negVec := SetBit(negVec, -num);
        }
      }
      SameInts(Contents(), old(Contents()) + {num});
    }

    method Contains(num: int) returns (r: bool)
      requires Valid()
      ensures r <==> num in Contents()
    {
      hide Members, Negated;
      SignsApart(posVec, negVec);
      if num >= 0 {
        BitIs(posVec, num);
        r := num < |posVec| && posVec[num];
      } else {
        BitIs(negVec, -num);
        r := -num < |negVec| && negVec[-num];
      }
    }

    method Erase(num: int)
      requires Valid()
      modifies this
      ensures Valid() && Contents() == old(Contents()) - {num}
    {
      hide Members, Negated;
      var present := Contains(num);
      SignsApart(posVec, negVec);
      if present {
        if num >= 0 {
          BitIs(posVec, num);
          ClearBitRemoves(posVec, num);
          posVec := posVec[num := false];
        } else {
          BitIs(negVec, -num);
          ClearBitRemoves(negVec, -num);
          negVec := negVec[-num := false];
        }
        size := size - 1;
      }
      SameInts(Contents(), old(Contents()) - {num});
    }

    method Size() returns (n: nat)
      requires Valid()
      ensures n == |Contents()|
    {
      n := size;
    }

    method IsEmpty() returns (r: bool)
      requires Valid()
      ensures r <==> Contents() == {}
    {
      var n := Size();
      r := n == 0;
    }

    method Clear()
      modifies this
      ensures Valid() && Contents() == {}
    {
      posVec, negVec, size := [], [], 0;
    }
  }
}
