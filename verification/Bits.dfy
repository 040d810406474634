/** The 64-bit sets that record which queued messages were packed into a block. */
module Bits {

  type BitSet = bv64

  predicate Odd(x: BitSet) { x & 1 == 1 }

  function Shr(x: BitSet): BitSet { x >> 1 }

  function Shl(x: BitSet): BitSet { x << 1 }

  /** The set without its lowest bit. */
  function DropLowest(x: BitSet): BitSet { x & (x - 1) }

  /** Bit i, counted from the least significant one. */
  predicate BitAt(x: BitSet, i: nat)
    decreases i
  {
    if i == 0 then Odd(x) else BitAt(Shr(x), i - 1)
  }

  /** Number of set bits. */
  function PopCount(x: BitSet): nat {
    if x == 0 then 0 else
      assert Shr(x) < x;
      (if Odd(x) then 1 else 0) + PopCount(Shr(x))
  }

  /** 1, shifted left i times. */
  function Shifted(i: nat): BitSet {
    if i == 0 then 1 else Shl(Shifted(i - 1))
  }

  lemma DropOdd(x: BitSet)
    requires Odd(x)
    ensures Shr(DropLowest(x)) == Shr(x) && !Odd(DropLowest(x)) && (DropLowest(x) == 0 <==> Shr(x) == 0)
  {
  }

  lemma DropEven(x: BitSet)
    requires !Odd(x) && x != 0
    ensures Shr(DropLowest(x)) == DropLowest(Shr(x)) && !Odd(DropLowest(x))
    ensures DropLowest(x) == 0 <==> DropLowest(Shr(x)) == 0
    ensures Shr(x) != 0 && Shr(x) < x
  {
  }

  lemma DropDecreases(x: BitSet)
    requires x != 0
    ensures DropLowest(x) < x
  {
  }

  lemma PopCountEven(y: BitSet)
    requires !Odd(y)
    ensures PopCount(y) == PopCount(Shr(y))
  {
    assert Shr(0) == 0;
  }

  /** Clearing the lowest set bit takes one off the count. */
  lemma {:induction false} ClearLowest(x: BitSet)
    requires x != 0
    ensures PopCount(DropLowest(x)) == PopCount(x) - 1
    decreases x
  {
    if Odd(x) {
      DropOdd(x);
      PopCountEven(DropLowest(x));
    } else {
      DropEven(x);
      PopCountEven(DropLowest(x));
      PopCountEven(x);
      ClearLowest(Shr(x));
    }
  }

  /** Counts by clearing the lowest bit until none is left. */
  method Count(packed: BitSet) returns (result: nat)
    ensures result == PopCount(packed)
  {
    result := 0;
    var bits := packed;
    while bits != 0
      invariant result + PopCount(bits) == PopCount(packed)
      decreases bits
    {
      ClearLowest(bits);
      DropDecreases(bits);
      result := result + 1;
      bits := bits & (bits - 1);
    }
  }

  lemma HalfOfEven(x: BitSet)
    requires x != 0
    ensures Shr(x) < x && (!Odd(x) ==> Shr(x) != 0)
  {
  }

  lemma {:induction false} SomeBitSet(x: BitSet) returns (i: nat)
    requires x != 0
    ensures BitAt(x, i)
    decreases x
  {
    if Odd(x) {
      i := 0;
    } else {
      HalfOfEven(x);
      i := SomeBitSet(Shr(x));
      i := i + 1;
    }
  }

  lemma UnionOfBits(x: BitSet, y: BitSet)
    ensures Odd(x | y) <==> Odd(x) || Odd(y)
    ensures Shr(x | y) == Shr(x) | Shr(y)
  {
  }

  lemma {:induction false} BitOfUnion(x: BitSet, y: BitSet, i: nat)
    ensures BitAt(x | y, i) <==> BitAt(x, i) || BitAt(y, i)
    decreases i
  {
    UnionOfBits(x, y);
    if i > 0 { BitOfUnion(Shr(x), Shr(y), i - 1); }
  }

  lemma {:induction false} BitOfZero(i: nat)
    ensures !BitAt(0, i)
    decreases i
  {
    assert Shr(0) == 0 && !Odd(0);
    if i > 0 { BitOfZero(i - 1); }
  }

  // A single bit wanders up and falls out after 64 shifts -----------------------------

  function Shl8(x: BitSet): BitSet { x << 8 }

  function Shl32(x: BitSet): BitSet { x << 32 }

  lemma ShlCompose(x: BitSet)
    ensures Shl(Shl(Shl(Shl(Shl(Shl(Shl(Shl(x)))))))) == Shl8(x)
    ensures Shl8(Shl8(Shl8(Shl8(x)))) == Shl32(x)
  {
  }

  lemma ShiftOnce(i: nat)
    ensures Shifted(i + 1) == Shl(Shifted(i))
  {
  }

  lemma ShiftBy8(i: nat)
    ensures Shifted(i + 8) == Shl8(Shifted(i))
  {
    ShiftOnce(i);
    ShiftOnce(i + 1);
    ShiftOnce(i + 2);
    ShiftOnce(i + 3);
    ShiftOnce(i + 4);
    ShiftOnce(i + 5);
    ShiftOnce(i + 6);
    ShiftOnce(i + 7);
    ShlCompose(Shifted(i));
  }

  lemma ShiftBy32(i: nat)
    ensures Shifted(i + 32) == Shl32(Shifted(i))
  {
    ShiftBy8(i);
    ShiftBy8(i + 8);
    ShiftBy8(i + 16);
    ShiftBy8(i + 24);
    ShlCompose(Shifted(i));
  }

  lemma ShiftedEnds()
    ensures Shifted(63) == 0x8000_0000_0000_0000 && Shifted(64) == 0
  {
    ShiftBy32(0);
    ShiftBy32(32);
    assert Shifted(0) == 1;
    assert Shl32(Shl32(1)) == 0;
    ShiftBy32(31);
    ShiftBy8(23);
    ShiftBy8(15);
    ShiftBy8(7);
    ShiftOnce(0);
    ShiftOnce(1);
    ShiftOnce(2);
    ShiftOnce(3);
    ShiftOnce(4);
    ShiftOnce(5);
    ShiftOnce(6);
    TopBit();
  }

  lemma TopBit()
    ensures Shl32(Shl8(Shl8(Shl8(Shl(Shl(Shl(Shl(Shl(Shl(Shl(1))))))))))) == 0x8000_0000_0000_0000
  {
  }

  lemma {:induction false} ZeroStays(i: nat, j: nat)
    requires i <= j && Shifted(i) == 0
    ensures Shifted(j) == 0
    decreases j
  {
    if i < j { ZeroStays(i, j - 1); }
  }

  /** The current bit is used up exactly after 64 messages. */
  lemma ShiftedZeroIff(i: nat)
    ensures Shifted(i) == 0 <==> i >= 64
  {
    ShiftedEnds();
    if i >= 64 { ZeroStays(64, i); }
    if Shifted(i) == 0 && i <= 63 { ZeroStays(i, 63); }
  }

  predicate HasTop(x: BitSet) { x & 0x8000_0000_0000_0000 != 0 }

  /** A lone bit stays alone, falls out at the top, and otherwise can be shifted back. */
  lemma LoneBit(x: BitSet)
    requires DropLowest(x) == 0
    ensures DropLowest(Shl(x)) == 0
    ensures HasTop(x) ==> Shl(x) == 0
    ensures !HasTop(x) ==> Shr(Shl(x)) == x
    ensures !Odd(Shl(x))
  {
  }

  lemma {:induction false} ShiftedIsLone(i: nat)
    ensures DropLowest(Shifted(i)) == 0
  {
    if i > 0 {
      ShiftedIsLone(i - 1);
      LoneBit(Shifted(i - 1));
    }
  }

  /** The current bit is bit i and no other. */
  lemma {:induction false} BitOfShifted(i: nat, j: nat)
    requires i < 64
    ensures BitAt(Shifted(i), j) <==> i == j
    decreases i
  {
    if i == 0 {
      assert Shr(1) == 0 && Odd(1);
      if j > 0 { BitOfZero(j - 1); }
    } else {
      ShiftedIsLone(i - 1);
      ShiftedZeroIff(i);
      LoneBit(Shifted(i - 1));
      if j > 0 { BitOfShifted(i - 1, j - 1); }
    }
  }

  // Bit sets as lists of choices -------------------------------------------------------

  /** x has exactly the bits of the list. */
  ghost predicate Represents(x: BitSet, c: seq<bool>) {
    forall i: nat :: BitAt(x, i) <==> i < |c| && c[i]
  }

  function CountTrue(c: seq<bool>): nat {
    if c == [] then 0 else (if c[0] then 1 else 0) + CountTrue(c[1..])
  }

  function Tail(c: seq<bool>): seq<bool> { if c == [] then [] else c[1..] }

  lemma RepresentsTail(x: BitSet, c: seq<bool>)
    requires Represents(x, c)
    ensures Represents(Shr(x), Tail(c))
    ensures Odd(x) == (c != [] && c[0])
  {
    assert BitAt(x, 0) == Odd(x);
    forall i: nat ensures BitAt(Shr(x), i) <==> i < |Tail(c)| && Tail(c)[i] {
      var k: nat := i + 1;
      assert BitAt(x, k) == BitAt(Shr(x), k - 1);
      assert BitAt(x, k) <==> k < |c| && c[k];
    }
  }

  lemma ZeroIff(x: BitSet)
    ensures x == 0 <==> Shr(x) == 0 && !Odd(x)
  {
  }

  /** Counting set bits counts the choices. */
  lemma {:induction false} PopCountCounts(x: BitSet, c: seq<bool>)
    requires Represents(x, c)
    ensures PopCount(x) == CountTrue(c)
    ensures x == 0 <==> CountTrue(c) == 0
    decreases |c|
  {
    if c == [] {
      if x != 0 { var i := SomeBitSet(x); }
    } else {
      RepresentsTail(x, c);
      PopCountCounts(Shr(x), c[1..]);
      ZeroIff(x);
    }
  }
}
