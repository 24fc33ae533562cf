/** The words of the free list: one bit a frame, most significant bit first. */
module Bitmap {

  const TOP: bv32 := 0x8000_0000

  /** The word holding the bit of frame `n`. */
  function WordOf(n: nat): nat { n / 32 }

  /** The place of frame `n` in its word, counted from the most significant bit. */
  function OffsetOf(n: nat): (o: nat)
    ensures o < 32
  {
    n % 32
  }

  function Shift(o: nat): bv5
    requires o < 32
  {
    o as bv5
  }

  function MaskAt(o: bv5): bv32 { TOP >> o }

  predicate IsSetAt(w: bv32, o: bv5) { (w << o) & TOP == TOP }

  /** The bit at place `o`, moved to the top of the word and compared there. */
  predicate IsSet(w: bv32, o: nat)
    requires o < 32
  {
    IsSetAt(w, Shift(o))
  }

  function Mask(o: nat): bv32
    requires o < 32
  {
    MaskAt(Shift(o))
  }

  /** Which bit that is: the one worth 2 to the power 31 - o. */
  lemma {:induction false} BitIs(w: bv32, o: bv5)
    ensures IsSetAt(w, o) <==> (w >> (31 - o)) & 1 == 1
    ensures MaskAt(o) >> (31 - o) == 1
  {
  }

  lemma {:induction false} NextShift(n: nat)
    requires n < 31
    ensures Shift(n + 1) == Shift(n) + 1
  {
  }

  lemma {:induction false} ShiftFromTop(n: nat)
    requires n < 32
    ensures (31 - n) as bv5 == 31 - Shift(n)
  {
  }

  /** Only zeros above place `o`. */
  predicate ClearAbove(x: bv32, o: bv5) { o == 0 || x >> (31 - (o - 1)) == 0 }

  lemma {:induction false} OneMoreZero(x: bv32, o: bv5)
    requires ClearAbove(x, o) && !IsSetAt(x, o) && o < 31
    ensures ClearAbove(x, o + 1)
  {
  }

  lemma {:induction false} LeadingOne(x: bv32, o: bv5)
    requires ClearAbove(x, o) && IsSetAt(x, o)
    ensures x >> (31 - o) == 1
  {
  }

  /** Shifted right by 31 - n places, `x` leaves a single 1: its highest bit is n places from
      the top. */
  predicate HighestAt(x: bv32, n: nat)
    requires n < 32
  {
    x >> ((31 - n) as bv5) == 1
  }

  lemma {:induction false} HighestHere(x: bv32, n: nat)
    requires n < 32 && ClearAbove(x, Shift(n)) && IsSet(x, n)
    ensures HighestAt(x, n)
  {
    hide IsSetAt, ClearAbove;
    ShiftFromTop(n);
    LeadingOne(x, Shift(n));
  }

  lemma {:induction false} AllOnes(w: bv32)
    ensures !w == 0 <==> w == 0xFFFF_FFFF
  {
  }

  lemma {:induction false} ShiftValue(a: nat)
    requires a < 32
    ensures Shift(a) as int == a
  {
  }

  lemma {:induction false} ShiftInjective(a: nat, b: nat)
    requires a < 32 && b < 32 && Shift(a) == Shift(b)
    ensures a == b
  {
    hide Shift;
    ShiftValue(a);
    ShiftValue(b);
  }

  lemma {:induction false} ShiftOnto(o: bv5) returns (n: nat)
    ensures n < 32 && Shift(n) == o
  {
    n := o as nat;
  }

  lemma {:induction false} SetBitAt(w: bv32, o: bv5, j: bv5)
    ensures IsSetAt(w | MaskAt(o), j) <==> j == o || IsSetAt(w, j)
  {
  }

  lemma {:induction false} FlipBitAt(w: bv32, o: bv5, j: bv5)
    requires IsSetAt(w, o)
    ensures IsSetAt(w ^ MaskAt(o), j) <==> j != o && IsSetAt(w, j)
  {
  }

  /** OR with the mask sets the one bit. */
  lemma {:induction false} SetBit(w: bv32, o: nat, j: nat)
    requires o < 32 && j < 32
    ensures IsSet(WithBit(w, o), j) <==> j == o || IsSet(w, j)
  {
    hide IsSetAt, MaskAt;
    SetBitAt(w, Shift(o), Shift(j));
    if Shift(o) == Shift(j) { ShiftInjective(o, j); }
  }

  /** XOR with the mask clears the one bit when it is set. */
  lemma {:induction false} FlipBit(w: bv32, o: nat, j: nat)
    requires o < 32 && j < 32 && IsSet(w, o)
    ensures IsSet(Flipped(w, o), j) <==> j != o && IsSet(w, j)
  {
    hide IsSetAt, MaskAt;
    FlipBitAt(w, Shift(o), Shift(j));
    if Shift(o) == Shift(j) { ShiftInjective(o, j); }
  }

  lemma {:induction false} ComplementAt(w: bv32, o: bv5)
    ensures IsSetAt(!w, o) <==> !IsSetAt(w, o)
  {
  }

  lemma {:induction false} Complement(w: bv32, o: nat)
    requires o < 32
    ensures IsSet(!w, o) <==> !IsSet(w, o)
    ensures !w == 0 ==> IsSet(w, o)
  {
    hide IsSetAt;
    ComplementAt(w, Shift(o));
    ClearWordAt(Shift(o));
  }

  lemma {:induction false} ClearWordAt(o: bv5)
    ensures !IsSetAt(0, o)
  {
  }

  lemma {:induction false} SomeBitAt(x: bv32) returns (o: bv5)
    requires x != 0
    ensures IsSetAt(x, o)
  {
    assert
      || IsSetAt(x, 0) || IsSetAt(x, 1) || IsSetAt(x, 2) || IsSetAt(x, 3) || IsSetAt(x, 4) || IsSetAt(x, 5)
      || IsSetAt(x, 6) || IsSetAt(x, 7) || IsSetAt(x, 8) || IsSetAt(x, 9) || IsSetAt(x, 10) || IsSetAt(x, 11)
      || IsSetAt(x, 12) || IsSetAt(x, 13) || IsSetAt(x, 14) || IsSetAt(x, 15) || IsSetAt(x, 16) || IsSetAt(x, 17)
      || IsSetAt(x, 18) || IsSetAt(x, 19) || IsSetAt(x, 20) || IsSetAt(x, 21) || IsSetAt(x, 22) || IsSetAt(x, 23)
      || IsSetAt(x, 24) || IsSetAt(x, 25) || IsSetAt(x, 26) || IsSetAt(x, 27) || IsSetAt(x, 28) || IsSetAt(x, 29)
      || IsSetAt(x, 30) || IsSetAt(x, 31);
    o :| IsSetAt(x, o);
  }

  /** A word other than 0 has a bit set. */
  lemma {:induction false} SomeBit(x: bv32) returns (n: nat)
    requires x != 0
    ensures n < 32 && IsSet(x, n)
  {
    hide IsSetAt;
    var o := SomeBitAt(x);
    n := ShiftOnto(o);
  }

  /** The compiler's count-leading-zeros, as a loop. */
  method LeadingZeros(x: bv32) returns (n: nat)
    requires x != 0
    ensures n < 32 && HighestAt(x, n)
    ensures IsSet(x, n) && forall j :: 0 <= j < n ==> !IsSet(x, j)
  {
    hide IsSetAt, ClearAbove, HighestAt;
    n := 0;
    ghost var top := SomeBit(x);
    NothingAbove(x);
    while !IsSet(x, n)
      invariant n <= top && ClearAbove(x, Shift(n))
      invariant forall j :: 0 <= j < n ==> !IsSet(x, j)
      decreases top - n
    {
      NextShift(n);
      ShiftValue(n);
      OneMoreZero(x, Shift(n));
      n := n + 1;
    }
    HighestHere(x, n);
  }

  lemma {:induction false} NothingAbove(x: bv32)
    ensures ClearAbove(x, Shift(0))
  {
  }

  /** The first clear bit of a word, or -1 if every bit is set. */
  method FindFirstZero(w: bv32) returns (r: int)
    ensures r == -1 <==> w == 0xFFFF_FFFF
    ensures r != -1 ==> 0 <= r < 32 && HighestAt(!w, r)
    ensures r == -1 <==> forall j :: 0 <= j < 32 ==> IsSet(w, j)
    ensures r != -1 ==> !IsSet(w, r) && forall j :: 0 <= j < r ==> IsSet(w, j)
  {
    hide IsSet, IsSetAt, HighestAt;
    AllOnes(w);
    Complements(w);
    if !w == 0 {
      r := -1;
    } else {
      r := LeadingZeros(!w);
      assert !IsSet(w, r);
    }
  }

  lemma {:induction false} Complements(w: bv32)
    ensures forall j :: 0 <= j < 32 ==> (IsSet(!w, j) <==> !IsSet(w, j))
    ensures !w == 0 ==> forall j :: 0 <= j < 32 ==> IsSet(w, j)
  {
    hide IsSet;
    forall j | 0 <= j < 32
      ensures IsSet(!w, j) <==> !IsSet(w, j)
      ensures !w == 0 ==> IsSet(w, j)
    {
      Complement(w, j);
    }
  }

  /** The frame whose bit is at place `o` of word `w`. */
  function FrameAt(w: nat, o: nat): (n: nat)
    requires o < 32
    ensures WordOf(n) == w && OffsetOf(n) == o
  {
    32 * w + o
  }

  /** Different frames have their bits in different places. */
  lemma {:induction false} PlacesDiffer(m: nat, n: nat)
    requires WordOf(m) == WordOf(n) && OffsetOf(m) == OffsetOf(n)
    ensures m == n
  {
  }

  function WithBit(w: bv32, o: nat): bv32
    requires o < 32
  {
    w | Mask(o)
  }

  function Flipped(w: bv32, o: nat): bv32
    requires o < 32
  {
    w ^ Mask(o)
  }

  /** Setting the bit of one frame touches no other frame's bit. */
  lemma {:induction false} SetFrame(words: seq<bv32>, n: nat, i: nat)
    requires WordOf(n) < |words| && WordOf(i) < |words|
    ensures var after := words[WordOf(n) := WithBit(words[WordOf(n)], OffsetOf(n))];
      IsSet(after[WordOf(i)], OffsetOf(i)) <==> i == n || IsSet(words[WordOf(i)], OffsetOf(i))
  {
    hide IsSet, Mask, WordOf, OffsetOf, WithBit;
    if WordOf(i) == WordOf(n) {
      SetBit(words[WordOf(n)], OffsetOf(n), OffsetOf(i));
      if OffsetOf(i) == OffsetOf(n) { PlacesDiffer(i, n); }
    }
  }

  /** Clearing the bit of one frame touches no other frame's bit. */
  lemma {:induction false} FlipFrame(words: seq<bv32>, n: nat, i: nat)
    requires WordOf(n) < |words| && WordOf(i) < |words| && IsSet(words[WordOf(n)], OffsetOf(n))
    ensures var after := words[WordOf(n) := Flipped(words[WordOf(n)], OffsetOf(n))];
      IsSet(after[WordOf(i)], OffsetOf(i)) <==> i != n && IsSet(words[WordOf(i)], OffsetOf(i))
  {
    hide IsSet, Mask, WordOf, OffsetOf, Flipped;
    if WordOf(i) == WordOf(n) {
      FlipBit(words[WordOf(n)], OffsetOf(n), OffsetOf(i));
      if OffsetOf(i) == OffsetOf(n) { PlacesDiffer(i, n); }
    }
  }
}
