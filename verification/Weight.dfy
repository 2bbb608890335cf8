/** Counting the set bits of a bitmap: neighbouring fields of a word are added up, and the words' counts. */
module WordWeights {
  import opened WordBitmaps

  // ---- the steps of hweight64 ----

  /** Fields of two bits hold how many of them were set. */
  function BitsAdded(w: bv64): bv64 {
    w - ((w >> 1) & 0x5555_5555_5555_5555)
  }

  function PairsAdded(w: bv64): bv64 {
    (w & 0x3333_3333_3333_3333) + ((w >> 2) & 0x3333_3333_3333_3333)
  }

  function NibblesAdded(w: bv64): bv64 {
    (w + (w >> 4)) & 0x0F0F_0F0F_0F0F_0F0F
  }

  /** Each byte holds how many of its bits were set. */
  function ByteCounts(w: bv64): bv64 {
    NibblesAdded(PairsAdded(BitsAdded(w)))
  }

  function BytesAdded(w: bv64): bv64 {
    w + (w >> 8)
  }

  function WordsAdded(w: bv64): bv64 {
    w + (w >> 16)
  }

  function Hweight64(w: bv64): bv64 {
    var res := WordsAdded(BytesAdded(ByteCounts(w)));
    (res + (res >> 32)) & 0xFF
  }

  // ---- what they should come to ----

  /** The lowest bit. */
  function One(w: bv64): nat {
    if w & 1 == 1 then 1 else 0
  }

  function Half(w: bv64): bv64 {
    w >> 1
  }

  /** The number of set bits among the low `k`. */
  function OnesIn(w: bv64, k: nat): nat {
    if k == 0 then 0 else One(w) + OnesIn(Half(w), k - 1)
  }

  /** The set bits of the low byte, added up. */
  function ByteOnes(w: bv64): bv64 {
    (w & 1) + ((w >> 1) & 1) + ((w >> 2) & 1) + ((w >> 3) & 1)
    + ((w >> 4) & 1) + ((w >> 5) & 1) + ((w >> 6) & 1) + ((w >> 7) & 1)
  }

  function Plus(x: bv64, y: bv64): bv64 {
    x + y
  }

  function Lowest(w: bv64): bv64 {
    w & 1
  }

  /** Byte `k` of a word. */
  function ByteAt(w: bv64, k: nat): bv64
    requires k < 8
  {
    if k == 0 then w & 0xFF else if k == 1 then (w >> 8) & 0xFF else if k == 2 then (w >> 16) & 0xFF
    else if k == 3 then (w >> 24) & 0xFF else if k == 4 then (w >> 32) & 0xFF else if k == 5 then (w >> 40) & 0xFF
    else if k == 6 then (w >> 48) & 0xFF else (w >> 56) & 0xFF
  }

  /** The word from byte `k` on. */
  function From(w: bv64, k: nat): bv64
    requires k < 8
  {
    if k == 0 then w else if k == 1 then w >> 8 else if k == 2 then w >> 16 else if k == 3 then w >> 24
    else if k == 4 then w >> 32 else if k == 5 then w >> 40 else if k == 6 then w >> 48 else w >> 56
  }

  /** The set bits of byte `k`, added up. */
  function OnesAt(w: bv64, k: nat): bv64
    requires k < 8
  {
    ByteOnes(From(w, k))
  }

  lemma Byte0(w: bv64)
    ensures ByteAt(ByteCounts(w), 0) == OnesAt(w, 0)
  {
  }

  lemma Byte1(w: bv64)
    ensures ByteAt(ByteCounts(w), 1) == OnesAt(w, 1)
  {
  }

  lemma Byte2(w: bv64)
    ensures ByteAt(ByteCounts(w), 2) == OnesAt(w, 2)
  {
  }

  lemma Byte3(w: bv64)
    ensures ByteAt(ByteCounts(w), 3) == OnesAt(w, 3)
  {
  }

  lemma Byte4(w: bv64)
    ensures ByteAt(ByteCounts(w), 4) == OnesAt(w, 4)
  {
  }

  lemma Byte5(w: bv64)
    ensures ByteAt(ByteCounts(w), 5) == OnesAt(w, 5)
  {
  }

  lemma Byte6(w: bv64)
    ensures ByteAt(ByteCounts(w), 6) == OnesAt(w, 6)
  {
  }

  lemma Byte7(w: bv64)
    ensures ByteAt(ByteCounts(w), 7) == OnesAt(w, 7)
  {
  }

  /** No byte is near overflowing. */
  lemma BytesSmall(w: bv64)
    ensures ByteCounts(w) & 0x0F0F_0F0F_0F0F_0F0F == ByteCounts(w)
  {
  }

  lemma Added0(r: bv64)
    requires r & 0x0F0F_0F0F_0F0F_0F0F == r
    ensures ByteAt(BytesAdded(r), 0) == Plus(ByteAt(r, 0), ByteAt(r, 1))
  {
  }

  lemma Added2(r: bv64)
    requires r & 0x0F0F_0F0F_0F0F_0F0F == r
    ensures ByteAt(BytesAdded(r), 2) == Plus(ByteAt(r, 2), ByteAt(r, 3))
  {
  }

  lemma Added4(r: bv64)
    requires r & 0x0F0F_0F0F_0F0F_0F0F == r
    ensures ByteAt(BytesAdded(r), 4) == Plus(ByteAt(r, 4), ByteAt(r, 5))
  {
  }

  lemma Added6(r: bv64)
    requires r & 0x0F0F_0F0F_0F0F_0F0F == r
    ensures ByteAt(BytesAdded(r), 6) == Plus(ByteAt(r, 6), ByteAt(r, 7))
  {
  }

  lemma AddedSmall(r: bv64)
    requires r & 0x0F0F_0F0F_0F0F_0F0F == r
    ensures BytesAdded(r) & 0x1F1F_1F1F_1F1F_1F1F == BytesAdded(r)
  {
  }

  lemma Halves(a: bv64)
    requires a & 0x1F1F_1F1F_1F1F_1F1F == a
    ensures ByteAt(WordsAdded(a), 0) == Plus(ByteAt(a, 0), ByteAt(a, 2))
    ensures ByteAt(WordsAdded(a), 4) == Plus(ByteAt(a, 4), ByteAt(a, 6))
  {
  }

  lemma LastSum(b: bv64)
    requires ByteAt(b, 0) <= 64 && ByteAt(b, 4) <= 64
    ensures (b + (b >> 32)) & 0xFF == Plus(ByteAt(b, 0), ByteAt(b, 4))
  {
  }

  lemma AtMostEight(w: bv64)
    ensures ByteOnes(w) <= 8
  {
  }

  lemma OnesSmall(w: bv64, k: nat)
    requires k < 8
    ensures OnesAt(w, k) <= 8
  {
    AtMostEight(From(w, k));
  }

  /** The set bits of the bytes `k` to `k + 3`. */
  function FourOnes(w: bv64, k: nat): bv64
    requires k < 5
  {
    Plus(Plus(OnesAt(w, k), OnesAt(w, k + 1)), Plus(OnesAt(w, k + 2), OnesAt(w, k + 3)))
  }

  lemma FourSmall(w: bv64, k: nat)
    requires k < 5
    ensures FourOnes(w, k) <= 32
  {
    OnesSmall(w, k);
    OnesSmall(w, k + 1);
    OnesSmall(w, k + 2);
    OnesSmall(w, k + 3);
    hide OnesAt;
    SmallSums(OnesAt(w, k), OnesAt(w, k + 1), OnesAt(w, k + 2), OnesAt(w, k + 3));
  }

  lemma SmallSums(a: bv64, b: bv64, c: bv64, d: bv64)
    requires a <= 8 && b <= 8 && c <= 8 && d <= 8
    ensures Plus(a, b) <= 16 && Plus(c, d) <= 16 && Plus(Plus(a, b), Plus(c, d)) <= 32
  {
  }

  /** The fields of the last step are sums over four bytes each. */
  lemma HalfSums(w: bv64)
    ensures var b := WordsAdded(BytesAdded(ByteCounts(w)));
            ByteAt(b, 0) == FourOnes(w, 0) && ByteAt(b, 4) == FourOnes(w, 4)
  {
    hide ByteCounts, BytesAdded, WordsAdded, OnesAt, ByteAt, Plus;
    var r := ByteCounts(w);
    BytesSmall(w);
    Added0(r);
    Added2(r);
    Added4(r);
    Added6(r);
    AddedSmall(r);
    Halves(BytesAdded(r));
    Byte0(w);
    Byte1(w);
    Byte2(w);
    Byte3(w);
    Byte4(w);
    Byte5(w);
    Byte6(w);
    Byte7(w);
  }

  /** The result is the sum of the bytes' set bits. */
  lemma SumOfBytes(w: bv64)
    ensures Hweight64(w) == Plus(FourOnes(w, 0), FourOnes(w, 4))
  {
    hide ByteCounts, BytesAdded, WordsAdded, OnesAt, ByteAt, Plus, FourOnes;
    HalfSums(w);
    FourSmall(w, 0);
    FourSmall(w, 4);
    LastSum(WordsAdded(BytesAdded(ByteCounts(w))));
  }

  // ---- numbers for words ----

  /** A small word as a number. */
  function NumberOf(x: bv64): nat
    decreases x
  {
    if x == 0 then 0 else 1 + NumberOf(x - 1)
  }

  lemma {:induction false} NumberOfSum(x: bv64, y: bv64)
    requires x <= 64 && y <= 64
    ensures NumberOf(x + y) == NumberOf(x) + NumberOf(y)
    decreases y
  {
    if y != 0 {
      assert (x + y) - 1 == x + (y - 1) && x + y != 0 && y - 1 <= 64 && y - 1 < y;
      NumberOfSum(x, y - 1);
    }
  }

  lemma OneMore(x: bv64)
    requires x < 256
    ensures (x + 1) as nat == (x as nat) + 1
  {
  }

  lemma {:induction false} NumberOfIs(x: bv64)
    requires x <= 64
    ensures NumberOf(x) == x as nat
    decreases x
  {
    if x != 0 {
      assert x - 1 <= 64 && x - 1 < x && (x - 1) + 1 == x;
      NumberOfIs(x - 1);
      OneMore(x - 1);
    }
  }

  lemma NumberOfBit(b: bv64)
    ensures b & 1 <= 1 && NumberOf(b & 1) == if b & 1 == 1 then 1 else 0
  {
    assert b & 1 == 0 || b & 1 == 1;
    assert NumberOf(0) == 0;
    assert NumberOf(1) == 1 + NumberOf(0);
  }

  // ---- the count of a word ----

  /** Adding a bit to a sum of at most `c`. */
  lemma AddBit(x: bv64, c: bv64, n: nat, b: bv64)
    requires x <= c <= 8 && NumberOf(x) == n
    ensures NumberOf(Plus(x, Lowest(b))) == n + One(b) && Plus(x, Lowest(b)) <= c + 1
  {
    NumberOfBit(b);
    NumberOfSum(x, b & 1);
  }

  /** The lowest bit, and those above. */
  lemma OnesStep(w: bv64, k: nat)
    ensures OnesIn(w, k + 1) == One(w) + OnesIn(Half(w), k)
  {
  }

  lemma OnesOfByte(w: bv64, k: nat)
    ensures OnesIn(w, k + 8) == One(w) + One(w >> 1) + One(w >> 2) + One(w >> 3) + One(w >> 4) + One(w >> 5)
        + One(w >> 6)
                                + One(w >> 7) + OnesIn(w >> 8, k)
  {
    assert Half(w >> 1) == w >> 2 && Half(w >> 2) == w >> 3 && Half(w >> 3) == w >> 4 && Half(w >> 4) == w >> 5;
    assert Half(w) == w >> 1 && Half(w >> 5) == w >> 6 && Half(w >> 6) == w >> 7 && Half(w >> 7) == w >> 8;
    hide OnesIn, One;
    OnesStep(w, k + 7);
    OnesStep(w >> 1, k + 6);
    OnesStep(w >> 2, k + 5);
    OnesStep(w >> 3, k + 4);
    OnesStep(w >> 4, k + 3);
    OnesStep(w >> 5, k + 2);
    OnesStep(w >> 6, k + 1);
    OnesStep(w >> 7, k);
  }

  lemma NumberOfByte(w: bv64)
    ensures NumberOf(ByteOnes(w)) == OnesIn(w, 8)
  {
    OnesOfByte(w, 0);
    assert OnesIn(w >> 8, 0) == 0;
    FirstBit(w);
    hide *;
    var s0 := Lowest(w);
    var s1 := Plus(s0, Lowest(w >> 1));
    var s2 := Plus(s1, Lowest(w >> 2));
    var s3 := Plus(s2, Lowest(w >> 3));
    var s4 := Plus(s3, Lowest(w >> 4));
    var s5 := Plus(s4, Lowest(w >> 5));
    var s6 := Plus(s5, Lowest(w >> 6));
    var n1 := One(w) + One(w >> 1);
    var n2 := n1 + One(w >> 2);
    var n3 := n2 + One(w >> 3);
    var n4 := n3 + One(w >> 4);
    var n5 := n4 + One(w >> 5);
    AddBit(s0, 1, One(w), w >> 1);
    AddBit(s1, 2, n1, w >> 2);
    AddBit(s2, 3, n2, w >> 3);
    AddBit(s3, 4, n3, w >> 4);
    AddBit(s4, 5, n4, w >> 5);
    AddBit(s5, 6, n5, w >> 6);
    AddBit(s6, 7, n5 + One(w >> 6), w >> 7);
    ByteOnesIs(w);
  }

  lemma FirstBit(w: bv64)
    ensures NumberOf(Lowest(w)) == One(w) && Lowest(w) <= 1
  {
    NumberOfBit(w);
  }

  lemma ByteOnesIs(w: bv64)
    ensures ByteOnes(w)
         == Plus(Plus(Plus(Plus(Plus(Plus(Plus(
                Lowest(w), Lowest(w >> 1)), Lowest(w >> 2)), Lowest(w >> 3)), Lowest(w >> 4)), Lowest(w >> 5)),
                Lowest(w >> 6)), Lowest(w >> 7))
  {
  }

  lemma CountByte(w: bv64, v: bv64, k: nat)
    requires v == NextByte(w)
    ensures OnesIn(w, k + 8) == OnesIn(w, 8) + OnesIn(v, k)
  {
    OnesOfByte(w, k);
    OnesOfByte(w, 0);
    assert OnesIn(w >> 8, 0) == 0;
  }

  /** The word without its low byte. */
  function NextByte(w: bv64): bv64 {
    w >> 8
  }

  lemma NextBytes(w: bv64)
    ensures NextByte(w) == w >> 8 && NextByte(w >> 8) == w >> 16 && NextByte(w >> 16) == w >> 24
    ensures NextByte(w >> 24) == w >> 32 && NextByte(w >> 32) == w >> 40 && NextByte(w >> 40) == w >> 48
    ensures NextByte(w >> 48) == w >> 56
  {
  }

  lemma FromStep(w: bv64, j: nat)
    requires j < 7
    ensures From(w, j + 1) == NextByte(From(w, j))
  {
    hide NextByte;
    NextBytes(w);
  }

  lemma CountFrom(w: bv64, j: nat, k: nat)
    requires j < 7
    ensures OnesIn(From(w, j), k + 8) == OnesIn(From(w, j), 8) + OnesIn(From(w, j + 1), k)
  {
    hide *;
    FromStep(w, j);
    CountByte(From(w, j), From(w, j + 1), k);
  }

  /** The set bits of the bytes of a word, as numbers. */
  lemma CountBytes(w: bv64)
    ensures OnesIn(From(w, 0), 64)
         == OnesIn(From(w, 0), 8) + OnesIn(From(w, 1), 8) + OnesIn(From(w, 2), 8) + OnesIn(From(w, 3), 8)
          + OnesIn(From(w, 4), 8) + OnesIn(From(w, 5), 8) + OnesIn(From(w, 6), 8) + OnesIn(From(w, 7), 8)
  {
    hide *;
    CountFrom(w, 0, 56);
    CountFrom(w, 1, 48);
    CountFrom(w, 2, 40);
    CountFrom(w, 3, 32);
    CountFrom(w, 4, 24);
    CountFrom(w, 5, 16);
    CountFrom(w, 6, 8);
  }

  lemma NumberAt(w: bv64, k: nat)
    requires k < 8
    ensures NumberOf(OnesAt(w, k)) == OnesIn(From(w, k), 8)
  {
    NumberOfByte(From(w, k));
  }

  lemma NumberOfFour(w: bv64, k: nat)
    requires k < 5
    ensures NumberOf(FourOnes(w, k))
         == OnesIn(From(w, k), 8) + OnesIn(From(w, k + 1), 8) + OnesIn(From(w, k + 2), 8) + OnesIn(From(w, k + 3), 8)
  {
    hide OnesAt, OnesIn, NumberOf, Plus, From;
    NumberAt(w, k);
    NumberAt(w, k + 1);
    NumberAt(w, k + 2);
    NumberAt(w, k + 3);
    OnesSmall(w, k);
    OnesSmall(w, k + 1);
    OnesSmall(w, k + 2);
    OnesSmall(w, k + 3);
    SmallSums(OnesAt(w, k), OnesAt(w, k + 1), OnesAt(w, k + 2), OnesAt(w, k + 3));
    NumberOfPlus(OnesAt(w, k), OnesAt(w, k + 1));
    NumberOfPlus(OnesAt(w, k + 2), OnesAt(w, k + 3));
    NumberOfPlus(Plus(OnesAt(w, k), OnesAt(w, k + 1)), Plus(OnesAt(w, k + 2), OnesAt(w, k + 3)));
  }

  lemma NumberOfPlus(x: bv64, y: bv64)
    requires x <= 64 && y <= 64
    ensures NumberOf(Plus(x, y)) == NumberOf(x) + NumberOf(y)
  {
    NumberOfSum(x, y);
  }

  /** hweight64 counts the set bits of its argument. */
  lemma HammingWeight(w: bv64)
    ensures Hweight64(w) as nat == OnesIn(w, 64) <= 64
  {
    assert From(w, 0) == w;
    hide OnesIn, NumberOf, FourOnes, Hweight64, Plus, From;
    NumberOfFour(w, 0);
    NumberOfFour(w, 4);
    SumOfBytes(w);
    FourSmall(w, 0);
    FourSmall(w, 4);
    CountBytes(w);
    OnesBound(w, 64);
    NumberOfPlus(FourOnes(w, 0), FourOnes(w, 4));
    HalvesSmall(FourOnes(w, 0), FourOnes(w, 4));
    NumberOfIs(Plus(FourOnes(w, 0), FourOnes(w, 4)));
  }

  lemma HalvesSmall(x: bv64, y: bv64)
    requires x <= 32 && y <= 32
    ensures Plus(x, y) <= 64
  {
  }

  lemma {:induction false} OnesBound(w: bv64, k: nat)
    ensures OnesIn(w, k) <= k
  {
    if k > 0 {
      OnesBound(Half(w), k - 1);
    }
  }

  // ---- the bits of a word, and a bitmap of such words ----

  /** Bit `i`. */
  predicate BitOf(w: bv64, i: nat) {
    if i == 0 then w & 1 == 1 else BitOf(Half(w), i - 1)
  }

  function BitsOf(w: bv64): (r: Word)
    ensures forall i :: 0 <= i < WORD ==> r[i] == BitOf(w, i)
  {
    seq(WORD, i requires 0 <= i => BitOf(w, i))
  }

  function WordsOf(map_: seq<bv64>): (r: seq<Word>)
    ensures |r| == |map_| && forall k :: 0 <= k < |r| ==> r[k] == BitsOf(map_[k])
  {
    seq(|map_|, k requires 0 <= k < |map_| => BitsOf(map_[k]))
  }

  /** The number of set bits of a bitmap below `n`. */
  function OnesBelow(map_: seq<Word>, n: nat): nat
    requires n <= WORD * |map_|
  {
    if n == 0 then 0 else OnesBelow(map_, n - 1) + if Bit(map_, n - 1) then 1 else 0
  }

  lemma {:induction false} OnesTop(w: bv64, k: nat)
    ensures OnesIn(w, k + 1) == OnesIn(w, k) + if BitOf(w, k) then 1 else 0
  {
    if k > 0 {
      OnesTop(Half(w), k - 1);
    }
  }

  /** The bits of the word `k` below its bit `j`. */
  lemma {:induction false} OnesInWord(map_: seq<bv64>, k: nat, j: nat)
    requires k < |map_| && j <= WORD
    ensures OnesBelow(WordsOf(map_), WORD * k + j) == OnesBelow(WordsOf(map_), WORD * k) + OnesIn(map_[k], j)
  {
    if j > 0 {
      OnesInWord(map_, k, j - 1);
      OnesTop(map_[k], j - 1);
      OneBit(WordsOf(map_), k, j - 1);
    }
  }

  function Double(x: bv64): bv64 {
    x << 1
  }

  function Pred(x: bv64): bv64 {
    x - 1
  }

  /** 1UL << k, a place at a time. */
  function Shifted1(k: nat): bv64 {
    if k == 0 then 1 else Double(Shifted1(k - 1))
  }

  /** One bit at most. */
  predicate Alone(x: bv64) {
    x & Pred(x) == 0
  }

  function And(x: bv64, y: bv64): bv64 {
    x & y
  }

  /** The low `k` bits. */
  function Masked(w: bv64, k: nat): bv64 {
    And(w, Pred(Shifted1(k)))
  }

  /** The word under BITMAP_LAST_WORD_MASK: (1UL << k) - 1 for `k` bits in the last word, or all ones. */
  function LastMasked(w: bv64, nbits: nat): bv64 {
    if nbits % WORD != 0 then Masked(w, nbits % WORD) else w & 0xFFFF_FFFF_FFFF_FFFF
  }

  /** Shifting by less than a word does not lose the bit. */
  lemma ShiftedEnd()
    ensures Shifted1(63) == 0x8000_0000_0000_0000
  {
    assert Shifted1(8) == 0x100;
    assert Shifted1(16) == 0x1_0000;
    assert Shifted1(24) == 0x100_0000;
    assert Shifted1(32) == 0x1_0000_0000;
    assert Shifted1(40) == 0x100_0000_0000;
    assert Shifted1(48) == 0x1_0000_0000_0000;
    assert Shifted1(56) == 0x100_0000_0000_0000;
  }

  lemma DoubleZero()
    ensures Double(0) == 0
  {
  }

  lemma ShiftedStep(k: nat)
    ensures Shifted1(k + 1) == Double(Shifted1(k))
  {
  }

  lemma {:induction false} ShiftedNotZero(k: nat)
    requires k <= 63
    ensures Shifted1(k) != 0
    decreases 63 - k
  {
    hide *;
    if k == 63 {
      ShiftedEnd();
    } else {
      ShiftedStep(k);
      ShiftedNotZero(k + 1);
      DoubleZero();
    }
  }

  lemma DoubleAlone(x: bv64)
    requires Alone(x)
    ensures Alone(Double(x))
  {
  }

  lemma OneAlone()
    ensures Alone(Shifted1(0))
  {
  }

  lemma {:induction false} ShiftedAlone(k: nat)
    ensures Alone(Shifted1(k))
  {
    hide *;
    if k == 0 {
      OneAlone();
    } else {
      ShiftedStep(k - 1);
      ShiftedAlone(k - 1);
      DoubleAlone(Shifted1(k - 1));
    }
  }

  lemma MaskHalf(y: bv64)
    requires Alone(y) && Double(y) != 0
    ensures One(Pred(Double(y))) == 1 && Half(Pred(Double(y))) == Pred(y)
  {
  }

  lemma AndHalf(w: bv64, m: bv64)
    requires One(m) == 1
    ensures One(And(w, m)) == One(w) && Half(And(w, m)) == And(Half(w), Half(m))
  {
  }

  lemma {:induction false} OnesOfZero(n: nat)
    ensures OnesIn(0, n) == 0
  {
    if n > 0 {
      assert Half(0) == 0 && One(0) == 0;
      OnesOfZero(n - 1);
    }
  }

  lemma MaskedIs(w: bv64, k: nat)
    ensures Masked(w, k) == And(w, Pred(Shifted1(k)))
  {
  }

  lemma MaskedHalf(w: bv64, k: nat)
    requires 0 < k < 64
    ensures One(Masked(w, k)) == One(w) && Half(Masked(w, k)) == Masked(Half(w), k - 1)
  {
    hide *;
    ShiftedStep(k - 1);
    ShiftedAlone(k - 1);
    ShiftedNotZero(k);
    MaskHalf(Shifted1(k - 1));
    AndHalf(w, Pred(Shifted1(k)));
    MaskedIs(w, k);
    MaskedIs(Half(w), k - 1);
  }

  lemma MaskedNone(w: bv64)
    ensures Masked(w, 0) == 0
  {
  }

  /** Masking leaves the set bits below `k`. */
  lemma {:induction false} OnesMasked(w: bv64, k: nat, n: nat)
    requires k < 64 && k <= n
    ensures OnesIn(Masked(w, k), n) == OnesIn(w, k)
    decreases k
  {
    hide Masked, One, Half;
    if k == 0 {
      MaskedNone(w);
      OnesOfZero(n);
    } else {
      MaskedHalf(w, k);
      OnesMasked(Half(w), k - 1, n - 1);
    }
  }

  // ---- the weight of a bitmap ----

  /** __bitmap_weight */
  method WeightOf(map_: seq<bv64>, bits: nat) returns (w: nat)
    requires bits <= WORD * |map_|
    ensures w == OnesBelow(WordsOf(map_), bits)
  {
    hide OnesIn, OnesBelow, Hweight64, LastMasked;
    var lim := bits / WORD;
    w := 0;
    NoneBelow(map_);
    for k := 0 to lim
      invariant w == OnesBelow(WordsOf(map_), WORD * k)
    {
      HammingWeight(map_[k]);
      OnesInWord(map_, k, WORD);
      w := w + Hweight64(map_[k]) as nat;
    }
    if bits % WORD != 0 {
      LastCount(map_[lim], bits);
      OnesInWord(map_, lim, bits % WORD);
      w := w + Hweight64(LastMasked(map_[lim], bits)) as nat;
    }
  }

  lemma NoneBelow(map_: seq<bv64>)
    ensures OnesBelow(WordsOf(map_), 0) == 0
  {
  }

  /** The bits that the mask leaves. */
  function LastBitsOf(nbits: nat): nat {
    if nbits % WORD == 0 then WORD else nbits % WORD
  }

  lemma LastCount(w: bv64, nbits: nat)
    ensures Hweight64(LastMasked(w, nbits)) as nat == OnesIn(w, LastBitsOf(nbits))
  {
    HammingWeight(LastMasked(w, nbits));
    LastOnes(w, nbits);
    hide *;
  }

  lemma LastOnes(w: bv64, nbits: nat)
    ensures OnesIn(LastMasked(w, nbits), 64) == OnesIn(w, LastBitsOf(nbits))
  {
    hide OnesIn, Masked;
    if nbits % WORD != 0 {
      OnesMasked(w, nbits % WORD, 64);
    } else {
      AllMasked(w);
    }
  }

  lemma AllMasked(w: bv64)
    ensures w & 0xFFFF_FFFF_FFFF_FFFF == w
  {
  }

  /** bitmap_weight: for no bits at all, those of the whole first word. */
  method BitmapWeight(map_: seq<bv64>, nbits: nat) returns (w: nat)
    requires nbits <= WORD * |map_| && |map_| > 0
    ensures w == OnesBelow(WordsOf(map_), if nbits == 0 then WORD else nbits)
  {
    hide OnesIn, OnesBelow, Hweight64, LastMasked;
    if nbits <= WORD {
      LastCount(map_[0], nbits);
      NoneBelow(map_);
      OnesInWord(map_, 0, LastBitsOf(nbits));
      assert LastBitsOf(nbits) == if nbits == 0 then WORD else nbits;
      return Hweight64(LastMasked(map_[0], nbits)) as nat;
    }
    w := WeightOf(map_, nbits);
  }

  /** bitmap_weight2: the number of set bits below `nbits`. */
  method BitmapWeight2(map_: seq<bv64>, nbits: nat) returns (w: nat)
    requires nbits <= WORD * |map_|
    ensures w == OnesBelow(WordsOf(map_), nbits)
  {
    if nbits == 0 {
      return 0;
    }
    w := BitmapWeight(map_, nbits);
  }
}
