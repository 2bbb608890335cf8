/** Bitmaps as arrays of machine words: searching, setting and clearing whole words at a time. */
module WordBitmaps {
  const WORD := 64

  /** A machine word by its bits, the lowest first. */
  type Word = w: seq<bool> | |w| == WORD witness seq(WORD, _ => false)

  const Zero: Word := seq(WORD, _ => false)
  const Ones: Word := seq(WORD, _ => true)

  function And(x: Word, y: Word): Word {
    seq(WORD, i requires 0 <= i < WORD => x[i] && y[i])
  }

  function Or(x: Word, y: Word): Word {
    seq(WORD, i requires 0 <= i < WORD => x[i] || y[i])
  }

  function Not(x: Word): Word {
    seq(WORD, i requires 0 <= i < WORD => !x[i])
  }

  function Lsl(x: Word, k: nat): Word {
    seq(WORD, i requires 0 <= i < WORD => i >= k && x[i - k])
  }

  function Lsr(x: Word, k: nat): Word {
    seq(WORD, i requires 0 <= i < WORD => i + k < WORD && x[i + k])
  }

  /** The word of `k` one bits, 2^k - 1. */
  function Low(k: nat): Word {
    seq(WORD, i requires 0 <= i < WORD => i < k)
  }

  /** Bit `i` of the bitmap. */
  predicate Bit(map_: seq<Word>, i: nat)
    requires i < WORD * |map_|
  {
    map_[i / WORD][i % WORD]
  }

  /** No bit of `w` from `lo` to `hi` equals `v`. */
  predicate None(w: Word, lo: int, hi: int, v: bool) {
    forall i :: 0 <= i < WORD && lo <= i < hi ==> w[i] != v
  }

  lemma ZeroNone(w: Word)
    ensures w == Zero <==> None(w, 0, WORD, true)
    ensures w == Ones <==> None(w, 0, WORD, false)
  {
  }

  /** `w` is what is left of `word` when `num` low bits, all zero, are shifted out; a one bit is among the next `k`. */
  ghost predicate Lowest(word: Word, w: Word, num: nat, k: nat) {
    num + k <= WORD && w == Lsr(word, num) && None(word, 0, num, true) && !None(w, 0, k, true)
  }

  /** One step of the search for the lowest bit: `k` zero bits are shifted out. */
  method SkipLow(w: Word, num: nat, k: nat, ghost word: Word) returns (w': Word, num': nat)
    requires Lowest(word, w, num, 2 * k)
    ensures Lowest(word, w', num', k)
  {
    w', num' := w, num;
    if And(w, Low(k)) == Zero {
      forall i | 0 <= i < k ensures !w[i] {
        assert !And(w, Low(k))[i];
      }
      num' := num + k;
      w' := Lsr(w, k);
      var i :| 0 <= i < WORD && 0 <= i < 2 * k && w[i];
      assert w'[i - k];
      forall j | num <= j < num' ensures !word[j] {
        assert w[j - num] == word[j];
      }
    } else {
      ZeroNone(And(w, Low(k)));
      var i :| 0 <= i < WORD && And(w, Low(k))[i];
      assert w[i];
    }
  }

  /** __ffs: the index of the lowest one bit. */
  method Ffs(word: Word) returns (num: nat)
    requires word != Zero
    ensures num < WORD && word[num] && None(word, 0, num, true)
  {
    ZeroNone(word);
    var w := word;
    num := 0;
    w, num := SkipLow(w, num, 32, word);
    w, num := SkipLow(w, num, 16, word);
    w, num := SkipLow(w, num, 8, word);
    w, num := SkipLow(w, num, 4, word);
    w, num := SkipLow(w, num, 2, word);
    w, num := SkipLow(w, num, 1, word);
    assert w[0] == word[num];
  }

  /**
   * `w` is what is left of `word` when the bits above `num`, all zero, are shifted out; a one bit is among the top `k`.
   */
  ghost predicate Highest(word: Word, w: Word, num: int, k: nat) {
    k - 1 <= num < WORD && w == Lsl(word, WORD - 1 - num) && None(word, num + 1, WORD, true)
    && !None(w, WORD - k, WORD, true)
  }

  method SkipHigh(w: Word, num: int, k: nat, ghost word: Word) returns (w': Word, num': int)
    requires Highest(word, w, num, 2 * k) && k <= WORD
    ensures Highest(word, w', num', k)
  {
    w', num' := w, num;
    if And(w, Lsl(Ones, WORD - k)) == Zero {
      forall i | WORD - k <= i < WORD ensures !w[i] {
        assert !And(w, Lsl(Ones, WORD - k))[i];
      }
      num' := num - k;
      w' := Lsl(w, k);
      var i :| 0 <= i < WORD && WORD - 2 * k <= i < WORD && w[i];
      assert w'[i + k];
      forall j | num' < j <= num ensures !word[j] {
        assert w[j + (WORD - 1 - num)] == word[j];
      }
    } else {
      ZeroNone(And(w, Lsl(Ones, WORD - k)));
      var i :| 0 <= i < WORD && And(w, Lsl(Ones, WORD - k))[i];
      assert w[i];
    }
  }

  /** __fls: the index of the highest one bit. */
  method Fls(word: Word) returns (num: int)
    requires word != Zero
    ensures 0 <= num < WORD && word[num] && None(word, num + 1, WORD, true)
  {
    ZeroNone(word);
    var w := word;
    num := WORD - 1;
    assert Lsl(word, 0) == word;
    w, num := SkipHigh(w, num, 32, word);
    w, num := SkipHigh(w, num, 16, word);
    w, num := SkipHigh(w, num, 8, word);
    w, num := SkipHigh(w, num, 4, word);
    w, num := SkipHigh(w, num, 2, word);
    w, num := SkipHigh(w, num, 1, word);
    assert w[WORD - 1] == word[num];
  }

  // ---- searching a bitmap ----

  /** No bit from `lo` to `hi` equals `v`. */
  ghost predicate NoBit(map_: seq<Word>, lo: int, hi: int, v: bool) {
    forall i: nat :: lo <= i < hi && i < WORD * |map_| ==> Bit(map_, i) != v
  }

  /** `r` is the first bit equal to `v` from `lo` on, or `size` when there is none below. */
  ghost predicate FirstBit(map_: seq<Word>, lo: int, size: int, v: bool, r: int) {
    && lo <= r <= size && NoBit(map_, lo, r, v)
    && (r < size ==> 0 <= r < WORD * |map_| && Bit(map_, r) == v)
  }

  /** The bits of one word. */
  lemma WordBits(map_: seq<Word>, p: nat, lo: int, hi: int, v: bool)
    requires p < |map_| && 0 <= lo <= hi <= WORD && None(map_[p], lo, hi, v)
    ensures NoBit(map_, WORD * p + lo, WORD * p + hi, v)
  {
    forall i: nat | WORD * p + lo <= i < WORD * p + hi && i < WORD * |map_| ensures Bit(map_, i) != v {
      assert i / WORD == p && i % WORD == i - WORD * p;
    }
  }

  lemma OneBit(map_: seq<Word>, p: nat, k: nat)
    requires p < |map_| && k < WORD
    ensures WORD * p + k < WORD * |map_| && Bit(map_, WORD * p + k) == map_[p][k]
  {
    assert (WORD * p + k) / WORD == p && (WORD * p + k) % WORD == k;
  }

  /**
   * The end of the search: bits below `from` in the word at `p` have been looked at, `tmp` has those from there on
   * below `size`.
   */
  method LastWord(map_: seq<Word>, p: nat, from: nat, size: nat, tmp0: Word) returns (k: nat)
    requires p < |map_| && from <= size < WORD
    requires forall i :: 0 <= i < WORD ==> tmp0[i] == (i >= from && map_[p][i])
    ensures from <= k <= size && NoBit(map_, WORD * p + from, WORD * p + k, true)
      && (k < size ==> Bit(map_, WORD * p + k) && WORD * p + k < WORD * |map_|)
  {
    var tmp := And(tmp0, Lsr(Ones, WORD - size));
    if tmp == Zero {
      forall i | from <= i < size ensures !map_[p][i] { assert !tmp[i]; }
      WordBits(map_, p, from, size, true);
      return size;
    }
    k := Ffs(tmp);
    assert tmp[k];
    forall i | from <= i < k ensures !map_[p][i] { assert !tmp[i]; }
    WordBits(map_, p, from, k, true);
    OneBit(map_, p, k);
  }

  /** The first one bit in `tmp`, which has the bits from `from` on of the word at `p`. */
  method InWord(map_: seq<Word>, p: nat, from: nat, tmp: Word) returns (k: nat)
    requires p < |map_| && from <= WORD && tmp != Zero
    requires forall i :: 0 <= i < WORD ==> tmp[i] == (i >= from && map_[p][i])
    ensures from <= k < WORD && NoBit(map_, WORD * p + from, WORD * p + k, true) && WORD * p + k < WORD * |map_|
      && Bit(map_, WORD * p + k)
  {
    k := Ffs(tmp);
    assert tmp[k];
    forall i | from <= i < k ensures !map_[p][i] { assert !tmp[i]; }
    WordBits(map_, p, from, k, true);
    OneBit(map_, p, k);
  }

  /** find_next_bit */
  method FindNextBit(map_: seq<Word>, size0: nat, offset0: nat) returns (r: nat)
    requires size0 <= WORD * |map_|
    ensures if offset0 >= size0 then r == size0 else FirstBit(map_, offset0, size0, true, r)
  {
    hide Bit;
    var p, result := offset0 / WORD, offset0 / WORD * WORD;
    if offset0 >= size0 {
      return size0;
    }
    var size := size0 - result;
    var offset := offset0 % WORD;
    if offset != 0 {
      var tmp := And(map_[p], Lsl(Ones, offset));
      if size < WORD {
        r := LastWord(map_, p, offset, size, tmp);
        return result + r;
      }
      if tmp != Zero {
        r := InWord(map_, p, offset, tmp);
        return result + r;
      }
      forall i | offset <= i < WORD ensures !map_[p][i] { assert !tmp[i]; }
      WordBits(map_, p, offset, WORD, true);
      p, size, result := p + 1, size - WORD, result + WORD;
    }
    while size / WORD != 0
      invariant 0 <= size && 0 <= p && result == WORD * p && result + size == size0 && offset0 <= result
        && NoBit(map_, offset0, result, true)
      decreases size
    {
      var tmp := map_[p];
      if tmp != Zero {
        r := InWord(map_, p, 0, tmp);
        return result + r;
      }
      ZeroNone(tmp);
      WordBits(map_, p, 0, WORD, true);
      p, size, result := p + 1, size - WORD, result + WORD;
    }
    if size == 0 {
      return result;
    }
    r := LastWord(map_, p, 0, size, map_[p]);
    r := result + r;
  }

  /** The end of the search for a zero bit. */
  method LastZero(map_: seq<Word>, p: nat, from: nat, size: nat, tmp0: Word) returns (k: nat)
    requires p < |map_| && from <= size < WORD
    requires forall i :: 0 <= i < WORD ==> tmp0[i] == (i < from || map_[p][i])
    ensures from <= k <= size && NoBit(map_, WORD * p + from, WORD * p + k, false)
      && (k < size ==> WORD * p + k < WORD * |map_| && !Bit(map_, WORD * p + k))
  {
    var tmp := Or(tmp0, Lsl(Ones, size));
    if tmp == Ones {
      forall i | from <= i < size ensures map_[p][i] { assert tmp[i]; }
      WordBits(map_, p, from, size, false);
      return size;
    }
    k := Ffz(tmp);
    assert !tmp[k];
    forall i | from <= i < k ensures map_[p][i] { assert tmp[i]; }
    WordBits(map_, p, from, k, false);
    OneBit(map_, p, k);
  }

  method InZero(map_: seq<Word>, p: nat, from: nat, tmp: Word) returns (k: nat)
    requires p < |map_| && from <= WORD && tmp != Ones
    requires forall i :: 0 <= i < WORD ==> tmp[i] == (i < from || map_[p][i])
    ensures from <= k < WORD && NoBit(map_, WORD * p + from, WORD * p + k, false) && WORD * p + k < WORD * |map_|
      && !Bit(map_, WORD * p + k)
  {
    k := Ffz(tmp);
    assert !tmp[k];
    forall i | from <= i < k ensures map_[p][i] { assert tmp[i]; }
    WordBits(map_, p, from, k, false);
    OneBit(map_, p, k);
  }

  /** ffz: the index of the lowest zero bit. */
  method Ffz(x: Word) returns (num: nat)
    requires x != Ones
    ensures num < WORD && !x[num] && None(x, 0, num, false)
  {
    ZeroNone(x);
    var i :| 0 <= i < WORD && !x[i];
    assert Not(x)[i];
    num := Ffs(Not(x));
    forall j | 0 <= j < num ensures x[j] { assert !Not(x)[j]; }
  }

  /** find_next_zero_bit */
  method FindNextZeroBit(map_: seq<Word>, size0: nat, offset0: nat) returns (r: nat)
    requires size0 <= WORD * |map_|
    ensures if offset0 >= size0 then r == size0 else FirstBit(map_, offset0, size0, false, r)
  {
    hide Bit;
    var p, result := offset0 / WORD, offset0 / WORD * WORD;
    if offset0 >= size0 {
      return size0;
    }
    var size := size0 - result;
    var offset := offset0 % WORD;
    if offset != 0 {
      var tmp := Or(map_[p], Lsr(Ones, WORD - offset));
      if size < WORD {
        r := LastZero(map_, p, offset, size, tmp);
        return result + r;
      }
      if tmp != Ones {
        r := InZero(map_, p, offset, tmp);
        return result + r;
      }
      forall i | offset <= i < WORD ensures map_[p][i] { assert tmp[i]; }
      WordBits(map_, p, offset, WORD, false);
      p, size, result := p + 1, size - WORD, result + WORD;
    }
    while size / WORD != 0
      invariant 0 <= size && 0 <= p && result == WORD * p && result + size == size0 && offset0 <= result
        && NoBit(map_, offset0, result, false)
      decreases size
    {
      var tmp := map_[p];
      if tmp != Ones {
        r := InZero(map_, p, 0, tmp);
        return result + r;
      }
      ZeroNone(tmp);
      WordBits(map_, p, 0, WORD, false);
      p, size, result := p + 1, size - WORD, result + WORD;
    }
    if size == 0 {
      return result;
    }
    r := LastZero(map_, p, 0, size, map_[p]);
    r := result + r;
  }

  // ---- full and empty bitmaps ----

  /** The low bits of the last word, all of it when the bitmap ends there. */
  function LastMask(nbits: nat): Word {
    Low(if nbits % WORD != 0 then nbits % WORD else WORD)
  }

  /** Words below `k` have no bit that equals `v`. */
  lemma WordsNone(map_: seq<Word>, k: nat, v: bool)
    requires k <= |map_| && forall j :: 0 <= j < k ==> None(map_[j], 0, WORD, v)
    ensures NoBit(map_, 0, WORD * k, v)
  {
    forall i: nat | 0 <= i < WORD * k && i < WORD * |map_| ensures Bit(map_, i) != v {
      assert None(map_[i / WORD], 0, WORD, v);
    }
  }

  /** A bitmap that is not the last word's part of it, or not the words' before. */
  lemma FoundBit(map_: seq<Word>, k: nat, hi: nat, nbits: nat, v: bool)
    requires k < |map_| && hi <= WORD && WORD * k + hi <= nbits && !None(map_[k], 0, hi, v)
    ensures !NoBit(map_, 0, nbits, v)
  {
    var i :| 0 <= i < WORD && 0 <= i < hi && map_[k][i] == v;
    OneBit(map_, k, i);
  }

  lemma MaskedNone(w: Word, k: nat, v: bool)
    requires k <= WORD
    ensures And(if v then w else Not(w), Low(k)) == Zero <==> None(w, 0, k, v)
  {
    var m := And(if v then w else Not(w), Low(k));
    ZeroNone(m);
    if m == Zero {
      forall i | 0 <= i < k ensures w[i] != v { assert !m[i]; }
    }
  }

  /** __bitmap_full for `v` false, __bitmap_empty for `v` true: no bit below `nbits` equals `v`. */
  method NoneOf(map_: seq<Word>, nbits: nat, v: bool) returns (r: bool)
    requires nbits <= WORD * |map_|
    ensures r <==> NoBit(map_, 0, nbits, v)
  {
    var k, lim := 0, nbits / WORD;
    while k < lim
      invariant 0 <= k <= lim && forall j :: 0 <= j < k ==> None(map_[j], 0, WORD, v)
    {
      ZeroNone(map_[k]);
      if (if v then map_[k] else Not(map_[k])) != Zero {
        NotZero(map_[k], v);
        FoundBit(map_, k, WORD, nbits, v);
        return false;
      }
      NotZero(map_[k], v);
      k := k + 1;
    }
    WordsNone(map_, k, v);
    if nbits % WORD != 0 {
      MaskedNone(map_[k], nbits % WORD, v);
      if And(if v then map_[k] else Not(map_[k]), LastMask(nbits)) != Zero {
        FoundBit(map_, k, nbits % WORD, nbits, v);
        return false;
      }
      WordBits(map_, k, 0, nbits % WORD, v);
    }
    return true;
  }

  lemma NotZero(w: Word, v: bool)
    ensures (if v then w else Not(w)) == Zero <==> None(w, 0, WORD, v)
  {
    ZeroNone(w);
    if !v {
      ZeroNone(Not(w));
      assert None(Not(w), 0, WORD, true) ==> forall i :: 0 <= i < WORD ==> w[i] == !Not(w)[i];
      if None(w, 0, WORD, v) {
        forall i | 0 <= i < WORD ensures !Not(w)[i] { assert w[i]; }
      }
      if Not(w) == Zero {
        forall i | 0 <= i < WORD ensures w[i] { assert !Not(w)[i]; }
      }
    }
  }

  /** bitmap_full for `v` false, bitmap_empty for `v` true. For no bits at all a whole word is looked at. */
  method BitmapNone(map_: seq<Word>, nbits: nat, v: bool) returns (r: bool)
    requires nbits <= WORD * |map_| && |map_| > 0
    ensures r <==> NoBit(map_, 0, if nbits == 0 then WORD else nbits, v)
  {
    if nbits <= WORD {
      var n := if nbits % WORD != 0 then nbits % WORD else WORD;
      assert LastMask(nbits) == Low(n);
      MaskedNone(map_[0], n, v);
      r := And(if v then map_[0] else Not(map_[0]), LastMask(nbits)) == Zero;
      if r {
        WordBits(map_, 0, 0, n, v);
      } else {
        FoundBit(map_, 0, n, n, v);
      }
    } else {
      r := NoneOf(map_, nbits, v);
    }
  }

  /** The answer is right for `nbits` bits, unless there are none and the first word has a bit that equals `v`. */
  lemma NoneForNoBits(map_: seq<Word>, nbits: nat, v: bool)
    requires nbits <= WORD * |map_| && |map_| > 0
    ensures (NoBit(map_, 0, if nbits == 0 then WORD else nbits, v) <==> NoBit(map_, 0, nbits, v)) <==>
        nbits > 0 || None(map_[0], 0, WORD, v)
  {
    if nbits == 0 {
      if None(map_[0], 0, WORD, v) {
        WordBits(map_, 0, 0, WORD, v);
      } else {
        FoundBit(map_, 0, WORD, WORD, v);
      }
    }
  }

  // ---- setting and clearing a range, in place ----

  /** The bits from `lo` to `hi` are `v`, the others as they were. */
  ghost predicate Ranged(was: seq<Word>, now: seq<Word>, lo: int, hi: int, v: bool) {
    |now| == |was| && forall i: nat :: i < WORD * |was| ==> Bit(now, i) == if lo <= i < hi then v else Bit(was, i)
  }

  /** A word with the bits of `mask` set, or cleared. */
  function Masked(w: Word, mask: Word, v: bool): Word {
    if v then Or(w, mask) else And(w, Not(mask))
  }

  lemma RangedMore(was: seq<Word>, now: seq<Word>, now': seq<Word>, lo: nat, p: nat, from: nat, to: nat, v: bool,
      mask: Word)
    requires Ranged(was, now, lo, WORD * p + from, v) && p < |was| && from <= to <= WORD && lo <= WORD * p + from
    requires forall i :: 0 <= i < WORD ==> mask[i] == (from <= i < to)
    requires now' == now[p := Masked(now[p], mask, v)]
    ensures Ranged(was, now', lo, WORD * p + to, v)
  {
    forall i: nat | i < WORD * |was| ensures Bit(now', i) == if lo <= i < WORD * p + to then v else Bit(was, i) {
      if i / WORD == p {
        assert Bit(now', i) == Masked(now[p], mask, v)[i % WORD];
        assert Bit(now, i) == now[p][i % WORD];
      } else {
        assert Bit(now', i) == Bit(now, i);
      }
    }
  }

  /** bitmap_set for `v` true, bitmap_clear for `v` false: `len` bits from `start` on. */
  method SetRange(map_: array<Word>, start: nat, len0: nat, v: bool)
    requires start + len0 <= WORD * map_.Length
    modifies map_
    ensures Ranged(old(map_[..]), map_[..], start, start + len0, v)
  {
    var p, len, bits := start / WORD, len0, WORD - start % WORD;
    var mask := Lsl(Ones, start % WORD);
    ghost var from := start % WORD;
    while len - bits >= 0
      invariant 0 <= p && 0 <= len && 0 <= from < WORD && bits == WORD - from && WORD * p + from + len == start + len0
        && start <= WORD * p + from
      invariant forall i :: 0 <= i < WORD ==> mask[i] == (from <= i)
      invariant Ranged(old(map_[..]), map_[..], start, WORD * p + from, v)
      decreases len
    {
      ghost var now := map_[..];
      map_[p] := Masked(map_[p], mask, v);
      RangedMore(old(map_[..]), now, map_[..], start, p, from, WORD, v, mask);
      len := len - bits;
      bits := WORD;
      mask := Ones;
      p := p + 1;
      from := 0;
    }
    if len != 0 {
      ghost var to := from + len;
      LastBits(start + len0, p, to);
      mask := And(mask, LastMask(start + len0));
      ghost var now := map_[..];
      map_[p] := Masked(map_[p], mask, v);
      RangedMore(old(map_[..]), now, map_[..], start, p, from, to, v, mask);
    }
  }

  lemma LastBits(size: nat, p: nat, to: nat)
    requires WORD * p + to == size && 0 < to < WORD
    ensures LastMask(size) == Low(to)
  {
    assert size % WORD == to;
  }
}
