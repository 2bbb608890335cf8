/** Walks over the id tree in ascending id order with a stack of layers. */
module IdrWalk {
  import opened IdrTrie

  /** fls(x ^ y): one past the highest bit in which two non-negative numbers differ. */
  function FlsXor(x: nat, y: nat): nat
    decreases x + y
  {
    if x == y then 0 else 1 + FlsXor(x / 2, y / 2)
  }

  /** fls(x) on a 32-bit int: a negative number has its top bit set. */
  function Fls(x: int): nat {
    if x < 0 then 32 else FlsXor(x, 0)
  }

  function Halve(x: nat, k: nat): nat {
    if k == 0 then x else Halve(x / 2, k - 1)
  }

  lemma {:induction false} FlsHalve(x: nat, y: nat, k: nat)
    ensures FlsXor(Halve(x, k), Halve(y, k)) == if FlsXor(x, y) <= k then 0 else FlsXor(x, y) - k
    decreases k
  {
    if k > 0 {
      FlsHalve(x / 2, y / 2, k - 1);
    }
  }

  lemma {:induction false} HalveSplit(x: nat, k: nat, j: nat)
    ensures Halve(x, k + j) == Halve(Halve(x, k), j)
    decreases k
  {
    if k > 0 {
      HalveSplit(x / 2, k - 1, j);
    }
  }

  lemma Nibble(x: nat)
    ensures Halve(x, 4) == x / 16
  {
    HalveSplit(x, 2, 2);
    assert Halve(x, 2) == Halve(x / 2, 1) == x / 2 / 2;
    assert Halve(x / 4, 2) == Halve(x / 4 / 2, 1) == x / 4 / 2 / 2;
  }

  lemma FlsByte(x: nat, y: nat)
    ensures FlsXor(x / 256, y / 256) == if FlsXor(x, y) <= 8 then 0 else FlsXor(x, y) - 8
  {
    FlsHalve(x, y, 8);
    HalveSplit(x, 4, 4);
    HalveSplit(y, 4, 4);
    Nibble(x);
    Nibble(y);
    Nibble(x / 16);
    Nibble(y / 16);
    assert x / 16 / 16 == x / 256 && y / 16 / 16 == y / 256;
  }

  lemma {:induction false} ShrOuter(x: int, m: nat)
    ensures Shr(x / 256, m) == Shr(x, m + 1)
  {
    if m > 0 {
      ShrOuter(x, m - 1);
    }
  }

  /** The highest differing bit lies at digit `m` or above exactly when the prefixes above `m` differ. */
  lemma {:induction false} FlsShr(x: nat, y: nat, m: nat)
    ensures 8 * m < FlsXor(x, y) <==> Shr(x, m) != Shr(y, m)
    decreases m
  {
    if m > 0 {
      FlsByte(x, y);
      FlsShr(x / 256, y / 256, m - 1);
      ShrOuter(x, m - 1);
      ShrOuter(y, m - 1);
    }
  }

  lemma {:induction false} ShrZero(m: nat)
    ensures Shr(0, m) == 0
  {
    if m > 0 {
      ShrZero(m - 1);
    }
  }

  /** What the walk finds at a level of the path to `id`; level -1 is the leaf slot. */
  ghost function Found(t: Trie, id: int, lv: int): Ptr
    requires Placed(t)
  {
    if lv < 0 then Held(t, id) else NodeAt(t, On(id, lv))
  }

  /** The stack holds the path to `id` down to level `n - 1`, all present down to level `n`. */
  ghost predicate Walk(t: Trie, pa: seq<Ptr>, idx: int, id: int, n: int) {
    && Inv(t) && |pa| == 5 && 0 <= n <= t.layers <= 4 && idx == t.layers - n && 0 <= id <= IdrMax(t.layers)
    && (forall d :: 0 <= d <= idx ==> pa[d] == Found(t, id, t.layers - 1 - d))
    && (forall lv :: n <= lv < t.layers ==> On(id, lv) in t.at)
  }

  lemma WalkStart(t: Trie, pa: seq<Ptr>, id: int)
    requires Inv(t) && |pa| == 5 && pa[0] == t.top && 0 <= id <= IdrMax(t.layers)
    ensures Walk(t, pa, 0, id, t.layers)
  {
    if t.layers == 0 {
      HeldInRange(t, id);
      assert Found(t, id, -1) == NULL;
    } else {
      OnRoot(t, id);
    }
  }

  lemma WalkFacts(t: Trie, pa: seq<Ptr>, idx: int, id: int, n: int)
    requires Walk(t, pa, idx, id, n)
    ensures 0 <= idx <= 4 && 0 <= n <= 4 && n == t.layers - idx && t.layers <= 4 && Inv(t)
    ensures pa[idx] == Found(t, id, n - 1) && (n == 0 ==> pa[idx] == Held(t, id))
  {
  }

  /** One step down. */
  lemma WalkDown(t: Trie, pa: seq<Ptr>, idx: int, id: int, n: int)
    requires Walk(t, pa, idx, id, n) && n > 0 && 0 <= idx <= 3 && pa[idx] != NULL
    ensures pa[idx] in t.heap && Formed(t.heap[pa[idx]])
    ensures Walk(t, pa[idx + 1 := t.heap[pa[idx]].ary[Slot(id, n - 1)]], idx + 1, id, n - 1)
  {
    assert pa[idx] == Found(t, id, n - 1);
    Descend(t, id, n - 1);
  }

  /** Nothing is bound from `id` up to where the walk goes next. */
  lemma NothingUpTo(t: Trie, pa: seq<Ptr>, idx: int, id: int, n: int)
    requires Walk(t, pa, idx, id, n) && pa[idx] == NULL
    ensures forall j :: id <= j < Shl(Shr(id, n) + 1, n) ==> Held(t, j) == NULL && !(n > 0 && Taken(t, j))
    ensures n > 0 ==> On(id, n - 1) !in t.at
  {
    assert pa[idx] == Found(t, id, n - 1);
    AllLive(t);
    forall j | id <= j < Shl(Shr(id, n) + 1, n) ensures Held(t, j) == NULL && !(n > 0 && Taken(t, j)) {
      if n > 0 {
        ShlGalois(j, Shr(id, n) + 1, n);
        ShrMono(id, j, n);
        NothingHeld(t, j, n - 1);
      }
    }
  }

  lemma NextUp(t: Trie, id: int, n: nat)
    requires 0 <= id <= IdrMax(t.layers) && t.layers <= 4 && n <= 3
    ensures var next := Shl(Shr(id, n) + 1, n); id < next <= MAX_IDR_BIT && Shr(next, n) == Shr(id, n) + 1
  {
    var next := Shl(Shr(id, n) + 1, n);
    ShlGalois(id, Shr(id, n) + 1, n);
    ShrShl(Shr(id, n) + 1, n);
    IdrMaxBound(t.layers);
    // 2^31 is a multiple of every span up to 2^24
    assert Shl(128, 3) == MAX_IDR_BIT && Shl(128 * 256, 2) == MAX_IDR_BIT && Shl(128 * 65536, 1) == MAX_IDR_BIT;
    var q := if n == 3 then 128 else if n == 2 then 128 * 256 else if n == 1 then 128 * 65536 else MAX_IDR_BIT;
    assert Shl(q, n) == MAX_IDR_BIT;
    ShlGalois(id, q, n);
    if next > MAX_IDR_BIT {
      ShlGalois(MAX_IDR_BIT, Shr(id, n) + 1, n);
      ShrShl(q, n);
    }
  }

  /** The stack popped to a level whose prefix does not change is the stack for the next id. */
  lemma WalkPop(t: Trie, pa: seq<Ptr>, idx: int, id: int, n: int, next: int, m: int)
    requires Walk(t, pa, idx, id, n) && 0 <= next <= IdrMax(t.layers)
    requires n <= m <= t.layers && Shr(next, m) == Shr(id, m)
    requires m == 0 ==> next == id
    ensures Walk(t, pa, t.layers - m, next, m)
  {
    forall lv | m - 1 <= lv < t.layers && 0 <= lv ensures On(next, lv) == On(id, lv) {
      SharedPrefix(next, id, m, lv + 1);
    }
    forall d | 0 <= d <= t.layers - m ensures pa[d] == Found(t, next, t.layers - 1 - d) {
      assert pa[d] == Found(t, id, t.layers - 1 - d);
    }
  }

  /** The walk skips a missing subtree only from its first id. */
  ghost predicate Aligned(t: Trie, id: int) {
    forall m {:trigger Shl(Shr(id, m), m)} :: 1 <= m <= t.layers && On(id, m - 1) !in t.at ==> Shl(Shr(id, m), m) == id
  }

  lemma {:induction false} ShlSplit(q: int, n: nat, m: nat)
    requires m <= n
    ensures Shl(q, n) == Shl(Shl(q, n - m), m)
    decreases n
  {
    if m < n {
      ShlSplit(q * 256, n - 1, m);
    }
  }

  lemma {:induction false} ShlAdd(q: int, r: int, n: nat)
    ensures Shl(q + r, n) == Shl(q, n) + Shl(r, n)
    decreases n
  {
    if n > 0 {
      ShlAdd(q * 256, r * 256, n - 1);
    }
  }

  lemma AlignedNext(t: Trie, pa: seq<Ptr>, idx: int, id: int, n: int)
    requires Walk(t, pa, idx, id, n) && Aligned(t, id)
    ensures Aligned(t, Shl(Shr(id, n) + 1, n))
  {
    var q := Shr(id, n) + 1;
    var next := Shl(q, n);
    ShlGalois(id, q, n);
    forall m | 1 <= m <= t.layers && On(next, m - 1) !in t.at ensures Shl(Shr(next, m), m) == next {
      if m <= n {
        ShlSplit(q, n, m);
        ShrShl(Shl(q, n - m), m);
      } else {
        assert On(id, m - 1) in t.at;
        ShrMono(id, next, m);
        assert Shr(next, m) > Shr(id, m);
        var edge := Shl(Shr(next, m), m);
        ShlGalois(id, Shr(next, m), m);
        ShlGalois(next, Shr(next, m), m);
        // `edge` is a multiple of the span of `n` above `id`
        var e := Shl(Shr(next, m), m - n);
        ShlSplit(Shr(next, m), m, n);
        ShlGalois(id, e, n);
        ShrShl(e, n);
        assert Shr(id, n) < e;
        if edge < next {
          ShlGalois(edge, q, n);
        }
      }
    }
  }

  lemma AlignedStep(t: Trie, pa: seq<Ptr>, idx: int, id: int, n: int)
    requires Walk(t, pa, idx, id, n) && Aligned(t, id) && (n == 0 || On(id, n - 1) !in t.at)
    ensures id + Shl(1, n) == Shl(Shr(id, n) + 1, n)
  {
    ShlAdd(Shr(id, n), 1, n);
    if n > 0 {
      assert Shl(Shr(id, n), n) == id;
    }
  }

  lemma OneUp(id: int)
    ensures Shl(Shr(id, 0) + 1, 0) == id + 1
  {
  }

  lemma ZeroAligned(t: Trie)
    ensures Aligned(t, 0)
  {
    forall m: nat ensures Shl(Shr(0, m), m) == 0 {
      ShrZero(m);
      ShlZero(m);
    }
  }

  lemma {:induction false} ShlZero(m: nat)
    ensures Shl(0, m) == 0
    decreases m
  {
    if m > 0 {
      ShlZero(m - 1);
    }
  }

  // ---------- releasing the whole tree ----------

  /** One past the last id below a position. */
  function End(q: Pos): int {
    if q.level < 0 then 0 else Shl(q.key + 1, q.level + 1)
  }

  /** Released: the walk is past the layer's ids, or is popping its level off the stack. */
  predicate Dead(q: Pos, id: int, n0: int, n: int) {
    End(q) <= id || (q.level >= 0 && n0 <= q.level + 1 < n && q == On(id, q.level))
  }

  /** Exactly the layers not yet released are live, unchanged; the free list is untouched. */
  ghost predicate Remaining(t: Trie, heap: Heap, idFree: seq<Ptr>, id: int, n0: int, n: int)
    requires Placed(t)
  {
    && (forall q :: q in t.at ==>
           if Dead(q, id, n0, n) then t.at[q] !in heap else t.at[q] in heap && heap[t.at[q]] == t.heap[t.at[q]])
    && (forall p :: p in heap ==> p in t.at.Values || p in idFree)
    && (forall p :: p in idFree ==> p in heap && p !in t.at.Values && p in t.heap && heap[p] == t.heap[p])
  }

  lemma EndAfter(t: Trie, q: Pos)
    requires Placed(t) && q in t.at
    ensures End(q) > 0
  {
    ShlGalois(0, q.key + 1, q.level + 1);
    ShrZero(q.level + 1);
  }

  lemma NoneReleased(t: Trie, idFree: seq<Ptr>)
    requires Placed(t)
    requires forall p :: p in t.heap ==> p in t.at.Values || p in idFree
    requires forall p :: p in idFree ==> p in t.heap && p !in t.at.Values
    ensures Remaining(t, t.heap, idFree, 0, 0, 0)
  {
    forall q | q in t.at ensures !Dead(q, 0, 0, 0) { EndAfter(t, q); }
  }

  /** A layer on the path to `id` is still live before its level is popped. */
  lemma PathAlive(t: Trie, heap: Heap, idFree: seq<Ptr>, id: int, n0: int, n: int, l: nat)
    requires Placed(t) && Remaining(t, heap, idFree, id, n0, n) && On(id, l) in t.at && (l + 1 < n0 || n <= l + 1)
    ensures t.at[On(id, l)] in heap && heap[t.at[On(id, l)]] == t.heap[t.at[On(id, l)]]
  {
    ShlGalois(id, Shr(id, l + 1) + 1, l + 1);
  }

  lemma DeadStep(q: Pos, id: int, n0: int, n: nat)
    requires 0 < n && n0 <= n && q.level >= 0
    ensures Dead(q, id, n0, n + 1) <==> Dead(q, id, n0, n) || q == On(id, n - 1)
  {
  }

  /** Releasing the layer on the path at level `n - 1`. */
  lemma PopOne(t: Trie, heap: Heap, idFree: seq<Ptr>, id: int, n0: int, n: nat)
    requires Placed(t) && Remaining(t, heap, idFree, id, n0, n) && 0 < n && n0 <= n
    ensures On(id, n - 1) in t.at ==> Remaining(t, heap - {t.at[On(id, n - 1)]}, idFree, id, n0, n + 1)
    ensures On(id, n - 1) !in t.at ==> Remaining(t, heap, idFree, id, n0, n + 1)
  {
    hide End, Shr, Shl, Dead;
    var k := On(id, n - 1);
    forall q | q in t.at ensures Dead(q, id, n0, n + 1) <==> Dead(q, id, n0, n) || q == k {
      DeadStep(q, id, n0, n);
    }
    if k in t.at {
      assert t.at[k] in t.at.Values;
      forall q | q in t.at && q != k ensures t.at[q] != t.at[k] { }
    }
  }

  /** Above level `n`, only layers on the path can end between `id` and the next id. */
  lemma EndNext(id: int, n: nat, next: int, q: Pos)
    requires next == Shl(Shr(id, n) + 1, n) && q.level >= 0 && n <= q.level + 1
    ensures var k := q.level + 1; id < End(q) <= next <==> q == On(id, q.level) && Shr(next, k) != Shr(id, k)
    ensures id < next
  {
    var k := q.level + 1;
    ShlGalois(id, Shr(id, n) + 1, n);
    ShrShl(Shr(id, n) + 1, n);
    StepPrefix(id, n, k, next);
    ShlGalois(id, q.key + 1, k);
    ShlGalois(next, q.key + 1, k);
  }

  /** What the pops release is exactly what ends between `id` and the next id. */
  lemma DeadNext(t: Trie, id: int, n: nat, next: int, m: nat, q: Pos)
    requires Inv(t) && id >= 0 && 0 < n <= m && n <= t.layers && next == Shl(Shr(id, n) + 1, n) && q in t.at
    requires n == 1 || On(id, n - 1) !in t.at
    requires forall k :: n <= k < m ==> Shr(id, k) != Shr(next, k)
    requires Shr(id, m) == Shr(next, m) || m > t.layers
    ensures Dead(q, id, n, m) <==> End(q) <= next
  {
    Live(t, q);
    hide Inv, Shl, Shr;
    var k := q.level + 1;
    if k < n {
      DeadBelow(t, id, n, q);
    } else {
      EndNext(id, n, next, q);
      if m <= k {
        SharedPrefix(next, id, m, k);
      }
    }
  }

  lemma {:induction false} StepPrefix(id: int, n: nat, k: nat, next: int)
    requires n <= k && Shr(next, n) == Shr(id, n) + 1
    ensures Shr(next, k) == Shr(id, k) || Shr(next, k) == Shr(id, k) + 1
    decreases k
  {
    if n < k {
      StepPrefix(id, n, k - 1, next);
    }
  }

  /** Nothing is placed below a missing layer, so nothing there can end meanwhile. */
  lemma DeadBelow(t: Trie, id: int, n: nat, q: Pos)
    requires Inv(t) && n <= t.layers && id >= 0 && q in t.at && q.level + 1 < n && On(id, n - 1) !in t.at
    ensures End(q) <= id <==> End(q) <= Shl(Shr(id, n) + 1, n)
  {
    var k := q.level + 1;
    var e, next := End(q), Shl(Shr(id, n) + 1, n);
    ShlGalois(id, Shr(id, n) + 1, n);
    if id < e <= next {
      // the last id below q shares the prefix of id
      var j := Shl(q.key, k);
      ShrShl(q.key, k);
      ShlGalois(id, q.key + 1, k);
      assert On(j, q.level) == q;
      ShlGalois(j, q.key + 1, k);
      ShlGalois(j, Shr(id, n) + 1, n);
      PathUp(t, j, q.level, n - 1);
      assert Shr(j, n) != Shr(id, n);
      assert Shr(j, n) <= Shr(id, n);
      SpanInside(q.key, k, n, id);
      assert false;
    }
  }

  /** A span that ends after `id` but starts under an earlier prefix cannot exist. */
  lemma SpanInside(key: int, k: nat, n: nat, id: int)
    requires k <= n && Shr(Shl(key, k), n) < Shr(id, n)
    ensures Shl(key + 1, k) <= id
  {
    var j := Shl(key, k);
    ShrShl(key, k);
    if Shr(id, k) <= key {
      PrefixMono(Shr(id, k), key, n - k, id, j, k);
    }
    ShlGalois(id, key + 1, k);
  }

  lemma PrefixMono(a: int, b: int, d: nat, id: int, j: int, k: nat)
    requires a <= b && a == Shr(id, k) && b == Shr(j, k)
    ensures Shr(id, k + d) <= Shr(j, k + d)
  {
    ShrSplit(id, k, d);
    ShrSplit(j, k, d);
    ShrMono(a, b, d);
  }

  lemma {:induction false} ShrSplit(x: int, k: nat, d: nat)
    ensures Shr(x, k + d) == Shr(Shr(x, k), d)
  {
    if d > 0 {
      ShrSplit(x, k, d - 1);
      assert k + d - 1 == k + (d - 1);
    }
  }

  /** After the pops, what is left is what ends after the next id. */
  lemma RemainingNext(t: Trie, heap: Heap, idFree: seq<Ptr>, id: int, n: nat, next: int, m: nat)
    requires Inv(t) && id >= 0 && n <= m && n <= t.layers && next == Shl(Shr(id, n) + 1, n)
    requires n > 0 || t.layers == 0
    requires n <= 1 || On(id, n - 1) !in t.at
    requires forall k :: n <= k < m ==> Shr(id, k) != Shr(next, k)
    requires Shr(id, m) == Shr(next, m) || m > t.layers
    requires Remaining(t, heap, idFree, id, n, m)
    ensures Remaining(t, heap, idFree, next, 0, 0)
  {
    hide Inv, Shl, Shr, End;
    forall q | q in t.at ensures Dead(q, id, n, m) <==> Dead(q, next, 0, 0) {
      Live(t, q);
      DeadNext(t, id, n, next, m, q);
    }
  }

  lemma SamePops(t: Trie, heap: Heap, idFree: seq<Ptr>, id: int, n: int)
    requires Placed(t) && Remaining(t, heap, idFree, id, 0, 0)
    ensures Remaining(t, heap, idFree, id, n, n)
  {
    forall q | q in t.at ensures Dead(q, id, n, n) <==> Dead(q, id, 0, 0) { }
  }

  /** The walk's last step pops at most the top. */
  lemma LastPop(layers: int, id: nat, next: nat, m: nat)
    requires 0 <= layers <= 4 && 0 <= id <= IdrMax(layers) && next <= IdrMax(layers) + 1 && m > layers
    ensures FlsXor(next, id) <= 8 * m
  {
    FlsShr(next, id, m);
    IdrMaxBound(layers);
    if layers == 0 {
      InRange(id, 1);
      InRange(next, 1);
      SharedPrefix(id, next, 1, m);
    } else {
      ShlGalois(id, 1, layers + 1);
      ShlGalois(next, 1, layers + 1);
      ShlSplit(1, layers + 1, layers);
      ShrNonNeg(id, layers + 1);
      ShrNonNeg(next, layers + 1);
      ShlBig(layers);
      SharedPrefix(id, next, layers + 1, m);
    }
  }

  lemma ShlBig(layers: int)
    requires 0 < layers <= 4
    ensures IdrMax(layers) + 1 < Shl(1, layers + 1)
  {
    assert Shl(1, 1) == 256 && Shl(1, 2) == 65536 && Shl(1, 3) == 65536 * 256 && Shl(1, 4) == 65536 * 65536;
    assert Shl(1, 5) == Shl(256, 4) && Shl(256, 4) == 256 * 65536 * 65536;
  }

  /** At the end every layer has been released, except the top of a four-layer tree. */
  lemma AllReleased(t: Trie, heap: Heap, idFree: seq<Ptr>)
    requires Inv(t) && Remaining(t, heap, idFree, IdrMax(t.layers) + 1, 0, 0)
    ensures t.layers < 4 ==> heap.Keys == Elems(idFree)
    ensures t.layers == 4 ==> t.top in t.heap && heap.Keys == Elems(idFree) + {t.top} && heap[t.top] == t.heap[t.top]
  {
    forall q | q in t.at ensures End(q) <= IdrMax(t.layers) + 1 <==> !(t.layers == 4 && q == Pos(3, 0)) {
      EndInRange(t, q);
    }
    if t.layers == 4 {
      assert t.at[Pos(3, 0)] == t.top;
    }
    forall p | p in heap ensures p in idFree || (t.layers == 4 && p == t.top) {
      if p in t.at.Values {
        var q :| q in t.at && t.at[q] == p;
        assert !Dead(q, IdrMax(t.layers) + 1, 0, 0);
      }
    }
  }

  lemma EndInRange(t: Trie, q: Pos)
    requires Inv(t) && q in t.at
    ensures End(q) <= IdrMax(t.layers) + 1 <==> !(t.layers == 4 && q == Pos(3, 0))
  {
    var k := q.level + 1;
    var j := Shl(q.key, k);
    ShrShl(q.key, k);
    assert On(j, q.level) == q;
    PathUp(t, j, q.level, t.layers - 1);
    var last := End(q) - 1;
    ShlGalois(last, q.key + 1, k);
    ShlGalois(last, q.key, k);
    assert Shl(1, 1) == 256 && Shl(1, 2) == 65536 && Shl(1, 3) == 65536 * 256 && Shl(1, 4) == 65536 * 65536;
    ShlLess(q.key, k);
    assert Shr(last, k) == q.key;
    ShrNonNeg(last, k);
    if t.layers < 4 || q.level < 3 {
      SharedPrefix(last, j, k, t.layers);
      if t.layers == 4 {
        PathUp(t, j, q.level, 2);
        KidOnPath(j, 3);
        SharedPrefix(last, j, k, 3);
      }
      InRange(last, t.layers);
    }
  }

  lemma {:induction false} ShlLess(q: int, k: nat)
    ensures Shl(q, k) < Shl(q + 1, k)
  {
    ShlGalois(Shl(q, k), q + 1, k);
    ShrShl(q, k);
  }

  /** Ids on a leaf's border. */
  predicate OnBorder(id: int) {
    id % 256 == 0
  }

  lemma BorderNext(id: int, n: nat)
    requires n >= 1
    ensures OnBorder(Shl(Shr(id, n) + 1, n))
  {
    ShlSplit(Shr(id, n) + 1, n, 1);
    assert Shl(Shl(Shr(id, n) + 1, n - 1), 1) == 256 * Shl(Shr(id, n) + 1, n - 1);
  }

  lemma BorderStep(t: Trie, id: int, n: nat)
    requires 1 <= n <= t.layers && Aligned(t, id) && OnBorder(id) && (n == 1 || On(id, n - 1) !in t.at)
    ensures id + Shl(1, n) == Shl(Shr(id, n) + 1, n)
  {
    ShlAdd(Shr(id, n), 1, n);
    if n == 1 {
      assert Shr(id, 1) == id / 256 && Shl(id / 256, 1) == id / 256 * 256;
    } else {
      assert Shl(Shr(id, n), n) == id;
    }
  }

  lemma ZeroBorder()
    ensures OnBorder(0)
  {
  }

  lemma WalkAt(t: Trie, pa: seq<Ptr>, idx: int, id: int, n: int)
    requires Walk(t, pa, idx, id, n) && n > 0 && pa[idx] != NULL
    ensures On(id, n - 1) in t.at && pa[idx] == t.at[On(id, n - 1)]
  {
    assert pa[idx] == Found(t, id, n - 1);
  }

  /** What the stack holds at a level above the walk. */
  lemma StackAt(t: Trie, pa: seq<Ptr>, idx0: int, id: int, n0: int, idx: int)
    requires Walk(t, pa, idx0, id, n0) && 0 <= idx <= idx0
    ensures pa[idx] == Found(t, id, t.layers - 1 - idx)
    ensures t.layers == 0 ==> pa[idx] == NULL
    ensures idx < t.layers ==>
        pa[idx] == NodeAt(t, On(id, t.layers - 1 - idx)) && (pa[idx] == NULL <==> On(id, t.layers - 1 - idx) !in t.at)
  {
    AllLive(t);
    if t.layers == 0 {
      HeldInRange(t, id);
    }
  }

  lemma PopNone(t: Trie, heap: Heap, idFree: seq<Ptr>, id: int, n0: int, n: nat)
    requires Inv(t) && t.layers == 0 && Remaining(t, heap, idFree, id, n0, n)
    ensures Remaining(t, heap, idFree, id, n0, n + 1)
  {
  }

  lemma WalkChanged(t: Trie, pa: seq<Ptr>, idx: int, id: int, n: nat, next: int, m: nat)
    requires Walk(t, pa, idx, id, n) && next == Shl(Shr(id, n) + 1, n) && id < next <= IdrMax(t.layers)
    requires n <= m && Shr(id, m) == Shr(next, m) && forall k :: n <= k < m ==> Shr(id, k) != Shr(next, k)
    ensures Walk(t, pa, idx + n - m, next, m)
  {
    WalkFacts(t, pa, idx, id, n);
    PopsInside(t, pa, idx, id, n, next, m);
    WalkPop(t, pa, idx, id, n, next, m);
  }

  lemma PopsInside(t: Trie, pa: seq<Ptr>, idx: int, id: int, n: nat, next: int, m: nat)
    requires Walk(t, pa, idx, id, n) && id < next <= IdrMax(t.layers)
    requires n <= m && Shr(id, m) == Shr(next, m) && forall k :: n <= k < m ==> Shr(id, k) != Shr(next, k)
    ensures m <= t.layers && 0 < m
  {
    if t.layers == 0 {
      assert false;
    }
    InRange(next, t.layers);
    InRange(id, t.layers);
    assert Shr(id, t.layers) == Shr(next, t.layers);
  }

  lemma LeafOrMissing(t: Trie, pa: seq<Ptr>, idx: int, id: int, n: nat)
    requires Walk(t, pa, idx, id, n) && (n <= 1 || On(id, n - 1) !in t.at)
    ensures n <= 3
  {
    if n == 4 {
      OnRoot(t, id);
    }
  }

  lemma RoundUp(t: Trie, pa: seq<Ptr>, idx: int, id: int, n: nat)
    requires Walk(t, pa, idx, id, n) && n <= 3 && Aligned(t, id) && OnBorder(id) && (n <= 1 || On(id, n - 1) !in t.at)
    requires t.layers > 0 ==> n > 0
    ensures var next := Shl(Shr(id, n) + 1, n);
            && id + Shl(1, n) == next && id < next <= MAX_IDR_BIT && next <= IdrMax(t.layers) + 1
            && (next <= IdrMax(t.layers) ==> Aligned(t, next) && OnBorder(next))
  {
    NextUp(t, id, n);
    if t.layers == 0 {
      assert n == 0 && IdrMax(0) == 0;
    } else {
      BorderStep(t, id, n);
      BorderNext(id, n);
      AlignedNext(t, pa, idx, id, n);
      EndOfRange(t, id, n);
    }
  }

  /** Rounding up stays at most one past the range. */
  lemma EndOfRange(t: Trie, id: int, n: nat)
    requires 0 < t.layers <= 4 && 0 <= id <= IdrMax(t.layers) && 0 < n <= t.layers && n <= 3
    ensures Shl(Shr(id, n) + 1, n) <= IdrMax(t.layers) + 1
  {
    NextUp(t, id, n);
    if t.layers < 4 {
      var q := Shl(1, t.layers - n);
      ShlSplit(1, t.layers, t.layers - n);
      ShlCommute(t.layers, n);
      ShlGalois(id, q, n);
      ShlLeq(Shr(id, n) + 1, q, n);
    }
  }

  lemma ShlCommute(a: nat, n: nat)
    requires n <= a
    ensures Shl(Shl(1, a - n), n) == Shl(1, a)
  {
    ShlSplit(1, a, n);
  }

  lemma {:induction false} ShlLeq(p: int, q: int, n: nat)
    requires p <= q
    ensures Shl(p, n) <= Shl(q, n)
    decreases n
  {
    if n > 0 {
      ShlLeq(p * 256, q * 256, n - 1);
    }
  }
}
