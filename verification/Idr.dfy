/** The id tree as a mutable object: allocation, lookup, replacement and removal. */
module IdMap {
  import opened IdrTrie
  import W = IdrWalk

  /** A C int. */
  type Int32 = x: int | -0x8000_0000 <= x < 0x8000_0000

  const MAX_IDR_FREE := 8
  const EAGAIN := -11
  const ENOMEM := -12
  const EINVAL := -22
  const ENOSPC := -28
  const ENOENT := -2

  /** Truncation to a signed 32-bit int of a value that overshoots by at most one range. */
  function Wrap(x: int): (r: int) {
    if x >= MAX_IDR_BIT then x - 2 * MAX_IDR_BIT else x
  }

  /** id & idr_layer_prefix_mask(layer), for a non-negative id */
  function PrefixOf(id: int, layer: nat): int {
    if layer < 3 then Shl(Shr(id, layer + 1), layer + 1) else 0
  }

  function Pow2(n: nat): (r: nat)
    ensures r > 0
  {
    if n == 0 then 1 else 2 * Pow2(n - 1)
  }

  /** Eight bits a layer, but no more than 31. */
  function Bits(layers: nat): nat {
    if layers * 8 < 31 then layers * 8 else 31
  }

  lemma IdrMaxBits(layers: nat)
    ensures IdrMax(layers) == Pow2(Bits(layers)) - 1
  {
    hide Pow2, Shl;
    Powers();
    ShlMul(1);
    if layers == 0 { PowZero(); }
  }

  /** The prefix is the id without the bits below the layer; ids with one prefix share their path down to the layer. */
  lemma SamePrefix(x: int, y: int, layer: nat)
    requires 0 <= x < MAX_IDR_BIT && 0 <= y < MAX_IDR_BIT && layer < 4
    ensures PrefixOf(x, layer) == x - x % Pow2(Bits(layer + 1))
    ensures PrefixOf(x, layer) == PrefixOf(y, layer) <==> forall m :: m >= layer ==> On(x, m) == On(y, m)
  {
    PrefixLow(x, layer);
    PrefixLow(y, layer);
    if PrefixOf(x, layer) == PrefixOf(y, layer) {
      forall m | m >= layer ensures On(x, m) == On(y, m) {
        SharedPrefix(x, y, layer + 1, m + 1);
      }
    } else {
      assert On(x, layer) != On(y, layer);
    }
  }

  lemma PrefixLow(x: int, layer: nat)
    requires 0 <= x < MAX_IDR_BIT && layer < 4
    ensures PrefixOf(x, layer) == x - x % Pow2(Bits(layer + 1))
    ensures layer < 3 ==> PrefixOf(x, layer) == Shr(x, layer + 1) * Pow2(Bits(layer + 1))
    ensures layer == 3 ==> PrefixOf(x, layer) == 0 == Shr(x, 4)
  {
    hide Pow2, Shl, Shr;
    Powers();
    ShrDiv(x);
    ShlMul(Shr(x, layer + 1));
    if layer == 3 { InRange(x, 4); }
  }

  lemma Powers()
    ensures Pow2(8) == 0x100 && Pow2(16) == 0x1_0000 && Pow2(24) == 0x100_0000 && Pow2(31) == MAX_IDR_BIT
  {
    assert Pow2(8) == 0x100;
    assert Pow2(12) == 0x1000;
    assert Pow2(16) == 0x1_0000;
    assert Pow2(20) == 0x10_0000;
    assert Pow2(24) == 0x100_0000;
    assert Pow2(28) == 0x1000_0000;
  }

  lemma PowZero()
    ensures Pow2(0) == 1
  {
  }

  lemma ShrDiv(x: int)
    ensures Shr(x, 1) == x / 0x100 && Shr(x, 2) == x / 0x1_0000 && Shr(x, 3) == x / 0x100_0000
  {
    assert Shr(x, 1) == Shr(x, 0) / 256 && Shr(x, 2) == Shr(x, 1) / 256 && Shr(x, 3) == Shr(x, 2) / 256;
  }

  lemma ShlMul(q: int)
    ensures Shl(q, 1) == q * 0x100 && Shl(q, 2) == q * 0x1_0000 && Shl(q, 3) == q * 0x100_0000
  {
  }

  /** The least clear bit at or after `offset`, or `size` when there is none. */
  method FindNextZeroBit(bitmap: seq<bool>, offset: nat) returns (m: nat)
    requires offset <= |bitmap|
    ensures offset <= m <= |bitmap|
    ensures forall i :: offset <= i < m ==> bitmap[i]
    ensures m < |bitmap| ==> !bitmap[m]
  {
    m := offset;
    while m < |bitmap| && bitmap[m]
      invariant offset <= m <= |bitmap|
      invariant forall i :: offset <= i < m ==> bitmap[i]
    {
      m := m + 1;
    }
  }

  /** `id` is the least id from `start` on that is not taken. */
  ghost predicate LeastFree(t: Trie, start: int, id: int)
    requires Placed(t)
  {
    start <= id && !Taken(t, id) && forall j :: start <= j < id ==> Taken(t, j)
  }

  /** `pa` holds the layers on the path to `id`, from the leaf to the top, then null. */
  ghost predicate PathTo(t: Trie, pa: seq<Ptr>, id: int, from: nat)
    requires |pa| == 5
  {
    && 0 <= t.layers <= 4 && pa[t.layers] == NULL
    && forall j :: from <= j < t.layers ==> On(id, j) in t.at && pa[j] == t.at[On(id, j)]
  }

  /** The layer cache can always supply a new address. */
  lemma {:induction false} FreshExists(used: set<Ptr>)
    ensures exists p: Ptr :: p != NULL && p !in used
  {
    var b := UpperBound(used);
    assert b + 1 !in used;
  }

  lemma {:induction false} UpperBound(used: set<Ptr>) returns (b: nat)
    ensures forall p :: p in used ==> p <= b
    decreases |used|
  {
    if used == {} {
      b := 0;
    } else {
      var p :| p in used;
      b := UpperBound(used - {p});
      assert forall q :: q in used ==> q == p || q in used - {p};
      b := if b < p then p else b;
    }
  }

  /** The free list holds distinct blank layers outside the tree, and every live layer
      is in the tree, on the free list, or in the caller's hands (`spare`). */
  ghost predicate Stock(heap: Heap, at: Shape, idFree: seq<Ptr>, spare: set<Ptr>) {
    && (forall i :: 0 <= i < |idFree| ==>
          idFree[i] != NULL && idFree[i] in heap && idFree[i] !in at.Values && Blank(heap[idFree[i]]))
    && (forall i, j :: 0 <= i < j < |idFree| ==> idFree[i] != idFree[j])
    && (forall p :: p in heap ==> p in at.Values || p in idFree || p in spare)
  }

  /** Rewriting layers that are not on the free list. */
  lemma StockWrite(heap: Heap, heap': Heap, at: Shape, idFree: seq<Ptr>, spare: set<Ptr>)
    requires Stock(heap, at, idFree, spare) && heap'.Keys == heap.Keys
    requires forall p :: p in idFree && p in heap ==> heap'[p] == heap[p]
    ensures Stock(heap', at, idFree, spare)
  {
  }

  /** Placing the spare layer in the tree. */
  lemma StockPlace(heap: Heap, at: Shape, idFree: seq<Ptr>, p: Ptr, q: Pos)
    requires Stock(heap, at, idFree, {p}) && p !in idFree && q !in at
    ensures Stock(heap, at[q := p], idFree, {})
  {
    ShapeValues(at, q, p);
  }

  lemma Shallow(t: Trie)
    requires Inv(t)
    ensures 0 <= t.layers <= 4 && (t.layers == 0 <==> t.top == NULL)
  {
    if t.layers > 0 {
      Live(t, Pos(t.layers - 1, 0));
    }
  }

  /** From the candidate on, no slot of this layer is free: the search moves past it. */
  lemma PastLayer(t: Trie, id: int, l: nat)
    requires Inv(t) && l < t.layers && 0 <= id <= IdrMax(t.layers) && On(id, l) in t.at
    requires forall i :: Slot(id, l) <= i < 256 ==> t.heap[t.at[On(id, l)]].bitmap[i]
    ensures var next := Shl(Shr(id, l + 1) + 1, l + 1);
            && id < next <= IdrMax(t.layers) + 1
            && (forall j :: id <= j < next ==> Taken(t, j))
            && (l + 1 < t.layers || (t.layers < 4 && next == IdrMax(t.layers) + 1))
  {
    var next := Shl(Shr(id, l + 1) + 1, l + 1);
    Skip(t, id, l, 256);
    Jump(id, l, 256);
    InRange(id, t.layers);
    if l + 1 == t.layers {
      if t.layers == 4 {
        TopHalf(t);
      }
    } else {
      ShrShl(Shr(id, l + 1) + 1, l + 1);
      TopOfRange(next, id, l + 1, t.layers);
    }
  }

  /** The upper half of a four-layer top is never used. */
  lemma TopHalf(t: Trie)
    requires Inv(t) && t.layers == 4
    ensures t.top in t.heap && Formed(t.heap[t.top]) && !t.heap[t.top].bitmap[128]
    ensures Slot(-MAX_IDR_BIT, 3) == 128
  {
    SlotOf(t, Pos(3, 0), 128);
    assert Shr(-MAX_IDR_BIT, 1) == -0x80_0000;
    assert Shr(-MAX_IDR_BIT, 2) == -0x8000;
  }

  /** Rounding up inside the tree's range stays at most one past its end. */
  lemma TopOfRange(next: int, id: int, l: nat, layers: int)
    requires 1 <= l < layers <= 4 && 0 <= id <= IdrMax(layers) && next == Shl(Shr(id, l) + 1, l)
    ensures next <= IdrMax(layers) + 1
  {
    // the range's end is a multiple of every span below it
    var end := if layers < 4 then Shl(1, layers) else Shl(128, 3);
    assert Shl(128, 3) == MAX_IDR_BIT;
    var q := if layers < 4 then Shl(1, layers - l) else Shl(128, 3 - l);
    assert Shl(1, 1) == 256 && Shl(1, 2) == 65536 && Shl(128, 1) == 32768 && Shl(128, 2) == 32768 * 256;
    assert Shl(q, l) == end;
    ShlGalois(id, q, l);
    if next > end {
      ShlGalois(end, Shr(id, l) + 1, l);
      ShrShl(q, l);
    }
  }

  lemma LayersOf(t: Trie)
    requires Inv(t)
    ensures Placed(t) && 0 <= t.layers <= 4
  {
  }

  /** The search moves to the clear slot `m` of the same layer. */
  lemma MoveTo(t: Trie, id: int, l: nat, m: int)
    requires Inv(t) && l < t.layers && 0 <= id <= IdrMax(t.layers) && On(id, l) in t.at
    requires Slot(id, l) < m < 256
    requires forall i :: Slot(id, l) <= i < m ==> t.heap[t.at[On(id, l)]].bitmap[i]
    ensures var next := Shl(Shr(id, l) - Slot(id, l) + m, l);
            && id < next && (forall j :: id <= j < next ==> Taken(t, j))
            && (next <= IdrMax(t.layers) || next == MAX_IDR_BIT)
            && Shr(next, l + 1) == Shr(id, l + 1) && Slot(next, l) == m
  {
    var next := Shl(Shr(id, l) - Slot(id, l) + m, l);
    LayersOf(t);
    hide Inv, Placed, Taken;
    Skip(t, id, l, m);
    Jump(id, l, m);
    InRange(id, t.layers);
    InRange(next, t.layers);
    SharedPrefix(next, id, l + 1, t.layers);
    if t.layers == 4 {
      if l == 3 {
        TopHalf(t);
        assert m <= 128;
        assert next == Shl(m, 3);
        assert Shl(128, 3) == MAX_IDR_BIT;
      } else {
        SharedPrefix(next, id, l + 1, 3);
      }
    }
  }

  lemma SamePath(t: Trie, pa: seq<Ptr>, id: int, next: int, l: nat, from: nat)
    requires |pa| == 5 && PathTo(t, pa, id, from) && Shr(id, l) == Shr(next, l) && l <= from + 1
    ensures PathTo(t, pa, next, from)
  {
    forall j | from <= j < t.layers ensures On(next, j) == On(id, j) {
      SharedPrefix(id, next, l, j + 1);
    }
  }

  lemma LeafFacts(t: Trie, id: int)
    requires Placed(t) && id >= 0 && On(id, 0) in t.at
    ensures t.at[On(id, 0)] in t.heap && Formed(t.heap[t.at[On(id, 0)]])
    ensures Taken(t, id) == t.heap[t.at[On(id, 0)]].bitmap[Slot(id, 0)]
    ensures Held(t, id) == t.heap[t.at[On(id, 0)]].ary[Slot(id, 0)]
  {
  }

  lemma SameTaken(t: Trie, u: Trie)
    requires Placed(t) && Placed(u) && Same(t, u)
    ensures forall j :: Taken(u, j) == Taken(t, j)
  {
  }

  /** The state of the search: the layer `p` at level `l` is on the path to the candidate, all
      ids skipped so far are taken, and `pa` holds the layers above. A candidate that
      reached 2^31 has wrapped and stands at the top of a four-layer tree. */
  ghost predicate Searching(t: Trie, pa: seq<Ptr>, start: int, id: int, p: Ptr, l: nat) {
    && Inv(t) && |pa| == 5 && 0 <= t.layers <= 4 && l < t.layers && p != NULL && pa[t.layers] == NULL
    && p in t.heap && Formed(t.heap[p])
    && if id < 0 then
         && id == -MAX_IDR_BIT && t.layers == 4 && l == 3 && p == t.top
         && forall j :: start <= j < MAX_IDR_BIT ==> Taken(t, j)
       else
         && id <= IdrMax(t.layers) && start <= id
         && PathTo(t, pa, id, l + 1) && On(id, l) in t.at && p == t.at[On(id, l)]
         && forall j :: start <= j < id ==> Taken(t, j)
  }

  lemma StartSearch(t: Trie, pa: seq<Ptr>, start: int)
    requires Inv(t) && t.layers > 0 && 0 <= start <= IdrMax(t.layers) && |pa| == 5 && pa[t.layers] == NULL
    ensures Searching(t, pa, start, start, t.top, t.layers - 1)
  {
    OnRoot(t, start);
  }

  lemma SearchFacts(t: Trie, pa: seq<Ptr>, start: int, id: int, p: Ptr, l: nat)
    requires Searching(t, pa, start, id, p, l)
    ensures p in t.heap && Formed(t.heap[p]) && l < t.layers && |pa| == 5
    ensures id < MAX_IDR_BIT
    ensures id >= 0 ==> On(id, l) in t.at && p == t.at[On(id, l)]
    ensures id < 0 ==> forall j :: start <= j < MAX_IDR_BIT ==> Taken(t, j)
  {
    Shallow(t);
    IdrMaxBound(t.layers);
  }

  /** The search moves to the clear slot `m`, or finds that it wrapped. */
  lemma Across(t: Trie, pa: seq<Ptr>, start: int, id: int, p: Ptr, l: nat, m: nat)
    requires Searching(t, pa, start, id, p, l) && Slot(id, l) < m < 256
    requires forall i :: Slot(id, l) <= i < m ==> t.heap[p].bitmap[i]
    ensures var next := Wrap(Shl(Shr(id, l) - Slot(id, l) + m, l));
            if next < 0 then forall j :: start <= j < MAX_IDR_BIT ==> Taken(t, j)
            else Searching(t, pa, start, next, p, l) && Slot(next, l) == m && 0 <= id < next
  {
    if id < 0 {
      TopHalf(t);
    } else {
      MoveTo(t, id, l, m);
      IdrMaxBound(t.layers);
      var next := Shl(Shr(id, l) - Slot(id, l) + m, l);
      if next < MAX_IDR_BIT {
        SamePath(t, pa, id, next, l + 1, l + 1);
      }
    }
  }

  /** At a leaf, the clear slot is the least free id. */
  lemma Found(t: Trie, pa: seq<Ptr>, start: int, id: int, p: Ptr)
    requires Searching(t, pa, start, id, p, 0) && id >= 0 && !t.heap[p].bitmap[Slot(id, 0)]
    ensures id <= IdrMax(t.layers) && LeastFree(t, start, id) && PathTo(t, pa[0 := p], id, 0)
    ensures Blank(t.heap[p]) ==> Held(t, id) == NULL
  {
  }

  /** The least free id from `start` on has nothing at its slot. */
  ghost predicate Missing(t: Trie, start: int) {
    Placed(t) && exists j :: LeastFree(t, start, j) && Held(t, j) == NULL
  }

  /** The search stops where a layer is missing on the path of the least free id. */
  lemma MissingHere(t: Trie, u: Trie, pa: seq<Ptr>, start: int, id: int, p: Ptr, l: nat)
    requires Searching(t, pa, start, id, p, l) && id >= 0 && l > 0
    requires Inv(u) && Same(t, u) && u.layers == t.layers && On(id, l - 1) !in u.at
    ensures Missing(u, start)
  {
    SameTaken(t, u);
    NothingHeld(u, id, l - 1);
    hide Inv, Same, Taken, Held;
    assert LeastFree(u, start, id);
  }

  lemma MissingAbove(t: Trie, start: int, id: int)
    requires Inv(t) && 0 <= start <= id && (t.layers == 0 || id > IdrMax(t.layers))
    requires forall j :: start <= j < id ==> Taken(t, j)
    ensures Missing(t, start)
  {
    HeldInRange(t, id);
    assert LeastFree(t, start, id);
  }

  lemma MissingFrom(t: Trie, start: int, id: int)
    requires Missing(t, id) && start <= id
    requires Placed(t) && forall j :: start <= j < id ==> Taken(t, j)
    ensures Missing(t, start)
  {
    var j :| LeastFree(t, id, j) && Held(t, j) == NULL;
    hide Taken;
    assert LeastFree(t, start, j);
  }

  lemma Below(t: Trie, u: Trie, pa: seq<Ptr>, start: int, id: int, p: Ptr, l: nat, c: Ptr)
    requires Searching(t, pa, start, id, p, l) && id >= 0 && l > 0
    requires Inv(u) && Same(t, u) && u.layers == t.layers && forall q :: q in t.at ==> q in u.at && u.at[q] == t.at[q]
    requires On(id, l - 1) in u.at && c == u.at[On(id, l - 1)]
    ensures Searching(u, pa[l := p], start, id, c, l - 1)
  {
    hide Inv, Placed, Same, Taken;
    SameTaken(t, u);
    Live(u, On(id, l - 1));
  }

  lemma AtTop(t: Trie)
    requires Inv(t) && t.layers > 0
    ensures t.top != NULL && t.top in t.heap && Formed(t.heap[t.top])
  {
    Live(t, Pos(t.layers - 1, 0));
  }

  lemma OnPathLive(t: Trie, pa: seq<Ptr>, id: int, l: nat)
    requires Inv(t) && |pa| == 5 && PathTo(t, pa, id, l) && l < t.layers
    ensures pa[l] in t.heap && Formed(t.heap[pa[l]]) && pa[l] != NULL
  {
  }

  function Under(top: Ptr, added: seq<Ptr>, i: nat): Ptr
    requires i <= |added|
  {
    if i == 0 then top else added[i - 1]
  }

  /** Layers stacked on the old top, each holding the one below in its first slot only. */
  ghost predicate Chain(heap: Heap, top: Ptr, added: seq<Ptr>) {
    && top !in added
    && (forall i :: 0 <= i < |added| ==>
          && added[i] != NULL && added[i] in heap && Formed(heap[added[i]])
          && heap[added[i]].ary[0] == Under(top, added, i)
          && forall j :: 1 <= j < 256 ==> heap[added[i]].ary[j] == NULL)
    && (forall i, j :: 0 <= i < j < |added| ==> added[i] != added[j])
  }

  /** A spare layer goes, cleared, to the front of the free list. */
  lemma StockReturn(heap: Heap, heap': Heap, at: Shape, idFree: seq<Ptr>, spare: set<Ptr>, p: Ptr)
    requires Stock(heap, at, idFree, spare) && p != NULL && p !in at.Values && p !in idFree
    requires p in heap' && heap' == heap[p := heap'[p]] && Blank(heap'[p])
    ensures Stock(heap', at, [p] + idFree, spare - {p})
  {
    var free' := [p] + idFree;
    forall i | 0 <= i < |free'|
      ensures free'[i] != NULL && free'[i] in heap' && free'[i] !in at.Values && Blank(heap'[free'[i]])
    {
      if i > 0 { assert free'[i] == idFree[i - 1]; }
    }
    forall x | x in heap' ensures x in at.Values || x in free' || x in spare - {p} {
      if x == p {
        assert free'[0] == p;
      } else if x in idFree {
        var i :| 0 <= i < |idFree| && idFree[i] == x;
        assert free'[i + 1] == x;
      }
    }
  }

  /** The chain without its topmost layer. */
  lemma PopChain(heap: Heap, n: Layer, top: Ptr, left: seq<Ptr>, last: Ptr)
    requires Chain(heap, top, left + [last])
    ensures Chain(heap[last := n], top, left)
    ensures Elems(left + [last]) - {last} == Elems(left) && last !in left
  {
    var all := left + [last];
    assert all[|left|] == last;
    forall i | 0 <= i < |left|
      ensures left[i] != NULL && left[i] in heap && Formed(heap[left[i]]) && left[i] != last && left[i] != top
      ensures heap[left[i]].ary[0] == Under(top, left, i) && forall j :: 1 <= j < 256 ==> heap[left[i]].ary[j] == NULL
    {
      assert left[i] == all[i];
      assert Under(top, left, i) == Under(top, all, i);
    }
    forall i, j | 0 <= i < j < |left| ensures left[i] != left[j] {
      assert left[i] == all[i] && left[j] == all[j];
    }
  }

  /** Growth being undone: `left` is still stacked on the top, the rest is back on the free list. */
  ghost predicate Tearing(heap: Heap, at: Shape, top: Ptr, idFree: seq<Ptr>, left: seq<Ptr>) {
    && Stock(heap, at, idFree, Elems(left)) && Chain(heap, top, left)
    && forall i :: 0 <= i < |left| ==> left[i] !in at.Values && left[i] !in idFree
  }

  lemma ChainTop(heap: Heap, at: Shape, top: Ptr, idFree: seq<Ptr>, added: seq<Ptr>)
    requires Tearing(heap, at, top, idFree, added) && added != []
    ensures var last := added[|added| - 1];
            && last in heap && Formed(heap[last]) && last != top && last != NULL
            && heap[last].ary[0] == Under(top, added, |added| - 1)
            && forall j :: 1 <= j < 256 ==> heap[last].ary[j] == NULL
  {
    var k := |added| - 1;
    assert heap[added[k]].ary[0] == Under(top, added, k);
  }

  lemma TornDown(heap: Heap, at: Shape, top: Ptr, idFree: seq<Ptr>)
    requires Tearing(heap, at, top, idFree, [])
    ensures Stock(heap, at, idFree, {})
  {
    assert Elems([]) == {};
  }

  lemma Cleared(n: Layer)
    requires Formed(n) && forall j :: 1 <= j < 256 ==> n.ary[j] == NULL
    ensures Blank(n.(ary := n.ary[0 := NULL], count := 0, bitmap := seq(256, _ => false)))
  {
  }

  lemma Tear(heap: Heap, n: Layer, at: Shape, top: Ptr, idFree: seq<Ptr>, left: seq<Ptr>, last: Ptr)
    requires Tearing(heap, at, top, idFree, left + [last]) && Blank(n)
    ensures Tearing(heap[last := n], at, top, [last] + idFree, left)
  {
    var all := left + [last];
    assert all[|left|] == last;
    PopChain(heap, n, top, left, last);
    StockReturn(heap, heap[last := n], at, idFree, Elems(all), last);
    forall i | 0 <= i < |left| ensures left[i] !in at.Values && left[i] !in [last] + idFree {
      assert left[i] == all[i];
    }
  }

  /** What is held at an id was held before, inside the old range. */
  lemma NewHere(t: Trie, u: Trie, id: int)
    requires Inv(t) && Placed(u) && Same(t, u)
    ensures Held(u, id) != NULL ==> t.layers > 0 && id <= IdrMax(t.layers)
  {
    assert Held(u, id) == Held(t, id);
    if t.layers == 0 || id > IdrMax(t.layers) {
      HeldInRange(t, id);
    }
  }

  /** The path array after the walk up: everything the marking loop needs at level `l`. */
  lemma PendingFacts(t: Trie, id: int, l: nat)
    requires Pending(t, id, l)
    ensures On(id, l) in t.at && t.at[On(id, l)] in t.heap && Formed(t.heap[t.at[On(id, l)]]) && l < t.layers <= 4
    ensures t.at[On(id, l)] != NULL
  {
  }

  lemma StockBit(heap: Heap, at: Shape, idFree: seq<Ptr>, q: Pos, n: Layer)
    requires Stock(heap, at, idFree, {}) && q in at && at[q] in heap
    ensures Stock(heap[at[q] := n], at, idFree, {})
  {
    assert at[q] in at.Values;
  }

  /** The exclusive upper limit that `end` stands for. */
  function Limit(end: Int32): int {
    if end > 0 then end else MAX_IDR_BIT
  }

  lemma InContents(t: Trie)
    requires Inv(t)
    ensures forall j :: j in Bindings(t) <==> Taken(t, j)
  {
    forall j | Taken(t, j) ensures j in Bindings(t) {
      TakenInRange(t, j);
    }
  }

  // ---------- growth at the top ----------

  /** While the tree grows from `t0`, `u` is the tree under the new top and `added` its new layers. */
  ghost predicate Climbing(t0: Trie, u: Trie, idFree: seq<Ptr>, added: seq<Ptr>) {
    && Inv(t0) && Inv(u) && Same(t0, u) && u.layers >= 1 && u.top in u.heap && u.chunked == t0.chunked
    && Stock(u.heap, t0.at, idFree, Elems(added)) && u.at.Values == t0.at.Values + Elems(added)
    && (forall i :: 0 <= i < |added| ==> added[i] !in t0.at.Values && added[i] !in idFree)
    && |added| <= (if t0.layers == 0 then 1 else u.layers - t0.layers)
    && (u.heap[u.top].count != 0 ==>
          && t0.layers > 0 && u.top == Under(t0.top, added, |added|)
          && Chain(u.heap, t0.top, added)
          && forall q :: q in t0.at ==> t0.at[q] in u.heap && u.heap[t0.at[q]] == t0.heap[t0.at[q]])
  }

  lemma ClimbFacts(t0: Trie, u: Trie, idFree: seq<Ptr>, added: seq<Ptr>)
    requires Climbing(t0, u, idFree, added)
    ensures Inv(u) && 1 <= u.layers <= 4 && u.top != NULL && u.top in u.heap && Formed(u.heap[u.top])
    ensures Stock(u.heap, t0.at, idFree, Elems(added)) && forall q :: q in t0.at ==> t0.at[q] in u.heap
    ensures |added| <= (if t0.layers == 0 then 1 else u.layers - t0.layers)
  {
    hide Linked, Marked, Counted, Chain, Same, Stock;
    Live(u, Pos(u.layers - 1, 0));
    forall q | q in t0.at ensures t0.at[q] in u.heap {
      assert t0.at[q] in u.at.Values;
      var r :| r in u.at && u.at[r] == t0.at[q];
    }
  }

  lemma ClimbBase(t0: Trie, u: Trie, idFree: seq<Ptr>, added: seq<Ptr>)
    requires Climbing(t0, u, idFree, added)
    ensures Inv(t0)
  {
  }

  lemma CanGrow(id: int, layers: int)
    requires IdrMax(layers) < id < MAX_IDR_BIT && layers <= 4
    ensures layers < 4
  {
  }

  lemma ClimbStart(t: Trie, idFree: seq<Ptr>)
    requires Inv(t) && t.layers > 0 && Stock(t.heap, t.at, idFree, {})
    ensures Climbing(t, t, idFree, [])
  {
    AtTop(t);
    assert Elems([]) == {};
    assert t.top in t.at.Values;
  }

  lemma ClimbSprout(t: Trie, heap: Heap, idFree: seq<Ptr>, p: Ptr)
    requires Inv(t) && t.layers == 0 && p != NULL && p in heap && p !in idFree
    requires Stock(heap, t.at, idFree, {p})
    requires Blank(heap[p]) && heap[p].layer == 0 && (!t.chunked ==> heap[p].prefix == 0)
    ensures Climbing(t, Trie(heap, map[Pos(0, 0) := p], p, 1, t.chunked), idFree, [p])
  {
    var u := t.(heap := t.heap[p := heap[p]], at := map[Pos(0, 0) := p], top := p, layers := 1);
    Sprout(t, p, heap[p]);
    var v := Trie(heap, map[Pos(0, 0) := p], p, 1, t.chunked);
    Frame(u, v);
    SameTrans(t, u, v);
    assert t.at == map[];
    assert Elems([p]) == {p};
    assert v.at[Pos(0, 0)] == p;
    assert v.at.Values == {p};
  }

  lemma ClimbRaise(t0: Trie, u: Trie, idFree: seq<Ptr>, added: seq<Ptr>)
    requires Climbing(t0, u, idFree, added) && u.layers < 4 && u.heap[u.top].count == 0
    ensures Climbing(t0, Raised(u), idFree, added)
  {
    hide Linked, Marked, Chain;
    var v := Raised(u);
    NoCount(u.heap[u.top], Pos(u.layers - 1, 0), u.chunked);
    LoneTop(u);
    Raise(u);
    SameTrans(t0, u, v);
    assert u.at[Pos(u.layers - 1, 0)] == u.top;
    assert v.at[Pos(u.layers, 0)] == u.top;
    assert v.at.Values == {u.top} == u.at.Values;
    assert u.top in t0.at.Values || u.top in Elems(added);
    StockWrite(u.heap, v.heap, t0.at, idFree, Elems(added));
  }

  lemma ClimbGrow(t0: Trie, u: Trie, heap: Heap, idFree: seq<Ptr>, idFree': seq<Ptr>, added: seq<Ptr>, p: Ptr)
    requires Climbing(t0, u, idFree, added) && u.layers < 4 && u.heap[u.top].count != 0
    requires p != NULL && p in heap && p !in t0.at.Values && p !in idFree' && p !in added
    requires heap == u.heap[p := heap[p]] && IsNewTop(u, heap[p])
    requires Stock(heap, t0.at, idFree', Elems(added) + {p}) && (idFree == idFree' || idFree == [p] + idFree')
    ensures Climbing(t0, Trie(heap, u.at[Pos(u.layers, 0) := p], p, u.layers + 1, u.chunked), idFree', added + [p])
  {
    hide Inv, Placed, Rooted, Linked, Marked, Counted, Same, Stock, Chain;
    var v := Grown(u, p, heap[p]);
    TopPlaced(t0);
    TopPlaced(u);
    AllLive(t0);
    assert p !in u.at.Values && p != t0.top;
    Grow(u, p, heap[p]);
    SameTrans(t0, u, v);
    var added' := added + [p];
    assert Elems(added') == Elems(added) + {p};
    ShapeValues(u.at, Pos(u.layers, 0), p);
    forall i | 0 <= i < |added'| ensures added'[i] !in t0.at.Values && added'[i] !in idFree' {
      if i < |added| { assert added'[i] == added[i]; }
    }
    ChainGrow(u.heap, heap, t0.top, added, p);
    forall q | q in t0.at ensures t0.at[q] in heap && heap[t0.at[q]] == t0.heap[t0.at[q]] {
      assert t0.at[q] in t0.at.Values;
    }
  }

  lemma TopPlaced(t: Trie)
    requires Inv(t) && t.layers > 0
    ensures t.top in t.at.Values && t.top in t.heap && Pos(t.layers, 0) !in t.at
  {
    assert t.at[Pos(t.layers - 1, 0)] == t.top;
  }

  lemma NotSpare(t0: Trie, u: Trie, idFree: seq<Ptr>, added: seq<Ptr>, p: Ptr)
    requires Climbing(t0, u, idFree, added) && (p !in u.heap || p in idFree)
    ensures p !in added && p != u.top
  {
    ClimbFacts(t0, u, idFree, added);
    TopPlaced(u);
    AllLive(u);
    forall x | x in u.at.Values ensures x != p {
      if x in t0.at.Values {
      } else {
        assert x in Elems(added);
      }
    }
    assert forall x :: x in added ==> x in Elems(added);
  }

  lemma ShapeValues(at: Shape, q: Pos, p: Ptr)
    requires q !in at
    ensures at[q := p].Values == at.Values + {p}
  {
    var at' := at[q := p];
    forall v | v in at.Values ensures v in at'.Values {
      var r :| r in at && at[r] == v;
      assert at'[r] == v;
    }
    assert at'[q] == p;
  }

  lemma ChainGrow(heap: Heap, heap': Heap, top: Ptr, added: seq<Ptr>, p: Ptr)
    requires Chain(heap, top, added) && p != NULL && p !in added && p != top && p in heap'
      && heap' == heap[p := heap'[p]]
    requires Formed(heap'[p]) && heap'[p].ary[0] == Under(top, added, |added|)
      && forall j :: 1 <= j < 256 ==> heap'[p].ary[j] == NULL
    ensures Chain(heap', top, added + [p])
  {
    var all := added + [p];
    forall i | 0 <= i < |all|
      ensures all[i] != NULL && all[i] in heap' && Formed(heap'[all[i]])
      ensures heap'[all[i]].ary[0] == Under(top, all, i) && forall j :: 1 <= j < 256 ==> heap'[all[i]].ary[j] == NULL
    {
      if i < |added| {
        assert all[i] == added[i] && Under(top, all, i) == Under(top, added, i);
      }
    }
  }

  lemma ClimbDone(t0: Trie, u: Trie, idFree: seq<Ptr>, added: seq<Ptr>)
    requires Climbing(t0, u, idFree, added)
    ensures Inv(u) && Same(t0, u) && Stock(u.heap, u.at, idFree, {})
  {
  }

  lemma ClimbFail(t0: Trie, u: Trie, idFree: seq<Ptr>, added: seq<Ptr>)
    requires Climbing(t0, u, idFree, added) && u.heap[u.top].count != 0
    ensures Tearing(u.heap, t0.at, t0.top, idFree, added) && u.top == Under(t0.top, added, |added|)
    ensures forall q :: q in t0.at ==> t0.at[q] in u.heap && t0.at[q] !in added && u.heap[t0.at[q]] == t0.heap[t0.at[q]]
  {
    forall q | q in t0.at ensures t0.at[q] !in added { assert t0.at[q] in t0.at.Values; }
  }

  // ---------- giving layers back ----------

  /** The address of a pointer to a layer: null, the top field, or a slot of a layer. */
  datatype Ref = Nil | Top | Ary(p: Ptr, n: int)

  /** Where the pointer to the layer at level `j` of the path is stored. */
  ghost function RefAt(at: Shape, id: int, layers: int, j: nat): Ref {
    if j >= layers then Nil
    else if j == layers - 1 then Top
    else if On(id, j + 1) in at then Ary(at[On(id, j + 1)], Slot(id, j + 1))
    else Nil
  }

  /** The places below level `d` on the path to `id`. */
  ghost function PathBelow(id: int, d: nat): set<Pos> {
    set j | 0 <= j < d :: On(id, j)
  }

  /** The first level from `l` on where the path to `id` has a layer with more than one slot in use. */
  ghost function Lone(t: Trie, id: int, l: nat): (r: nat)
    ensures r >= l && (l <= t.layers ==> r <= t.layers)
    decreases t.layers - l
  {
    if l < t.layers && On(id, l) in t.at && t.at[On(id, l)] in t.heap && t.heap[t.at[On(id, l)]].count == 1
    then Lone(t, id, l + 1)
    else l
  }

  /** The layers of `at`, but for `but`, keep their counts. */
  ghost predicate CountsKept(at: Shape, heap: Heap, heap': Heap, but: Ptr) {
    forall q :: q in at && at[q] != but ==>
      (at[q] in heap <==> at[q] in heap') && (at[q] in heap ==> heap'[at[q]].count == heap[at[q]].count)
  }

  lemma CountsBut(at: Shape, heap: Heap, q: Ptr, n: Layer)
    requires q in heap
    ensures CountsKept(at, heap, heap[q := n], q)
  {
  }

  /** Through the freeing of a layer outside the tree, the change of `q`, and the unlinking of `q`. */
  lemma CountsLeft(g: Trie, id: int, l: nat, h1: Heap, h2: Heap, h3: Heap, q: Ptr)
    requires Over(g, id, l) && h1.Keys <= g.heap.Keys
      && forall p :: p in g.at.Values && p in g.heap ==> p in h1 && h1[p] == g.heap[p]
    requires q in h1 && h2 == h1[q := h1[q].(count := h1[q].count - 1)] && CountsKept(g.at, h2, h3, NULL)
    ensures CountsKept(g.at, g.heap, h3, q)
  {
    NullNotPlaced(g);
    forall r | r in g.at && g.at[r] != q
      ensures (g.at[r] in g.heap <==> g.at[r] in h3)
        && (g.at[r] in g.heap ==> h3[g.at[r]].count == g.heap[g.at[r]].count)
    {
      assert g.at[r] in g.at.Values;
    }
  }

  lemma {:induction false} LoneSame(t: Trie, u: Trie, id: int, l: nat)
    requires u.at == t.at && u.layers == t.layers && CountsKept(t.at, t.heap, u.heap, NULL) && NULL !in t.at.Values
    ensures Lone(u, id, l) == Lone(t, id, l)
    decreases t.layers - l
  {
    if l < t.layers && On(id, l) in t.at {
      assert t.at[On(id, l)] in t.at.Values;
      LoneSame(t, u, id, l + 1);
    }
  }

  /** What the release of the layer at level `l` of the path says about the layers before it. */
  ghost predicate ReleasedTo(g0: Trie, at: Shape, heap: Heap, id: int, l: nat) {
    at == g0.at - PathBelow(id, l) && Lone(g0, id, 0) == Lone(g0, id, l) && CountsKept(at, g0.heap, heap, NULL)
  }

  lemma ReleasedNone(g0: Trie, id: int)
    ensures ReleasedTo(g0, g0.at, g0.heap, id, 0)
  {
  }

  lemma ReleasedMore(g0: Trie, at: Shape, heap: Heap, at': Shape, heap': Heap, id: int, l: nat)
    requires ReleasedTo(g0, at, heap, id, l) && l < g0.layers && On(id, l) in at && at[On(id, l)] in heap
      && at[On(id, l)] != NULL && heap[at[On(id, l)]].count == 1
    requires at' == at - {On(id, l)} && CountsKept(at, heap, heap', at[On(id, l)])
    requires forall q :: q in at && at[q] == at[On(id, l)] ==> q == On(id, l)
    ensures ReleasedTo(g0, at', heap', id, l + 1)
  {
    assert PathBelow(id, l + 1) == PathBelow(id, l) + {On(id, l)};
  }

  lemma ReleasedAll(g0: Trie, at: Shape, heap: Heap, id: int, l: nat)
    requires ReleasedTo(g0, at, heap, id, l)
    requires l >= g0.layers || (On(id, l) in at && at[On(id, l)] in heap && at[On(id, l)] != NULL
                                && heap[at[On(id, l)]].count != 1)
    ensures at == g0.at - PathBelow(id, Lone(g0, id, 0)) && Lone(g0, id, 0) == l
  {
  }

  lemma EmptiedCounts(t: Trie, u: Trie, id: int)
    requires Placed(t) && PathCleared(t, u, id, 0) && On(id, 0) in u.at && u.at[On(id, 0)] in u.heap
      && Formed(u.heap[u.at[On(id, 0)]])
    ensures Lone(Emptied(u, id), id, 0) == Lone(t, id, 0)
  {
    LoneSame(t, Emptied(u, id), id, 0);
  }

  /** The root has one child, the first. */
  ghost predicate OnlyFirst(kept: set<Pos>, root: Pos) {
    forall i :: 0 <= i < IDR_SIZE ==> (Kid(root, i) in kept <==> i == 0)
  }

  /**
   * What a removal does to the shape: the layers of the path that held only `id` go; a root left with the first child
   * only goes too.
   */
  ghost predicate Trimmed(t: Trie, u: Trie, id: int)
    requires Placed(t)
  {
    var kept := t.at.Keys - PathBelow(id, if Taken(t, id) then Lone(t, id, 0) else 0);
    var root := Pos(t.layers - 1, 0);
    var drop := t.layers > 1 && root in kept && OnlyFirst(kept, root);
    && u.at.Keys == (if drop then kept - {root} else kept)
    && u.layers == if root !in kept then 0 else if drop then t.layers - 1 else t.layers
  }

  /** The test for a root that can go, read off the shape. */
  lemma RootCanGo(t: Trie)
    requires Inv(t) && t.layers > 1 && t.top != NULL
    ensures t.top in t.heap && Formed(t.heap[t.top])
    ensures t.heap[t.top].count == 1 && t.heap[t.top].ary[0] != NULL <==> OnlyFirst(t.at.Keys, Pos(t.layers - 1, 0))
  {
    var root := Pos(t.layers - 1, 0);
    var n := t.heap[t.top];
    assert n.count == |Busy(n)|;
    forall i | 0 <= i < IDR_SIZE ensures i in Busy(n) <==> Kid(root, i) in t.at { }
    if OnlyFirst(t.at.Keys, root) {
      assert Busy(n) == {0};
    }
    if n.count == 1 && n.ary[0] != NULL {
      assert 0 in Busy(n);
      assert |Busy(n) - {0}| == 0;
      assert Busy(n) == {0};
    }
  }

  lemma LooseShallow(t: Trie, id: int)
    requires Loose(t, id)
    ensures 0 <= t.layers <= 4
  {
  }

  /** `u` is `t` after the emptied layers have gone, `v` is `u` after the root has, if it could. */
  lemma TrimmedDone(t: Trie, u: Trie, v: Trie, id: int)
    requires Placed(t) && Inv(u) && 0 <= id <= IdrMax(t.layers) && 0 <= t.layers <= 4
    requires Taken(t, id) ==>
        var d := Lone(t, id, 0); u.at == t.at - PathBelow(id, d) && u.layers == if d == t.layers then 0 else t.layers
    requires !Taken(t, id) ==> u == t
    requires if u.layers > 1 && OnlyFirst(u.at.Keys, Pos(u.layers - 1, 0))
        then v.at == u.at - {Pos(u.layers - 1, 0)} && v.layers == u.layers - 1
             else v.at == u.at && v.layers == u.layers
    ensures Trimmed(t, v, id)
  {
    hide Taken, Lone, Linked, Marked, Counted, OnlyFirst;
    var d := if Taken(t, id) then Lone(t, id, 0) else 0;
    var root := Pos(t.layers - 1, 0);
    if t.layers > 0 {
      InRange(id, t.layers);
      assert On(id, t.layers - 1) == root;
      assert root in PathBelow(id, d) <==> d >= t.layers;
    }
    assert u.at.Keys == t.at.Keys - PathBelow(id, d);
  }

  ghost function Spare(p: Ptr): set<Ptr> {
    if p == NULL then {} else {p}
  }

  /** What holds while emptied layers are given back: `gone` is out of the tree but not yet freed. */
  ghost predicate Loosened(t0: Trie, g: Trie, id: int, hint: Ptr, idFree: seq<Ptr>, gone: Ptr)
    requires Placed(t0) && Placed(g)
  {
    && Unbinds(t0, g, id)
    && Stock(g.heap, g.at, idFree, Spare(gone))
    && gone !in g.at.Values && gone !in idFree && (gone != NULL ==> gone in g.heap)
    && (HintOk(g, hint) || (hint == gone && gone != NULL))
  }

  /** `gone` is freed and a lookup hint to it dropped. */
  lemma LoosenedFree(t0: Trie, g: Trie, id: int, hint: Ptr, idFree: seq<Ptr>, gone: Ptr)
    requires Placed(t0) && Placed(g) && Loosened(t0, g, id, hint, idFree, gone) && gone != NULL
    ensures var g' := g.(heap := g.heap - {gone});
            && Placed(g') && Loosened(t0, g', id, if hint == gone then NULL else hint, idFree, NULL)
            && forall q :: q in g.at ==> g.at[q] in g'.heap && g'.heap[g.at[q]] == g.heap[g.at[q]]
  {
    var g' := g.(heap := g.heap - {gone});
    forall q | q in g.at ensures g.at[q] in g'.heap && g'.heap[g.at[q]] == g.heap[g.at[q]] {
      assert g.at[q] in g.at.Values;
    }
    NullNotPlaced(g);
    forall j ensures Taken(g', j) == Taken(g, j) && Held(g', j) == Held(g, j) { }
    if hint != gone && hint != NULL {
      var r :| r in g.at && g.at[r] == hint && r.level == 0 && g.heap[hint].count > 0;
      assert r in g'.at && g'.at[r] == hint;
    }
  }

  lemma NullNotPlaced(t: Trie)
    requires Placed(t)
    ensures NULL !in t.at.Values
  {
  }

  /** Taking a layer out of the shape puts it in the caller's hands. */
  lemma StockTake(heap: Heap, at: Shape, idFree: seq<Ptr>, q: Pos)
    requires Stock(heap, at, idFree, {}) && q in at && at[q] != NULL
    requires forall r :: r in at && at[r] == at[q] ==> r == q
    ensures Stock(heap, at - {q}, idFree, Spare(at[q])) && at[q] !in (at - {q}).Values && at[q] !in idFree
  {
    var at' := at - {q};
    assert at[q] in at.Values;
    forall v | v in at.Values && v != at[q] ensures v in at'.Values {
      var r :| r in at && at[r] == v;
      assert r in at' && at'[r] == v;
    }
  }

  /** One layer less: the layer at level `l`, now empty, leaves its parent. */
  lemma LoosenedStep(t0: Trie, g: Trie, g': Trie, id: int, l: nat, hint: Ptr, idFree: seq<Ptr>)
    requires Placed(t0) && Over(g, id, l) && Loosened(t0, g, id, hint, idFree, NULL)
    requires l + 1 < g.layers && g.heap[g.at[On(id, l)]].count == 1
    requires On(id, l + 1) in g.at && g.at[On(id, l + 1)] in g.heap && Formed(g.heap[g.at[On(id, l + 1)]])
    requires var q := g.at[On(id, l)];
             q in g.heap && g' == Detached(g, id, l).(heap := Detached(g, id, l).heap[q := g.heap[q].(count := 0)])
    ensures Over(g', id, l + 1) && Loosened(t0, g', id, hint, idFree, g.at[On(id, l)])
  {
    hide Linked, Marked, Rooted, CountedBut, Unbinds, Taken, Held, Blank;
    var q := g.at[On(id, l)];
    var d := Detached(g, id, l);
    Detach(g, id, l);
    Live(g, On(id, l));
    StockTake(g.heap, g.at, idFree, On(id, l));
    forall r | r in d.at ensures d.at[r] in g'.heap && g'.heap[d.at[r]] == d.heap[d.at[r]] {
      AllLive(d);
      assert d.at[r] in d.at.Values;
    }
    OverFrame(d, g', id, l + 1);
    assert g.at[On(id, l + 1)] in g.at.Values;
    StockWrite(g.heap, g'.heap, g'.at, idFree, Spare(q));
    UnbindsBut(t0, g, d, id, q);
    UnbindsBut(t0, d, g', id, NULL);
  }

  lemma UnbindsBut(t0: Trie, t: Trie, u: Trie, id: int, gone: Ptr)
    requires Placed(t0) && Placed(t) && Placed(u) && Unbinds(t0, t, id) && SameBut(t, u, gone)
    ensures Unbinds(t0, u, id)
  {
  }

  /** The top layer itself has become empty. */
  lemma LoosenedTop(t0: Trie, g: Trie, g': Trie, id: int, hint: Ptr, idFree: seq<Ptr>)
    requires Placed(t0) && g.layers > 0 && Over(g, id, g.layers - 1) && Loosened(t0, g, id, hint, idFree, NULL)
    requires On(id, g.layers - 1) == Pos(g.layers - 1, 0) && g.top in g.heap && g.heap[g.top].count == 1
    requires g' == Trie(g.heap[g.top := g.heap[g.top].(count := 0)], map[], NULL, 0, g.chunked)
    ensures Inv(g') && Loosened(t0, g', id, hint, idFree, g.top)
    ensures g.top != NULL && g.top in g.heap && g.at - {Pos(g.layers - 1, 0)} == map[]
  {
    var d := g.(at := map[], top := NULL, layers := 0);
    DetachTop(g, id);
    Frame(d, g');
    Live(g, Pos(g.layers - 1, 0));
    StockTake(g.heap, g.at, idFree, Pos(g.layers - 1, 0));
    assert g.at - {Pos(g.layers - 1, 0)} == map[];
    StockWrite(g.heap, g'.heap, map[], idFree, Spare(g.top));
    UnbindsBut(t0, g, d, id, g.top);
    forall j ensures Taken(g', j) == Taken(d, j) && Held(g', j) == Held(d, j) { }
    assert Unbinds(t0, g', id);
  }

  /** The pointers stored so far, for levels `sh` and above. */
  ghost predicate RefsOk(t: Trie, id: int, sh: int, pa: seq<Ref>) {
    && |pa| == 5 && pa[0] == Nil && -1 <= sh && 0 <= t.layers <= 4
    && forall j :: 0 <= j && sh <= j < t.layers ==> pa[t.layers - j] == RefAt(t.at, id, t.layers, j)
  }

  lemma RefsStep(t: Trie, id: int, sh: int, p: Ptr, pa: seq<Ref>)
    requires RefsOk(t, id, sh, pa) && 0 < sh < t.layers && On(id, sh) in t.at && p == t.at[On(id, sh)]
    ensures RefsOk(t, id, sh - 1, pa[t.layers - sh + 1 := Ary(p, Slot(id, sh))])
  {
  }

  /** While the bits on the path are cleared on the way down to level `sh`, where the layer `p` is. */
  ghost predicate Clearing(t: Trie, u: Trie, id: int, sh: int, p: Ptr) {
    && Loose(t, id) && PathCleared(t, u, id, sh)
    && -1 <= sh < t.layers <= 4 && (t.layers > 0 ==> sh >= 0)
    && p == (if sh >= 0 && On(id, sh) in t.at then t.at[On(id, sh)] else NULL)
    && (forall j :: sh < j < t.layers ==> On(id, j) in t.at)
    && (!Taken(t, id) ==> Inv(t) && u.heap == t.heap)
  }

  lemma ClearingStart(t: Trie, id: int)
    requires Loose(t, id) && 0 <= id <= IdrMax(t.layers)
    requires !Taken(t, id) ==> Inv(t)
    ensures Clearing(t, t, id, t.layers - 1, t.top)
    ensures t.layers > 0 ==> On(id, t.layers - 1) == Pos(t.layers - 1, 0)
    ensures 0 <= t.layers <= 4
  {
    ClearStart(t, id);
    if t.layers > 0 {
      InRange(id, t.layers);
    }
  }

  lemma ClearingFacts(t: Trie, u: Trie, id: int, sh: int, p: Ptr)
    requires Clearing(t, u, id, sh, p) && p != NULL
    ensures sh >= 0 && On(id, sh) in t.at && p == t.at[On(id, sh)] && u == t.(heap := u.heap) && sh < t.layers
    ensures p in u.heap && Formed(u.heap[p])
  {
    ClearStep(t, u, id, sh);
  }

  lemma ClearingStep(t: Trie, u: Trie, id: int, sh: int, p: Ptr)
    requires Clearing(t, u, id, sh, p) && p != NULL && sh > 0
    requires p in u.heap && Formed(u.heap[p])
    ensures var u' := u.(heap := u.heap[p := ClearBit(u.heap[p], Slot(id, sh))]);
            Clearing(t, u', id, sh - 1, u'.heap[p].ary[Slot(id, sh)])
  {
    var u' := u.(heap := u.heap[p := ClearBit(u.heap[p], Slot(id, sh))]);
    ClearingFacts(t, u, id, sh, p);
    ClearStep(t, u, id, sh);
    ClearedSlot(t, u', id, sh);
    hide Inv, Placed, Rooted, Linked, Counted, Taken, MarkedOff, PathCleared, Loose;
    KidOnPath(id, sh);
    if !Taken(t, id) {
      ClearIdle(t, id, sh);
      hide Clearing;
      assert u'.heap == t.heap;
    }
  }

  lemma ClearingDone(t: Trie, u: Trie, id: int, sh: int, p: Ptr)
    requires Clearing(t, u, id, sh, p) && (sh <= 0 || p == NULL)
    ensures p == NULL ==> !Taken(t, id)
    ensures p != NULL ==>
        p in u.heap && Formed(u.heap[p]) && (Taken(t, id) <==> u.heap[p].bitmap[Slot(id, 0)]) && On(id, 0) in t.at
        && p == t.at[On(id, 0)]
    ensures p != NULL ==>
        PathCleared(t, u, id, 0) && t.layers > 0 && sh == 0 && forall j :: 0 <= j < t.layers ==> On(id, j) in t.at
    ensures !Taken(t, id) ==> u == t
    ensures u == t.(heap := u.heap)
  {
    hide Inv, Rooted, Counted, MarkedOff;
    if p == NULL {
      if t.layers > 0 {
        AllLive(t);
        MissingPath(t, id, sh);
      }
    } else {
      ClearedLeaf(t, u, id);
    }
  }

  /** `r` is where the pointer to the layer at level `l` of the path is stored. */
  ghost predicate RefOk(g: Trie, r: Ref, id: int, l: nat)
  {
    && On(id, l) in g.at
    && match r
       case Nil => false
       case Top => l == g.layers - 1 && g.top == g.at[On(id, l)] && On(id, l) == Pos(l, 0)
       case Ary(p, n) => l < g.layers - 1 && On(id, l + 1) in g.at && p == g.at[On(id, l + 1)] && n == Slot(id, l + 1)
  }

  lemma OverPlaced(t: Trie, id: int, l: nat)
    requires Over(t, id, l)
    ensures forall q :: q in t.at && On(id, l) in t.at && t.at[q] == t.at[On(id, l)] ==> q == On(id, l)
  {
  }

  lemma RefFacts(g: Trie, r: Ref, id: int, l: nat)
    requires Over(g, id, l) && RefOk(g, r, id, l)
    ensures var q := g.at[On(id, l)];
            && q != NULL && q in g.heap && q in g.at.Values
            && (r.Ary? ==>
                   r.p in g.heap && Formed(g.heap[r.p]) && 0 <= r.n < 256 && g.heap[r.p].ary[r.n] == q && r.p != q
                   && r.p in g.at.Values)
  {
    if r.Ary? {
      DetachFrame(g, id, l);
    }
  }

  /** The tree as it is once `gone` has been freed. */
  lemma FreedFirst(t0: Trie, g: Trie, id: int, l: nat, hint: Ptr, idFree: seq<Ptr>, gone: Ptr) returns (g': Trie)
    requires Placed(t0) && Over(g, id, l) && Loosened(t0, g, id, hint, idFree, gone)
    ensures g' == g.(heap := if gone == NULL then g.heap else g.heap - {gone})
    ensures Over(g', id, l) && Loosened(t0, g', id, if hint == gone then NULL else hint, idFree, NULL)
    ensures forall p :: p in g.at.Values && p in g.heap ==> p in g'.heap && g'.heap[p] == g.heap[p] && p != gone
  {
    g' := g.(heap := if gone == NULL then g.heap else g.heap - {gone});
    NullNotPlaced(g);
    if gone != NULL {
      LoosenedFree(t0, g, id, hint, idFree, gone);
      OverFrame(g, g', id, l);
    }
  }

  lemma LoosenedStart(t0: Trie, g: Trie, id: int, hint: Ptr, idFree: seq<Ptr>)
    requires Placed(t0) && Placed(g) && Unbinds(t0, g, id) && Stock(g.heap, g.at, idFree, {}) && HintOk(g, hint)
    ensures Loosened(t0, g, id, hint, idFree, NULL)
  {
    NullNotPlaced(g);
  }

  lemma LoosenedEnd(t0: Trie, g: Trie, id: int, hint: Ptr, idFree: seq<Ptr>)
    requires Placed(t0) && Placed(g) && Loosened(t0, g, id, hint, idFree, NULL)
    ensures Unbinds(t0, g, id) && Stock(g.heap, g.at, idFree, {}) && HintOk(g, hint)
  {
  }

  lemma UniqueTop(t: Trie)
    requires Placed(t) && Pos(t.layers - 1, 0) in t.at
    ensures forall r :: r in t.at && t.at[r] == t.at[Pos(t.layers - 1, 0)] ==> r == Pos(t.layers - 1, 0)
  {
  }

  lemma StockDrop(heap: Heap, at: Shape, idFree: seq<Ptr>, p: Ptr)
    requires Stock(heap, at, idFree, Spare(p)) && p != NULL && p !in at.Values && p !in idFree
    ensures Stock(heap - {p}, at, idFree, {})
  {
  }

  lemma NoHint(t: Trie)
    requires Placed(t)
    ensures HintOk(t, NULL)
  {
  }

  lemma OutOfRange(t: Trie, id: int)
    requires Loose(t, id) && id > IdrMax(t.layers)
    ensures !Taken(t, id)
  {
    if id >= 0 && On(id, 0) in t.at {
      TakenInRange(t, id);
    }
  }

  lemma LoosenedDrop(t0: Trie, g: Trie, id: int, l: nat, hint: Ptr, idFree: seq<Ptr>, gone: Ptr)
    requires Placed(t0) && Over(g, id, l) && Loosened(t0, g, id, hint, idFree, gone)
    requires On(id, l) in g.at && g.at[On(id, l)] in g.heap && g.heap[g.at[On(id, l)]].count != 1
    ensures Inv(Dropped(g, On(id, l))) && Loosened(t0, Dropped(g, On(id, l)), id, hint, idFree, gone)
  {
    hide Linked, Marked, Rooted, CountedBut, Unbinds, Taken, Held;
    var u := Dropped(g, On(id, l));
    DropCount(g, id, l);
    StockWrite(g.heap, u.heap, g.at, idFree, Spare(gone));
    UnbindsBut(t0, g, u, id, NULL);
    if HintOk(g, hint) {
      SameHint(g, u, hint);
    }
  }

  /** Leaves the levels of the stack whose digit the step to `next` may have changed. */
  method PopStack(next: int, n0: nat, idx0: int) returns (n: nat, idx: int)
    ensures n >= n0 && idx + n == idx0 + n0 && W.Fls(next) <= 8 * n
    ensures forall m :: n0 <= m < n ==> 8 * m < W.Fls(next)
  {
    n, idx := n0, idx0;
    while 8 * n < W.Fls(next)
      invariant n >= n0 && idx + n == idx0 + n0
      invariant forall m :: n0 <= m < n ==> 8 * m < W.Fls(next)
      decreases W.Fls(next) - 8 * n
    {
      n := n + 1;
      idx := idx - 1;
    }
  }

  /** The popped stack is the stack for the next id, if that is still in range. */
  lemma Popped(t: Trie, pa: seq<Ptr>, idx: int, id: int, n: nat, next: int, m: nat, idx': int)
    requires W.Walk(t, pa, idx, id, n) && next == Shl(Shr(id, n) + 1, n) && next <= IdrMax(t.layers) && id < next
    requires m >= n && idx' + m == idx + n && W.Fls(next) <= 8 * m && forall k :: n <= k < m ==> 8 * k < W.Fls(next)
    ensures W.Walk(t, pa, idx', next, m)
  {
    ShrShl(Shr(id, n) + 1, n);
    ShrNonNeg(id, n);
    W.FlsShr(next, 0, n);
    W.ShrZero(n);
    W.FlsShr(next, 0, m);
    W.ShrZero(m);
    if t.layers == 0 {
      assert false;
    }
    InRange(next, t.layers);
    W.FlsShr(next, 0, t.layers);
    W.ShrZero(t.layers);
    assert !(8 * t.layers < W.Fls(next));
    assert m <= t.layers;
    ShrMono(id, next, m);
    ShrNonNeg(id, m);
    W.WalkPop(t, pa, idx, id, n, next, m);
  }

  /** A tree of four layers has a top, so the walk never stops above it. */
  lemma TopPresent(t: Trie, pa: seq<Ptr>, idx: int, id: int, n: nat)
    requires W.Walk(t, pa, idx, id, n) && (n == 4 ==> pa[idx] == NULL)
    ensures n <= 3
  {
    if n == 4 {
      W.NothingUpTo(t, pa, idx, id, n);
      OnRoot(t, id);
    }
  }

  /** The calls made for the ids below `bound`, all answered with 0. */
  ghost predicate Visited(t: Trie, fn: (int, Ptr) -> int, s: seq<(int, Ptr)>, bound: int)
    requires Placed(t)
  {
    && (forall k :: 0 <= k < |s| ==>
           0 <= s[k].0 < bound && s[k].1 == Held(t, s[k].0) && s[k].1 != NULL && fn(s[k].0, s[k].1) == 0)
    && (forall k, m :: 0 <= k < m < |s| ==> s[k].0 < s[m].0)
    && (forall j :: 0 <= j < bound && Held(t, j) != NULL ==> (j, Held(t, j)) in s)
  }

  lemma VisitedNone(t: Trie, fn: (int, Ptr) -> int)
    requires Placed(t)
    ensures Visited(t, fn, [], 0)
  {
  }

  lemma VisitedUpTo(t: Trie, fn: (int, Ptr) -> int, s: seq<(int, Ptr)>, bound: int)
    requires Placed(t) && Visited(t, fn, s, bound)
    ensures forall k ::
        0 <= k < |s| ==> 0 <= s[k].0 < bound && s[k].1 == Held(t, s[k].0) && s[k].1 != NULL && fn(s[k].0, s[k].1) == 0
    ensures forall k, m :: 0 <= k < m < |s| ==> s[k].0 < s[m].0
    ensures forall j {:trigger Held(t, j)} :: 0 <= j < bound && Held(t, j) != NULL ==> (j, Held(t, j)) in s
  {
  }

  lemma VisitedOn(t: Trie, fn: (int, Ptr) -> int, s: seq<(int, Ptr)>, s': seq<(int, Ptr)>, id: int, p: Ptr, next: int)
    requires Placed(t) && Visited(t, fn, s, id) && 0 <= id < next
    requires if p == NULL then s' == s && forall j :: id <= j < next ==> Held(t, j) == NULL
             else next == id + 1 && p == Held(t, id) && fn(id, p) == 0 && s' == s + [(id, p)]
    ensures Visited(t, fn, s', next)
  {
  }

  lemma StockAll(t: Trie, idFree: seq<Ptr>)
    requires Stock(t.heap, t.at, idFree, {})
    ensures forall p :: p in t.heap ==> p in t.at.Values || p in idFree
    ensures forall p :: p in idFree ==> p in t.heap && p !in t.at.Values
  {
  }

  /** With all leaves freed no hint is left. */
  lemma NoHintLeft(t: Trie, hint: Ptr, idFree: seq<Ptr>)
    requires Inv(t) && HintOk(t, hint) && Stock(t.heap, t.at, idFree, {})
    ensures hint != NULL ==> hint !in idFree && !(t.layers == 4 && hint == t.top)
  {
    if hint == NULL {
      return;
    }
    var r :| r in t.at && t.at[r] == hint && r.level == 0 && t.heap[hint].count > 0;
    assert hint in t.at.Values;
    if t.layers == 4 {
      assert t.at[Pos(3, 0)] == t.top;
    }
  }

  lemma EmptyTree(t: Trie, idFree: seq<Ptr>)
    requires t.layers == 0 && t.at == map[] && t.top == NULL
    ensures Inv(t) && HintOk(t, NULL) && Bindings(t) == map[]
  {
  }

  /** What is left after the walk: the free list, and the top of a four-layer tree. */
  lemma Released(t: Trie, heap: Heap, idFree: seq<Ptr>)
    requires Inv(t) && Stock(t.heap, t.at, idFree, {}) && W.Remaining(t, heap, idFree, IdrMax(t.layers) + 1, 0, 0)
    ensures t.layers == 4 ==> t.top in heap && t.top in t.heap && heap[t.top] == t.heap[t.top]
    ensures forall p :: p in heap ==> p in idFree || (t.layers == 4 && p == t.top)
    ensures var heap' := if t.layers == 4 then heap - {t.top} else heap;
            Stock(heap', map[], idFree, {}) && heap'.Keys == Elems(idFree)
  {
    W.AllReleased(t, heap, idFree);
    if t.layers == 4 {
      TopPlaced(t);
    }
  }

  lemma FreeListPop(heap: Heap, at: Shape, p: Ptr, rest: seq<Ptr>)
    requires Stock(heap, at, [p] + rest, {}) && at == map[] && heap.Keys == Elems([p] + rest)
    ensures Stock(heap - {p}, at, rest, {}) && (heap - {p}).Keys == Elems(rest)
  {
    var all := [p] + rest;
    forall i | 0 <= i < |rest| ensures rest[i] != p && rest[i] in heap && rest[i] != NULL && Blank(heap[rest[i]]) {
      assert rest[i] == all[i + 1] && all[0] == p;
    }
    forall i, j | 0 <= i < j < |rest| ensures rest[i] != rest[j] {
      assert rest[i] == all[i + 1] && rest[j] == all[j + 1];
    }
  }

  lemma HintLive(t: Trie, hint: Ptr)
    requires Placed(t) && HintOk(t, hint)
    ensures hint == NULL || hint in t.heap
  {
  }

  lemma StockPush(heap: Heap, at: Shape, idFree: seq<Ptr>, p: Ptr)
    requires Stock(heap, at, idFree, {p}) && p != NULL && p in heap && p !in at.Values && p !in idFree && Blank(heap[p])
    ensures Stock(heap, at, [p] + idFree, {})
  {
    StockReturn(heap, heap, at, idFree, {p}, p);
  }

  lemma StockPop(t: Trie, heap: Heap, p: Ptr, rest: seq<Ptr>)
    requires Placed(t) && heap == t.heap && Stock(heap, t.at, [p] + rest, {})
    ensures Stock(heap - {p}, t.at, rest, {})
    ensures forall q :: q in t.at ==> t.at[q] in heap - {p} && t.at[q] in heap
  {
    var all := [p] + rest;
    assert all[0] == p;
    forall i | 0 <= i < |rest|
      ensures rest[i] != p && rest[i] in heap && rest[i] != NULL && Blank(heap[rest[i]]) && rest[i] !in t.at.Values
    {
      assert rest[i] == all[i + 1];
    }
    forall i, j | 0 <= i < j < |rest| ensures rest[i] != rest[j] {
      assert rest[i] == all[i + 1] && rest[j] == all[j + 1];
    }
    AllLive(t);
  }

  /** The chunked tree never has a lookup hint. */
  lemma ChunkedHint(t: Trie, u: Trie, hint: Ptr)
    requires Placed(t) && Placed(u) && t.chunked && HintOk(t, hint)
    ensures HintOk(u, hint)
  {
  }

  lemma OpensSelf(t: Trie, id: int)
    requires Placed(t) && !Taken(t, id)
    ensures Opens(t, t, id)
  {
  }

  lemma Unreached(t: Trie, u: Trie, id: int, sh: int)
    requires Clearing(t, u, id, sh, NULL)
    ensures !Taken(t, id) && u == t && Held(t, id) == NULL && Inv(t)
  {
    ClearingDone(t, u, id, sh, NULL);
    if t.layers == 0 {
      HeldInRange(t, id);
    } else {
      AllLive(t);
      NothingHeld(t, id, sh);
    }
  }

  lemma InRangeBound(t: Trie, id: int)
    requires Inv(t) && 0 <= id <= IdrMax(t.layers)
    ensures id < MAX_IDR_BIT
  {
    IdrMaxBound(t.layers);
  }

  lemma FillUnbind(t: Trie, u: Trie, v: Trie, id: int)
    requires Placed(t) && Placed(u) && Placed(v) && !Taken(t, id) && Fills(t, u, id) && Unbinds(u, v, id)
    ensures Holds(t, v, id, NULL)
  {
  }

  datatype Old = Was(p: Ptr) | Err(e: int)

  lemma Bounded(t: Trie, id: int)
    requires Placed(t) && id in Bindings(t)
    ensures 0 <= id < MAX_IDR_BIT
  {
  }

  class Idr {
    var heap: Heap
    var top: Ptr
    var layers: int
    var hint: Ptr
    var cur: Int32
    var idFree: seq<Ptr>
    const chunked: bool
    ghost var at: Shape
    /** Layers that no pointer of this handle leads to any more, though they were never freed. */
    var lost: map<Ptr, Layer>

    ghost function View(): Trie
      reads this
    {
      Trie(heap, at, top, layers, chunked)
    }

    ghost predicate Valid()
      reads this
    {
      Inv(View()) && HintOk(View(), hint) && Stock(heap, at, idFree, {})
    }

    method LayerAlloc(useFree: bool, ghost spare: set<Ptr> := {}) returns (p: Ptr)
      requires Stock(heap, at, idFree, spare) && forall q :: q in at ==> at[q] in heap
      modifies `heap, `idFree
      ensures p == NULL ==> useFree && old(idFree) == [] && idFree == [] && heap == old(heap)
      ensures p != NULL ==> p !in at.Values && p in heap && p !in idFree && Blank(heap[p])
      ensures p != NULL ==> Stock(heap, at, idFree, spare + {p}) && heap == old(heap)[p := heap[p]]
      ensures p != NULL && useFree ==> old(idFree) == [p] + idFree
      ensures p != NULL && !useFree ==> p !in old(heap) && p !in lost && idFree == old(idFree) && heap[p].prefix == 0
    {
      if useFree {
        if idFree == [] {
          return NULL;
        }
        p := idFree[0];
        idFree := idFree[1..];
      } else {
        FreshExists(heap.Keys + lost.Keys);
        p :| p != NULL && p !in heap && p !in lost;
        heap := heap[p := Layer(0, 0, seq(256, _ => NULL), 0, seq(256, _ => false))];
      }
    }

    /** Creates the missing layer below slot `m` of the layer at level `l` on the path to `id`. */
    method AddLayer(p: Ptr, m: nat, id: int, l: nat, useFree: bool) returns (ok: bool)
      requires Valid() && 0 < l < layers && 0 <= id < MAX_IDR_BIT && m == Slot(id, l)
      requires On(id, l) in at && p == at[On(id, l)] && heap[p].ary[m] == NULL
      modifies `heap, `idFree, `at
      ensures Valid() && Same(old(View()), View())
      ensures !ok ==> useFree && heap == old(heap) && at == old(at) && idFree == old(idFree) == []
      ensures ok ==>
          On(id, l - 1) in at && p in heap && at[On(id, l - 1)] in heap && heap[p].ary[m] == at[On(id, l - 1)]
          && Blank(heap[at[On(id, l - 1)]])
      ensures ok ==> at == old(at)[On(id, l - 1) := at[On(id, l - 1)]]
      ensures ok && useFree ==> |old(idFree)| == |idFree| + 1
      ensures !useFree ==> idFree == old(idFree)
    {
      hide Placed, Rooted, Linked, Marked, Counted, Same, HintOk, Stock;
      ghost var t := View();
      Live(t, On(id, l));
      AllLive(t);
      SlotOf(t, On(id, l), m);
      SameRefl(t);
      KidOnPath(id, l);
      ShlGalois(id, 128, 3);
      var added := LayerAlloc(useFree);
      if added == NULL {
        return false;
      }
      ghost var h := heap;
      var n := heap[added].(layer := l - 1, prefix := PrefixOf(id, l - 1));
      assert {} + {added} == {added};
      assert l == 1 ==> n.prefix == Shr(id, 1) * 256;
      AddKid(t, On(id, l), m, added, n);
      heap := heap[added := n];
      heap := heap[p := heap[p].(ary := heap[p].ary[m := added], count := heap[p].count + 1)];
      at := at[Kid(On(id, l), m) := added];
      assert heap == WithKid(t, On(id, l), m, added, n).heap;
      assert View() == WithKid(t, On(id, l), m, added, n);
      SameHint(t, View(), hint);
      StockWrite(h, heap, t.at, idFree, {added});
      StockPlace(heap, t.at, idFree, added, On(id, l - 1));
      ok := true;
    }

    /** The layer below slot `m`, created when it is missing. */
    method StepDown(p: Ptr, m: nat, id: int, l: nat, useFree: bool) returns (c: Ptr)
      requires Valid() && 0 < l < layers && 0 <= id < MAX_IDR_BIT && m == Slot(id, l)
      requires On(id, l) in at && p == at[On(id, l)] && p in heap && Formed(heap[p])
      modifies `heap, `idFree, `at
      ensures Valid() && Same(old(View()), View())
      ensures forall q :: q in old(at) ==> q in at && at[q] == old(at)[q]
      ensures c == NULL ==> useFree && idFree == old(idFree) == [] && On(id, l - 1) !in at
      ensures c != NULL ==> On(id, l - 1) in at && c == at[On(id, l - 1)] && c in heap && Formed(heap[c])
      ensures !useFree ==> idFree == old(idFree)
      ensures c != NULL && idFree != old(idFree) ==> |old(idFree)| == |idFree| + 1 && Blank(heap[c])
      ensures c != NULL && Blank(old(heap)[p]) ==> Blank(heap[c])
    {
      hide Inv, Placed, Rooted, Linked, Marked, Counted, Same, HintOk, Stock, Taken, Held;
      ghost var t := View();
      SlotOf(t, On(id, l), m);
      KidOnPath(id, l);
      SameRefl(t);
      if heap[p].ary[m] == NULL {
        var ok := AddLayer(p, m, id, l, useFree);
        if !ok {
          return NULL;
        }
      }
      Live(View(), On(id, l));
      c := heap[p].ary[m];
      Live(View(), On(id, l - 1));
    }

    /** No slot of the layer is free from the candidate on: go up, or restart from the top.
        Returns a null layer when the tree has to grow. */
    method GoUp(ghost start: int, id: int, p: Ptr, l: nat, pa: array<Ptr>) returns (id': int, p': Ptr, l': nat)
      requires pa.Length == 5 && Searching(View(), pa[..], start, id, p, l)
      requires forall i :: Slot(id, l) <= i < 256 ==> heap[p].bitmap[i]
      modifies pa
      ensures p' != NULL ==>
          Searching(View(), pa[..], start, id', p', l') && l' < layers && (id' < 0 || (0 <= id < id'))
      ensures p' == NULL ==>
          layers < 4 && id' == IdrMax(layers) + 1 && forall j :: start <= j < id' ==> Taken(View(), j)
      ensures id >= 0 && exists i :: 0 <= i < 256 && heap[p].bitmap[i]
    {
      hide Inv, Placed, Rooted, Linked, Marked, Counted, Taken, Shl, Shr;
      ghost var t := View();
      AtTop(t);
      assert id >= 0 by {
        if id < 0 { TopHalf(t); }
      }
      assert heap[p].bitmap[Slot(id, l)];
      PastLayer(t, id, l);
      l' := l + 1;
      IdrMaxBound(layers);
      id' := Wrap(Shl(Shr(id, l') + 1, l'));
      if id' > IdrMax(layers) {
        return id', NULL, 0;
      }
      p' := pa[l'];
      var sameNode: bool := *;  // the shift count 32 at the top of a four-layer tree is not defined
      if l' + 1 < 4 {
        sameNode := Shr(id, l' + 1) == Shr(id', l' + 1);
      }
      ShrNonNeg(id, l' + 1);
      ShrNonNeg(id', l' + 1);
      if sameNode {
        if id' >= 0 {
          InRange(id, layers);
          InRange(id', layers);
          SamePath(t, pa[..], id, id', l' + 1, l');
          OnPathLive(t, pa[..], id', l');
        } else {
          OnRoot(t, id);
        }
      } else {
        p', l' := top, layers;
        pa[l'] := NULL;
        l' := l' - 1;
        if id' >= 0 { OnRoot(t, id'); }
      }
    }

    /** Allocates without growing the tree; leaves the path in `pa`. */
    method SubAlloc(start: int, useFree: bool, pa: array<Ptr>) returns (id: int, nextStart: int)
      requires Valid() && layers > 0 && 0 <= start <= IdrMax(layers) && pa.Length == 5
      modifies `heap, `idFree, `at, pa
      ensures Valid() && Same(old(View()), View())
      ensures id >= 0 ==> id <= IdrMax(layers) && LeastFree(View(), start, id) && PathTo(View(), pa[..], id, 0)
      ensures id >= 0 && Held(View(), id) != NULL ==> idFree == old(idFree)
      ensures id < 0 ==> id == EAGAIN || id == ENOSPC || id == ENOMEM
      ensures id == EAGAIN ==>
          layers < 4 && nextStart == IdrMax(layers) + 1 && forall j :: start <= j < nextStart ==> Taken(View(), j)
      ensures id == EAGAIN ==> idFree == old(idFree)
      ensures id == ENOSPC ==> forall j :: start <= j < MAX_IDR_BIT ==> Taken(View(), j)
      ensures if useFree then |idFree| <= |old(idFree)| < |idFree| + layers else idFree == old(idFree)
      ensures id == ENOMEM ==> useFree && |old(idFree)| + 1 < layers && Missing(View(), start)
    {
      hide Inv, Placed, Rooted, Linked, Marked, Counted, Same, HintOk, Stock, Taken, Held, Searching, PathTo, Shl, Shr,
        IdrMax, Formed;
      ghost var t0 := View();
      id := start;
      nextStart := start;
      var p, l := top, layers;
      Shallow(t0);
      pa[l] := NULL;
      l := l - 1;
      StartSearch(t0, pa[..], start);
      SameRefl(t0);
      while true
        invariant Valid() && Same(t0, View())
        invariant 0 <= l < layers
        invariant Searching(View(), pa[..], start, id, p, l)
        invariant idFree != old(idFree) ==> useFree && p in heap && Blank(heap[p])
        invariant useFree ==> |idFree| <= |old(idFree)| <= |idFree| + layers - 1 - l
        decreases if id < 0 then 0 else MAX_IDR_BIT - id, l
      {
        ghost var t := View();
        SearchFacts(t, pa[..], start, id, p, l);
        var n := Slot(id, l);
        assert idFree != old(idFree) ==> !heap[p].bitmap[n];
        var m := FindNextZeroBit(heap[p].bitmap, n);
        if m == IDR_SIZE {
          id, p, l := GoUp(start, id, p, l, pa);
          if p == NULL {
            return EAGAIN, id;
          }
        } else {
          if m != n {
            Across(t, pa[..], start, id, p, l, m);
            id := Wrap(Shl(Shr(id, l) - n + m, l));
          }
          if id >= MAX_IDR_BIT || id < 0 {
            return ENOSPC, nextStart;
          }
          if l == 0 {
            Found(t, pa[..], start, id, p);
            pa[l] := p;
            return id, nextStart;
          }
          SearchFacts(t, pa[..], start, id, p, l);
          var c := StepDown(p, m, id, l, useFree);
          SameTrans(t0, t, View());
          SameTaken(t, View());
          if c == NULL {
            MissingHere(t, View(), pa[..], start, id, p, l);
            return ENOMEM, nextStart;
          }
          Below(t, View(), pa[..], start, id, p, l, c);
          pa[l] := p;
          p, l := c, l - 1;
        }
      }
    }

    /** Hands the layers of an abandoned growth back to the free list, topmost first. */
    method TearDown(p: Ptr, ghost added: seq<Ptr>)
      requires Tearing(heap, at, top, idFree, added) && p == Under(top, added, |added|)
      modifies `heap, `idFree
      ensures Stock(heap, at, idFree, {}) && idFree == added + old(idFree)
      ensures forall x :: x in old(heap) && x !in added ==> x in heap && heap[x] == old(heap)[x]
    {
      hide Tearing, Blank;
      var r := p;
      ghost var left := added;
      assert added[..|added|] == added;
      while r != NULL && r != top
        invariant |left| <= |added| && left == added[..|left|] && r == Under(top, left, |left|)
        invariant idFree == added[|left|..] + old(idFree)
        invariant Tearing(heap, at, top, idFree, left)
        invariant forall x :: x in old(heap) && x !in added ==> x in heap && heap[x] == old(heap)[x]
        decreases |left|
      {
        var last := r;
        ghost var k, h, left' := |left| - 1, heap, left[..|left| - 1];
        assert left == left' + [last];
        ChainTop(heap, at, top, idFree, left);
        r := heap[r].ary[0];
        heap := heap[last := heap[last].(ary := heap[last].ary[0 := NULL], count := 0, bitmap := seq(256, _ => false))];
        Cleared(h[last]);
        Tear(h, heap[last], at, top, idFree, left', last);
        idFree := [last] + idFree;
        assert added[k] == last && [last] + added[k + 1..] == added[k..];
        left := left';
      }
      if left != [] { ChainTop(heap, at, top, idFree, left); }
      TornDown(heap, at, top, idFree);
    }

    /** A failed growth leaves the tree as it was. */
    method Abandon(p: Ptr, ghost t0: Trie, ghost u: Trie, ghost added: seq<Ptr>)
      requires Climbing(t0, u, idFree, added) && heap == u.heap && p == u.top && p in heap && heap[p].count != 0
      requires t0 == Trie(t0.heap, at, top, layers, chunked) && HintOk(t0, hint)
      modifies `heap, `idFree
      ensures Valid() && Same(t0, View()) && idFree == added + old(idFree)
    {
      hide Inv, Placed, Rooted, Linked, Marked, Counted, Same, HintOk, Stock, Taken, Held, Climbing, Tearing;
      ClimbFail(t0, u, idFree, added);
      ClimbBase(t0, u, idFree, added);
      TearDown(p, added);
      Frame(t0, View());
      SameHint(t0, View(), hint);
    }

    /** The first layer of an empty tree. */
    method FirstLayer(useFree: bool) returns (p: Ptr)
      requires Valid() && layers == 0 && (useFree ==> chunked)
      modifies `heap, `idFree
      ensures p == NULL ==> useFree && old(idFree) == [] && idFree == [] && heap == old(heap)
      ensures p != NULL ==> Climbing(old(View()), Trie(heap, map[Pos(0, 0) := p], p, 1, chunked), idFree, [p])
      ensures p != NULL ==> old(idFree) == if useFree then [p] + idFree else idFree
    {
      hide Inv, Placed, Rooted, Linked, Marked, Counted, Same, HintOk, Stock, Taken, Held, Climbing, Tearing;
      ghost var t0 := View();
      AllLive(t0);
      p := LayerAlloc(useFree);
      if p == NULL {
        return;
      }
      ghost var h := heap;
      heap := heap[p := heap[p].(layer := 0)];
      assert {} + {p} == {p};
      StockWrite(h, heap, at, idFree, {p});
      ClimbSprout(t0, heap, idFree, p);
    }

    /** A top layer with nothing below it moves up one level. */
    method RaiseTop(p: Ptr, lay: int, ghost t0: Trie, ghost a: Shape, ghost added: seq<Ptr>)
      requires Climbing(t0, Trie(heap, a, p, lay, chunked), idFree, added) && lay < 4
      requires p in heap && heap[p].count == 0
      modifies `heap
      ensures Climbing(t0, Trie(heap, map[Pos(lay, 0) := p], p, lay + 1, chunked), idFree, added)
    {
      hide Inv, Same, Stock, Climbing;
      ClimbRaise(t0, Trie(heap, a, p, lay, chunked), idFree, added);
      heap := heap[p := heap[p].(layer := heap[p].layer + 1)];
    }

    /** A new layer whose first slot is the layer `p`; null when there is no memory. */
    method AddTop(p: Ptr, lay: int, id: int, useFree: bool, ghost t0: Trie, ghost a: Shape,
        ghost added: seq<Ptr>) returns (n: Ptr)
      requires Climbing(t0, Trie(heap, a, p, lay, chunked), idFree, added) && lay < 4 && at == t0.at
      requires p in heap && heap[p].count != 0
      modifies `heap, `idFree
      ensures n == NULL ==> useFree && old(idFree) == [] && idFree == [] && heap == old(heap)
      ensures n != NULL ==> Climbing(t0, Trie(heap, a[Pos(lay, 0) := n], n, lay + 1, chunked), idFree, added + [n])
      ensures n != NULL ==> old(idFree) == if useFree then [n] + idFree else idFree
    {
      hide Inv, Placed, Rooted, Linked, Marked, Counted, Same, HintOk, Stock, Taken, Held, Climbing, Tearing;
      ghost var u := Trie(heap, a, p, lay, chunked);
      ghost var free0 := idFree;
      ClimbFacts(t0, u, idFree, added);
      n := LayerAlloc(useFree, Elems(added));
      if n == NULL {
        return;
      }
      NotSpare(t0, u, free0, added, n);
      ghost var h := heap;
      heap := heap[n := heap[n].(ary := heap[n].ary[0 := p], count := 1, layer := lay, prefix := PrefixOf(id, lay))];
      if Full(heap[p]) {
        heap := heap[n := heap[n].(bitmap := heap[n].bitmap[0 := true])];
      }
      StockWrite(h, heap, t0.at, idFree, Elems(added) + {n});
      ClimbGrow(t0, u, heap, free0, idFree, added, n);
    }

    /** One level more: an empty tree's top moves up, otherwise a layer is added. */
    method OneMore(p: Ptr, lay: int, id: int, useFree: bool, ghost t0: Trie, ghost a: Shape, ghost added: seq<Ptr>)
      returns (n: Ptr, ghost a': Shape, ghost added': seq<Ptr>)
      requires Climbing(t0, Trie(heap, a, p, lay, chunked), idFree, added) && lay < 4 && at == t0.at && p in heap
        && p != NULL
      modifies `heap, `idFree
      ensures n == NULL ==> useFree && old(idFree) == [] && idFree == [] && heap == old(heap) && heap[p].count != 0
      ensures n != NULL ==> Climbing(t0, Trie(heap, a', n, lay + 1, chunked), idFree, added')
      ensures n != NULL ==> if useFree then added + old(idFree) == added' + idFree else idFree == old(idFree)
    {
      hide Climbing;
      if heap[p].count == 0 {
        RaiseTop(p, lay, t0, a, added);
        n, a', added' := p, map[Pos(lay, 0) := p], added;
      } else {
        n := AddTop(p, lay, id, useFree, t0, a, added);
        a', added' := a[Pos(lay, 0) := n], added + [n];
      }
    }

    /** Puts layers on top until the tree can hold `id`. */
    method BuildUp(id: int, useFree: bool) returns (ok: bool)
      requires Valid() && 0 <= id < MAX_IDR_BIT && (useFree ==> chunked)
      modifies `heap, `idFree, `at, `top, `layers
      ensures Valid() && Same(old(View()), View())
      ensures ok ==> layers > 0 && id <= IdrMax(layers) && layers >= old(layers)
      ensures !ok ==>
          useFree && |old(idFree)| <= 3 && idFree == old(idFree) && top == old(top) && layers == old(layers)
          && at == old(at) && (layers == 0 || id > IdrMax(layers))
      ensures ok && useFree ==>
          |idFree| <= |old(idFree)| <= |idFree| + if old(layers) == 0 then 1 else layers - old(layers)
      ensures ok && old(layers) > 0 && id <= IdrMax(old(layers)) ==> idFree == old(idFree)
      ensures !useFree ==> idFree == old(idFree)
    {
      hide Inv, Placed, Rooted, Linked, Marked, Counted, Same, HintOk, Stock, Taken, Held, Climbing, Tearing,
        Blank, Formed, Full, IsNewTop, Chain, Elems, Shl, Shr, IdrMax, Under, PrefixOf;
      ghost var t0 := View();
      ghost var added: seq<Ptr> := [];
      ghost var a: Shape := at;
      Shallow(t0);
      AllLive(t0);
      SameRefl(t0);
      var p: Ptr, lay: int := top, layers;
      if p == NULL {
        p := FirstLayer(useFree);
        if p == NULL {
          return false;
        }
        lay := 1;
        a, added := map[Pos(0, 0) := p], [p];
      } else {
        ClimbStart(t0, idFree);
      }
      while id > IdrMax(lay)
        invariant Climbing(t0, Trie(heap, a, p, lay, chunked), idFree, added)
        invariant 1 <= lay <= 4 && layers <= lay
        invariant layers > 0 && id <= IdrMax(layers) ==> lay == layers && idFree == old(idFree)
        invariant at == t0.at && top == t0.top && layers == t0.layers
        invariant useFree ==> old(idFree) == added + idFree
        invariant !useFree ==> idFree == old(idFree)
        decreases 4 - lay
      {
        ghost var u := Trie(heap, a, p, lay, chunked);
        ClimbFacts(t0, u, idFree, added);
        CanGrow(id, lay);
        lay := lay + 1;
        var n: Ptr;
        ghost var a', added';
        n, a', added' := OneMore(p, lay - 1, id, useFree, t0, a, added);
        if n == NULL {
          Abandon(p, t0, u, added);
          return false;
        }
        p, a, added := n, a', added';
      }
      ClimbFacts(t0, Trie(heap, a, p, lay, chunked), idFree, added);
      ClimbDone(t0, Trie(heap, a, p, lay, chunked), idFree, added);
      top := p;
      layers := lay;
      at := a;
      SameHint(t0, View(), hint);
      ok := true;
    }

    /** The least free id from `starting` on, growing the tree as often as needed. */
    method GetEmptySlot(starting: int, useFree: bool, pa: array<Ptr>) returns (v: int)
      requires Valid() && 0 <= starting < MAX_IDR_BIT && (useFree ==> chunked) && pa.Length == 5
      modifies `heap, `idFree, `at, `top, `layers, pa
      ensures Valid() && Same(old(View()), View())
      ensures v >= 0 ==>
          layers > 0 && v <= IdrMax(layers) && LeastFree(View(), starting, v) && PathTo(View(), pa[..], v, 0)
      ensures v < 0 ==> v == ENOSPC || v == ENOMEM
      ensures v == ENOSPC ==> forall j :: starting <= j < MAX_IDR_BIT ==> Taken(View(), j)
      ensures v == ENOMEM ==> useFree && |old(idFree)| < 8 && Missing(View(), starting)
      ensures v >= 0 && Held(View(), v) != NULL ==> idFree == old(idFree)
      ensures useFree ==> |idFree| <= |old(idFree)| <= |idFree| + 7
      ensures !useFree ==> idFree == old(idFree)
    {
      hide Inv, Placed, Rooted, Linked, Marked, Counted, Same, HintOk, Stock, Taken, Held;
      ghost var t0 := View();
      var id := starting;
      ghost var low := layers;
      Shallow(t0);
      SameRefl(t0);
      while true
        invariant Valid() && Same(t0, View())
        invariant starting <= id < MAX_IDR_BIT && 0 <= layers <= 4
        invariant forall j :: starting <= j < id ==> Taken(View(), j)
        invariant (id == starting && layers == low) || (layers > 0 && IdrMax(layers) < id)
        invariant useFree ==>
            |idFree| <= |old(idFree)| <= |idFree|
              + (if low == layers then 0 else if low == 0 then layers else layers - low)
        invariant !useFree ==> idFree == old(idFree)
        invariant low <= layers && (low < layers ==> id != starting || layers > 0)
        invariant idFree == old(idFree) || low == 0 || id > IdrMax(low)
        decreases 4 - layers, if id <= IdrMax(layers) then 1 else 0
      {
        ghost var t := View();
        IdrMaxMono(low, layers);
        var ok := BuildUp(id, useFree);
        SameTrans(t0, t, View());
        SameTaken(t, View());
        if !ok {
          MissingAbove(View(), starting, id);
          return ENOMEM;
        }
        t := View();
        Shallow(t);
        ghost var from := id;
        v, id := SubAlloc(id, useFree, pa);
        SameTrans(t0, t, View());
        SameTaken(t, View());
        if v == ENOMEM { MissingFrom(View(), starting, from); }
        if v != EAGAIN {
          if v >= 0 { NewHere(t0, View(), v); }
          return v;
        }
        IdrMaxBound(layers);
        IdrMaxMono(low, layers);
      }
    }

    ghost function Contents(): map<int, Ptr>
      requires Valid()
      reads this
    {
      Bindings(View())
    }

    /** Marks the leaf slot full, and every parent whose layer this completes. */
    method MarkFull(pa: array<Ptr>, id: int)
      requires pa.Length == 5 && PathTo(View(), pa[..], id, 0) && layers > 0 && id >= 0
      requires pa[0] in heap && Formed(heap[pa[0]])
      requires Pending(WithBit(View(), On(id, 0), Slot(id, 0)), id, 0)
      requires Stock(heap, at, idFree, {})
      modifies `heap
      ensures Inv(View()) && Stock(heap, at, idFree, {})
      ensures Same(WithBit(old(View()), On(id, 0), Slot(id, 0)), View())
    {
      hide Pending, Inv, Placed, Rooted, Linked, Marked, Counted, Same, HintOk, Stock;
      ghost var t0 := WithBit(View(), On(id, 0), Slot(id, 0));
      var p, l, sid := pa[0], 0, id;
      StockBit(heap, at, idFree, On(id, 0), heap[p].(bitmap := heap[p].bitmap[sid % 256 := true]));
      heap := heap[p := heap[p].(bitmap := heap[p].bitmap[sid % 256 := true])];
      SameRefl(t0);
      PendingFacts(t0, id, 0);
      while Full(heap[p])
        invariant 0 <= l < layers <= 4 && sid == Shr(id, l) && p == pa[l] && p in heap && Formed(heap[p]) && p != NULL
        invariant On(id, l) in at && p == at[On(id, l)]
        invariant Pending(View(), id, l) && Same(t0, View()) && Stock(heap, at, idFree, {})
        decreases layers - l
      {
        ghost var t := View();
        l := l + 1;
        if l < layers { Live(t, On(id, l)); }
        p := pa[l];
        if p == NULL {
          break;
        }
        MarkStep(t, id, l - 1);
        sid := sid / 256;
        StockBit(heap, at, idFree, On(id, l), heap[p].(bitmap := heap[p].bitmap[sid % 256 := true]));
        heap := heap[p := heap[p].(bitmap := heap[p].bitmap[sid % 256 := true])];
        assert View() == WithBit(t, On(id, l), Slot(id, l));
        SameTrans(t0, t, View());
        PendingFacts(View(), id, l);
      }
      PendingDone(View(), id, if p == NULL then l - 1 else l);
    }

    /** Installs the user pointer at the slot that `pa` leads to. */
    method FillSlot(ptr: Ptr, id: int, pa: array<Ptr>)
      requires Valid() && !chunked && layers > 0 && 0 <= id <= IdrMax(layers) && !Taken(View(), id)
      requires pa.Length == 5 && PathTo(View(), pa[..], id, 0)
      modifies `heap, `hint
      ensures Valid() && Contents() == old(Contents())[id := ptr]
      ensures layers == old(layers) && hint == pa[0]
    {
      hide Pending, Inv, Placed, Rooted, Linked, Marked, Counted, Same, HintOk, Stock, Taken, Held, Binds, Bindings;
      ghost var t := View();
      Live(t, On(id, 0));
      Fill(t, id, ptr);
      Shallow(t);
      IdrMaxBound(layers);
      hint := pa[0];
      var n := heap[pa[0]];
      StockBit(heap, at, idFree, On(id, 0), n.(ary := n.ary[id % 256 := ptr], count := n.count + 1));
      heap := heap[pa[0] := n.(ary := n.ary[id % 256 := ptr], count := n.count + 1)];
      assert WithBit(View(), On(id, 0), Slot(id, 0)) == Filled(t, id, ptr);
      MarkFull(pa, id);
      SameHint(Filled(t, id, ptr), View(), hint);
      BindsSame(t, Filled(t, id, ptr), View(), id, ptr);
      BindsBindings(t, View(), id, ptr);
    }

    /** Allocates the least free id in [start, end) and binds `ptr` to it; `end <= 0` means no limit. */
    method Alloc(ptr: Ptr, start: Int32, end: Int32) returns (id: int)
      requires Valid() && !chunked
      modifies `heap, `idFree, `at, `top, `layers, `hint
      ensures Valid()
      ensures id >= 0 ==> && 0 <= start <= id && id < Limit(end) && id !in old(Contents())
                          && (forall j :: start <= j < id ==> j in old(Contents()))
                          && Contents() == old(Contents())[id := ptr]
      ensures id < 0 ==> Contents() == old(Contents())
      ensures id < 0 ==> id == if start < 0 then EINVAL else ENOSPC
      ensures id == ENOSPC ==> forall j :: start <= j < Limit(end) ==> j in old(Contents())
    {
      hide Inv, Placed, Rooted, Linked, Marked, Counted, Same, HintOk, Stock, Held, Bindings;
      var max := if end > 0 then end - 1 else 0x7fff_ffff;
      ghost var t := View();
      InContents(t);
      if start < 0 {
        return EINVAL;
      }
      if max < start {
        return ENOSPC;
      }
      var pa := new Ptr[5](_ => NULL);
      id := GetEmptySlot(start, false, pa);
      SameBindings(t, View());
      InContents(View());
      if id < 0 {
        return id;
      }
      if id > max {
        return ENOSPC;
      }
      FillSlot(ptr, id, pa);
    }

    function Deref(r: Ref): Ptr
      requires r.Ary? ==> r.p in heap && 0 <= r.n < |heap[r.p].ary|
      reads this
    {
      match r
      case Nil => NULL
      case Top => top
      case Ary(p, n) => heap[p].ary[n]
    }

    method FreeLayer(p: Ptr)
      modifies `heap, `hint
      ensures heap == old(heap) - {p} && hint == if old(hint) == p then NULL else old(hint)
    {
      if hint == p {
        hint := NULL;
      }
      heap := heap - {p};
    }

    /** Takes the empty layer `q` out of the place that points to it. */
    method Unlink(r: Ref, q: Ptr, ghost id: int, ghost l: nat, ghost t0: Trie, ghost g: Trie)
      requires Placed(t0) && Over(g, id, l) && Loosened(t0, g, id, hint, idFree, NULL) && RefOk(g, r, id, l)
      requires q in g.heap && g.heap[q].count == 1 && q == g.at[On(id, l)]
      requires View() == g.(heap := g.heap[q := g.heap[q].(count := 0)])
      modifies `heap, `at, `top
      ensures l + 1 < layers ==>
          Over(View(), id, l + 1) && at == old(at) - {On(id, l)} && top == old(top)
          && Loosened(t0, View(), id, hint, idFree, q)
      ensures l + 1 >= layers ==>
          var v := Trie(heap, at, top, 0, chunked);
                Inv(v) && at == map[] && top == NULL && Loosened(t0, v, id, hint, idFree, q)
      ensures q in heap && at == old(at) - {On(id, l)} && CountsKept(old(at), old(heap), heap, NULL)
    {
      hide Over, Inv, Placed, Rooted, Linked, Marked, Counted, Loosened, Formed;
      RefFacts(g, r, id, l);
      OverFacts(g, id, l);
      match r {
        case Top =>
          top := NULL;
          at := map[];
          LoosenedTop(t0, g, Trie(heap, at, top, 0, chunked), id, hint, idFree);
        case Ary(p, n) =>
          heap := heap[p := heap[p].(ary := heap[p].ary[n := NULL])];
          at := at - {On(id, l)};
          LoosenedStep(t0, g, View(), id, l, hint, idFree);
      }
    }

    /** Lowers the count of the layer that `r` leads to; at 0, frees the previous layer given up and
        takes this one out of the tree. */
    method ReleaseOne(r: Ref, toFree: Ptr, ghost id: int, ghost l: nat, ghost t0: Trie) returns (more: bool,
        toFree': Ptr)
      requires Placed(t0) && Over(View(), id, l) && Loosened(t0, View(), id, hint, idFree, toFree)
      requires RefOk(View(), r, id, l)
      modifies `heap, `hint, `at, `top
      ensures !more ==>
          Inv(View()) && at == old(at) && top == old(top) && toFree' == toFree
          && Loosened(t0, View(), id, hint, idFree, toFree')
      ensures more && l + 1 < layers ==>
          Over(View(), id, l + 1) && at == old(at) - {On(id, l)} && top == old(top)
          && Loosened(t0, View(), id, hint, idFree, toFree')
      ensures more && l + 1 >= layers ==>
          var g := Trie(heap, at, top, 0, chunked);
                Inv(g) && at == map[] && top == NULL && Loosened(t0, g, id, hint, idFree, toFree')
      ensures more ==> toFree' != NULL && toFree' in heap && at == old(at) - {On(id, l)}
      ensures On(id, l) in old(at) && old(at)[On(id, l)] in old(heap)
        && (more <==> old(heap)[old(at)[On(id, l)]].count == 1)
      ensures CountsKept(old(at), old(heap), heap, old(at)[On(id, l)])
    {
      hide Over, Inv, Placed, Rooted, Linked, Marked, Counted, Loosened, Formed, CountsKept;
      ghost var g := View();
      RefFacts(g, r, id, l);
      OverFacts(g, id, l);
      var q := Deref(r);
      if heap[q].count != 1 { LoosenedDrop(t0, g, id, l, hint, idFree, toFree); }
      heap := heap[q := heap[q].(count := heap[q].count - 1)];
      if heap[q].count != 0 {
        CountsBut(at, g.heap, q, heap[q]);
        return false, toFree;
      }
      ghost var g1 := FreedFirst(t0, g, id, l, hint, idFree, toFree);
      if toFree != NULL {
        FreeLayer(toFree);
      }
      ghost var h := heap;
      Unlink(r, q, id, l, t0, g1);
      CountsLeft(g, id, l, g1.heap, h, heap, q);
      return true, q;
    }

    /** Gives back the layers on the path that have become empty, leaf first. */
    method Release(id: int, pa: array<Ref>, ghost t0: Trie)
      requires Placed(t0) && 0 < layers <= 4 && pa.Length == 5
      requires Over(View(), id, 0) && Loosened(t0, View(), id, hint, idFree, NULL)
        && On(id, layers - 1) == Pos(layers - 1, 0)
      requires forall j :: 0 <= j < layers ==> On(id, j) in at
      requires forall j :: 0 <= j <= layers ==> pa[layers - j] == RefAt(at, id, layers, j)
      modifies `heap, `hint, `at, `top, `layers
      ensures Inv(View()) && Loosened(t0, View(), id, hint, idFree, NULL)
      ensures var d := Lone(old(View()), id, 0);
              at == old(at) - PathBelow(id, d) && layers == if d == old(layers) then 0 else old(layers)
    {
      hide Over, Inv, Placed, Loosened, Rooted, Linked, Marked, Counted, ReleasedTo, Lone, PathBelow, CountsKept;
      ghost var g0 := View();
      ReleasedNone(g0, id);
      ghost var at0 := at;
      ghost var l := 0;
      var k := layers;
      var toFree := NULL;
      while pa[k] != Nil
        invariant layers == old(layers) && l == layers - k && 0 <= k && 0 <= l
        invariant forall j :: l <= j < layers ==> On(id, j) in at && at[On(id, j)] == at0[On(id, j)]
        invariant ReleasedTo(g0, at, heap, id, l)
        invariant k > 0 ==> Over(View(), id, l) && Loosened(t0, View(), id, hint, idFree, toFree)
        invariant k == 0 ==>
            var g := Trie(heap, at, top, 0, chunked);
                  Inv(g) && at == map[] && top == NULL && Loosened(t0, g, id, hint, idFree, toFree)
        decreases k
      {
        assert pa[k] == RefAt(at0, id, layers, l);
        OverFacts(View(), id, l);
        assert RefOk(View(), pa[k], id, l);
        ghost var a, h := at, heap;
        OverPlaced(View(), id, l);
        var more: bool;
        more, toFree := ReleaseOne(pa[k], toFree, id, l, t0);
        if !more {
          ReleasedAll(g0, a, h, id, l);
          break;
        }
        ReleasedMore(g0, a, h, at, heap, id, l);
        k := k - 1;
        l := l + 1;
      }
      assert pa[k] == RefAt(at0, id, layers, old(layers) - k);
      if pa[k] == Nil {
        ReleasedAll(g0, at, heap, id, l);
        layers := 0;
      }
      if toFree != NULL {
        LoosenedFree(t0, View(), id, hint, idFree, toFree);
        Frame(View(), View().(heap := heap - {toFree}));
        FreeLayer(toFree);
      }
    }

    /** Removes the slot of `id` when its bit is set; otherwise nothing changes. */
    method SubRemove(id: int)
      requires 0 <= id <= IdrMax(layers)
      requires Loose(View(), id) && HintOk(View(), hint) && Stock(heap, at, idFree, {})
      requires Inv(View()) || Taken(View(), id)
      modifies `heap, `hint, `at, `top, `layers
      ensures Valid()
      ensures old(Taken(View(), id)) ==> Unbinds(old(View()), View(), id)
      ensures old(Taken(View(), id)) ==>
                var d := Lone(old(View()), id, 0);
                      at == old(at) - PathBelow(id, d) && layers == if d == old(layers) then 0 else old(layers)
      ensures !old(Taken(View(), id)) ==> View() == old(View()) && hint == old(hint)
    {
      hide Over, Inv, Placed, Loosened, Rooted, Linked, Marked, Counted, Loose, Stock, HintOk, Taken, Held, Unbinds,
        PathCleared, Lone, PathBelow;
      ghost var t0 := View();
      var p: Ptr, sh: int := top, layers - 1;
      var pa := new Ref[5](_ => Nil);
      pa[1] := Top;
      var k := 1;
      ClearingStart(t0, id);
      while sh > 0 && p != NULL
        invariant Clearing(t0, View(), id, sh, p) && RefsOk(t0, id, sh, pa[..]) && k == layers - sh
        invariant at == t0.at && top == t0.top && layers == t0.layers && hint == old(hint)
        invariant Stock(heap, at, idFree, {})
        decreases sh
      {
        ghost var u := View();
        ClearingFacts(t0, u, id, sh, p);
        ClearingStep(t0, u, id, sh, p);
        RefsStep(t0, id, sh, p, pa[..]);
        var n := Slot(id, sh);
        StockBit(heap, at, idFree, On(id, sh), ClearBit(heap[p], n));
        heap := heap[p := ClearBit(heap[p], n)];
        k := k + 1;
        pa[k] := Ary(p, n);
        p := heap[p].ary[n];
        sh := sh - 1;
      }
      var n := Slot(id, 0);
      ghost var u := View();
      ClearingDone(t0, u, id, sh, p);
      if p != NULL && heap[p].bitmap[n] {
        EmptyLeaf(t0, u, id);
        HintKept(t0, u, id, hint);
        StockBit(heap, at, idFree, On(id, 0), Emptied(u, id).heap[p]);
        heap := heap[p := heap[p].(bitmap := heap[p].bitmap[n := false], ary := heap[p].ary[n := NULL])];
        assert View() == Emptied(u, id);
        LoosenedStart(t0, View(), id, hint, idFree);
        EmptiedCounts(t0, u, id);
        Release(id, pa, t0);
        LoosenedEnd(t0, View(), id, hint, idFree);
      }
    }

    /** A tree with a lone leftmost child loses its top layer. */
    method ShrinkTop()
      requires Valid() && layers > 1 && top in heap && Formed(heap[top]) && heap[top].count == 1
        && heap[top].ary[0] != NULL
      modifies `heap, `hint, `at, `top, `layers
      ensures Valid() && Same(old(View()), View()) && at == old(at) - {Pos(old(layers) - 1, 0)}
        && layers == old(layers) - 1
    {
      hide Inv, Placed, Rooted, Linked, Marked, Counted, Same, HintOk, Stock;
      ghost var t := View();
      Shrink(t);
      Live(t, Pos(layers - 1, 0));
      UniqueTop(t);
      StockTake(heap, at, idFree, Pos(layers - 1, 0));
      var toFree := top;
      var p := heap[top].ary[0];
      ghost var at' := at - {Pos(layers - 1, 0)};
      top := p;
      layers := layers - 1;
      at := at';
      ghost var h := heap;
      heap := heap[toFree := heap[toFree].(count := 0, bitmap := seq(256, _ => false))];
      StockWrite(h, heap, at, idFree, Spare(toFree));
      StockDrop(heap, at, idFree, toFree);
      FreeLayer(toFree);
      assert heap == t.heap - {t.top};
      assert View() == Shrunk(t);
      SameHint(t, View(), old(hint));
      NoHint(View());
    }

    /** Frees the slot of `id`, the layers this empties, and a top layer no longer needed. */
    method Remove(id: Int32)
      requires Loose(View(), id) || (Valid() && id < 0)
      requires HintOk(View(), hint) && Stock(heap, at, idFree, {})
      requires Inv(View()) || (Taken(View(), id) && id <= IdrMax(layers))
      modifies `heap, `hint, `at, `top, `layers
      ensures Valid()
      ensures old(Taken(View(), id)) ==> Unbinds(old(View()), View(), id)
      ensures !old(Taken(View(), id)) ==> Same(old(View()), View())
      ensures old(Valid()) ==> Contents() == old(Contents()) - {id}
      ensures 0 <= id <= IdrMax(old(layers)) ==> Trimmed(old(View()), View(), id)
    {
      hide Inv, Placed, Rooted, Linked, Marked, Counted, Same, HintOk, Stock, Unbinds, Loose, Bindings, Lone, PathBelow,
        OnlyFirst, Trimmed;
      ghost var t := View();
      SameRefl(t);
      if !Taken(t, id) { NotBound(t, id); }
      if id < 0 {
        return;
      }
      if id > IdrMax(layers) {
        OutOfRange(t, id);
        return;
      }
      LooseShallow(t, id);
      SubRemove(id);
      ghost var u := View();
      if Taken(t, id) { UnbindsBindings(t, u, id); }
      Shallow(u);
      if top != NULL {
        AtTop(u);
        if layers > 1 { RootCanGo(u); }
      }
      if top != NULL && heap[top].count == 1 && layers > 1 && heap[top].ary[0] != NULL {
        ShrinkTop();
        if Taken(t, id) { UnbindsSame(t, u, View(), id); }
        SameBindings(u, View());
      }
      TrimmedDone(t, u, View(), id);
    }

    /** The removal as a client calls it: any id, of a map that holds no bitmaps. */
    method RemoveId(id: Int32)
      requires Valid() && !chunked
      modifies `heap, `hint, `at, `top, `layers
      ensures Valid() && Contents() == old(Contents()) - {id}
      ensures id !in old(Contents()) ==> Same(old(View()), View())
      ensures 0 <= id <= IdrMax(old(layers)) ==> Trimmed(old(View()), View(), id)
    {
      hide Inv, Placed, Rooted, Linked, Marked, Counted, Same, HintOk, Stock, Unbinds, Loose, Bindings, Taken, Trimmed;
      if id >= 0 {
        InvLoose(View(), id);
      }
      InContents(View());
      Remove(id);
    }

    constructor (chunked: bool)
      ensures Valid() && this.chunked == chunked && Contents() == map[] && at == map[] && cur == 0
    {
      heap, top, layers, hint, cur, idFree := map[], NULL, 0, NULL, 0, [];
      this.chunked := chunked;
      at := map[];
      lost := map[];
    }

    /** Lookup by walking down from the top. */
    method FindSlowpath(id: Int32) returns (r: Ptr)
      requires Valid() && !chunked
      ensures r == Lookup(Contents(), id)
    {
      hide Inv, Placed, Rooted, Linked, Marked, Counted, HintOk, Stock, Bindings, Held;
      ghost var t := View();
      HeldIsLookup(t, id);
      Shallow(t);
      if id < 0 {
        HeldInRange(t, id);
        return NULL;
      }
      var p := top;
      if p == NULL {
        HeldInRange(t, id);
        return NULL;
      }
      IdrMaxBound(layers);
      OnRoot(t, 0);
      Descend(t, 0, layers - 1);
      var n := heap[p].layer + 1;
      if id > IdrMax(heap[p].layer + 1) {
        HeldInRange(t, id);
        return NULL;
      }
      OnRoot(t, id);
      while n > 0 && p != NULL
        invariant 0 <= n <= layers
        invariant n > 0 ==> p == NodeAt(t, On(id, n - 1))
        invariant n == 0 ==> p == Held(t, id)
        decreases n
      {
        n := n - 1;
        Descend(t, id, n);
        assert n == heap[p].layer;
        p := heap[p].ary[Slot(id, n)];
      }
      if n > 0 {
        if On(id, n - 1) in at { Live(t, On(id, n - 1)); }
        NothingHeld(t, id, n - 1);
      }
      return p;
    }

    /** Lookup, answered from the last leaf allocated from when the prefix matches. */
    method Find(id: Int32) returns (r: Ptr)
      requires Valid() && !chunked
      ensures r == Lookup(Contents(), id)
    {
      hide Inv, Placed, Rooted, Linked, Marked, Counted, HintOk, Stock, Bindings, Held;
      if hint != NULL {
        HintAnswers(View(), hint, id);
        HeldIsLookup(View(), id);
        if id - id % IDR_SIZE == heap[hint].prefix {
          return heap[hint].ary[id % IDR_SIZE];
        }
      }
      r := FindSlowpath(id);
    }

    /** Rebinds an allocated id and returns the old pointer. */
    method Replace(ptr: Ptr, id: Int32) returns (r: Old)
      requires Valid() && !chunked
      modifies `heap
      ensures Valid()
      ensures id in old(Contents()) ==> r == Was(old(Contents())[id]) && Contents() == old(Contents())[id := ptr]
      ensures id !in old(Contents()) ==> r == Err(if id < 0 then EINVAL else ENOENT) && Contents() == old(Contents())
    {
      hide Inv, Placed, Rooted, Linked, Marked, Counted, HintOk, Stock, Bindings, Held, Taken, Binds;
      ghost var t := View();
      HeldIsLookup(t, id);
      InContents(t);
      Shallow(t);
      if id < 0 {
        HeldInRange(t, id);
        return Err(EINVAL);
      }
      var p := top;
      if p == NULL {
        HeldInRange(t, id);
        return Err(ENOENT);
      }
      IdrMaxBound(layers);
      OnRoot(t, 0);
      Descend(t, 0, layers - 1);
      if id > IdrMax(heap[p].layer + 1) {
        HeldInRange(t, id);
        return Err(ENOENT);
      }
      OnRoot(t, id);
      var n := heap[p].layer;
      while n > 0 && p != NULL
        invariant 0 <= n < layers && View() == t
        invariant p == NodeAt(t, On(id, n))
        decreases n
      {
        Descend(t, id, n);
        p := heap[p].ary[Slot(id, n)];
        n := n - 1;
      }
      if On(id, n) !in at { NothingHeld(t, id, n); } else { Live(t, On(id, n)); if n == 0 { LeafFacts(t, id); } }
      var i := id % IDR_SIZE;
      if p == NULL || !heap[p].bitmap[i] {
        return Err(ENOENT);
      }
      var oldP := heap[p].ary[i];
      IdrTrie.Replace(t, id, ptr);
      StockBit(heap, at, idFree, On(id, 0), heap[p].(ary := heap[p].ary[i := ptr]));
      heap := heap[p := heap[p].(ary := heap[p].ary[i := ptr])];
      assert View() == Replaced(t, id, ptr);
      IdrMaxBound(layers);
      BindsBindings(t, View(), id, ptr);
      return Was(oldP);
    }

    /** Allocates from the cursor on, and from `start` on when nothing is left above. */
    method AllocCyclic(ptr: Ptr, start: Int32, end: Int32) returns (id: int)
      requires Valid() && !chunked
      modifies `heap, `idFree, `at, `top, `layers, `hint, `cur
      ensures Valid()
      ensures var from := if start > old(cur) then start else old(cur);
              var was := old(Contents());
              if id >= 0 then
                && id !in was && id < Limit(end) && Contents() == was[id := ptr]
                && ((from <= id && forall j :: from <= j < id ==> j in was)
                    || (start <= id && (forall j :: from <= j < Limit(end) ==> j in was)
                        && forall j :: start <= j < id ==> j in was))
              else
                && Contents() == was && cur == old(cur)
                && id == (if start < 0 then EINVAL else ENOSPC)
                && (id == ENOSPC ==> forall j :: start <= j < Limit(end) ==> j in was)
      ensures id >= 0 ==> cur == Wrap(id + 1)
    {
      hide Inv, Placed, HintOk, Stock, Bindings;
      InContents(View());
      id := Alloc(ptr, if start > cur then start else cur, end);
      if id == ENOSPC {
        id := Alloc(ptr, start, end);
      }
      if id >= 0 {
        Bounded(View(), id);
        cur := Wrap(id + 1);
      }
    }

    /** Goes down the path to `id` as far as layers exist. */
    method GoDown(pa: array<Ptr>, idx0: int, id: int, n0: nat) returns (p: Ptr, idx: int, n: nat)
      requires pa.Length == 5 && W.Walk(View(), pa[..], idx0, id, n0)
      modifies pa
      ensures W.Walk(View(), pa[..], idx, id, n) && 0 <= idx <= 4 && p == pa[idx] && (p != NULL ==> n == 0)
        && (n == 4 ==> layers == 4 && p == NULL)
      ensures n < n0 || p == NULL || n0 == 0
    {
      hide W.Walk, Inv, Placed;
      ghost var t := View();
      n, idx := n0, idx0;
      W.WalkFacts(t, pa[..], idx, id, n);
      p := pa[idx];
      while n > 0 && p != NULL
        invariant W.Walk(t, pa[..], idx, id, n) && 0 <= idx <= 4 && idx + n == idx0 + n0 && p == pa[idx] && n <= n0
          && n + idx <= 4
        invariant n < n0 || p == NULL || n == n0
        invariant p != NULL || n < n0 || (n == n0 && idx == idx0)
        decreases n
      {
        W.WalkDown(t, pa[..], idx, id, n);
        n := n - 1;
        idx := idx + 1;
        pa[idx] := heap[p].ary[Slot(id, n)];
        p := pa[idx];
      }
      W.WalkFacts(t, pa[..], idx, id, n);
      if n == 4 { Shallow(t); }
    }

    /** The least id from `nextid` on that is bound to a non-null pointer. */
    method GetNext(nextid: Int32) returns (r: Ptr, id: int)
      requires Valid() && !chunked
      ensures r == NULL ==> id == nextid && (nextid >= 0 ==> forall j :: nextid <= j ==> Lookup(Contents(), j) == NULL)
      ensures r != NULL ==>
          0 <= nextid <= id && Lookup(Contents(), id) == r
          && forall j :: nextid <= j < id ==> Lookup(Contents(), j) == NULL
    {
      hide W.Walk, W.Fls, Shl, Shr, IdrMax, Inv, Placed, Rooted, Linked, Marked, Counted, HintOk, Stock, Bindings, Held,
        Taken;
      ghost var t := View();
      Shallow(t);
      forall j ensures Held(t, j) == Lookup(Contents(), j) { HeldIsLookup(t, j); }
      forall j | layers == 0 || j > IdrMax(layers) ensures Held(t, j) == NULL { HeldInRange(t, j); }
      var pa := new Ptr[5](_ => NULL);
      var idx, p := 0, top;
      id := nextid;
      pa[0] := p;
      if p == NULL {
        return NULL, nextid;
      }
      IdrMaxBound(layers);
      OnRoot(t, 0);
      Descend(t, 0, layers - 1);
      var n := heap[p].layer + 1;
      var max := IdrMax(heap[p].layer + 1);
      if 0 <= id <= max { W.WalkStart(t, pa[..], id); }
      while 0 <= id <= max
        invariant n >= 0 && (nextid >= 0 && id >= 0 ==> nextid <= id)
        invariant nextid >= 0 ==>
            forall j :: nextid <= j < (if id < 0 then MAX_IDR_BIT else id) ==> Held(t, j) == NULL
        invariant nextid < 0 ==> id == nextid
        invariant 0 <= id <= max ==> W.Walk(t, pa[..], idx, id, n)
        decreases if id < 0 then 0 else MAX_IDR_BIT - id
      {
        p, idx, n := GoDown(pa, idx, id, n);
        W.WalkFacts(t, pa[..], idx, id, n);
        if p != NULL {
          return p, id;
        }
        W.NothingUpTo(t, pa[..], idx, id, n);
        TopPresent(t, pa[..], idx, id, n);
        W.NextUp(t, id, n);
        ghost var next, n0, idx0 := Shl(Shr(id, n) + 1, n), n, idx;
        ghost var was := id;
        id := Wrap(Shl(Shr(id, n) + 1, n));
        n, idx := PopStack(id, n, idx);
        if 0 <= id <= max { Popped(t, pa[..], idx0, was, n0, next, n, idx); }
      }
      return NULL, nextid;
    }

    /** Calls `fn` on every id bound to a non-null pointer, in ascending order, until it answers
        something other than 0; `visited` records the calls. */
    method ForEach(fn: (int, Ptr) -> int) returns (error: int, visited: seq<(int, Ptr)>)
      requires Valid() && !chunked
      ensures forall k :: 0 <= k < |visited| ==> visited[k].1 == Lookup(Contents(), visited[k].0) != NULL
      ensures forall k, m :: 0 <= k < m < |visited| ==> visited[k].0 < visited[m].0
      ensures forall k :: 0 <= k < |visited| - 1 ==> fn(visited[k].0, visited[k].1) == 0
      ensures error == 0 ==> forall j {:trigger Lookup(Contents(), j)} ::
          Lookup(Contents(), j) != NULL ==> (j, Lookup(Contents(), j)) in visited
      ensures error == if visited == [] then 0 else fn(visited[|visited| - 1].0, visited[|visited| - 1].1)
      ensures error != 0 ==> var last := visited[|visited| - 1];
              forall j {:trigger Lookup(Contents(), j)} ::
                j <= last.0 && Lookup(Contents(), j) != NULL ==> (j, Lookup(Contents(), j)) in visited
    {
      hide W.Walk, W.Aligned, W.Fls, Visited, Shl, Shr, IdrMax, Inv, Placed, Rooted, Linked, Marked, Counted, HintOk,
        Stock, Bindings, Held, Taken;
      ghost var t := View();
      Shallow(t);
      forall j ensures Held(t, j) == Lookup(Contents(), j) { HeldIsLookup(t, j); }
      forall j | j < 0 || layers == 0 || j > IdrMax(layers) ensures Held(t, j) == NULL { HeldInRange(t, j); }
      IdrMaxBound(layers);
      var pa := new Ptr[5](_ => NULL);
      var idx, n, id := 0, layers, 0;
      pa[0] := top;
      var max := IdrMax(layers);
      W.WalkStart(t, pa[..], 0);
      error, visited := 0, [];
      W.ZeroAligned(t);
      VisitedNone(t, fn);
      while 0 <= id <= max
        invariant n >= 0 && error == 0
        invariant 0 <= id <= max ==> W.Walk(t, pa[..], idx, id, n) && W.Aligned(t, id)
        invariant Visited(t, fn, visited, if id < 0 then MAX_IDR_BIT else id)
        decreases if id < 0 then 0 else MAX_IDR_BIT - id
      {
        ghost var v0 := visited;
        var p: Ptr;
        p, idx, n := GoDown(pa, idx, id, n);
        W.WalkFacts(t, pa[..], idx, id, n);
        TopPresent(t, pa[..], idx, id, n);
        if p != NULL {
          error := fn(id, p);
          visited := visited + [(id, p)];
          if error != 0 {
            VisitedUpTo(t, fn, v0, id);
            break;
          }
        }
        W.NextUp(t, id, n);
        if p == NULL { W.NothingUpTo(t, pa[..], idx, id, n); }
        W.AlignedStep(t, pa[..], idx, id, n);
        W.AlignedNext(t, pa[..], idx, id, n);
        ghost var next, n0, idx0, was := Shl(Shr(id, n) + 1, n), n, idx, id;
        W.OneUp(id);
        VisitedOn(t, fn, v0, visited, id, p, next);
        id := Wrap(id + Shl(1, n));
        n, idx := PopStack(id, n, idx);
        if 0 <= id <= max { Popped(t, pa[..], idx0, was, n0, next, n, idx); }
      }
      if error == 0 { VisitedUpTo(t, fn, visited, if id < 0 then MAX_IDR_BIT else id); }
    }

    /** Whether nothing is bound to a non-null pointer. */
    method IsEmpty() returns (r: bool)
      requires Valid() && !chunked
      ensures r <==> forall j :: j in Contents() ==> Contents()[j] == NULL
    {
      var error, visited := ForEach((i, p) => 1);
      r := error == 0;
      if error != 0 {
        var v := visited[|visited| - 1];
        assert Lookup(Contents(), v.0) != NULL;
      } else {
        assert visited == [];
        forall j | j in Contents() ensures Contents()[j] == NULL {
          assert Lookup(Contents(), j) == NULL;
        }
      }
    }

    /** Goes down the path to `id` as far as the leaf; `t` is the tree before its release began. */
    method GoDownToLeaf(pa: array<Ptr>, idx0: int, id: int, n0: nat, ghost t: Trie) returns (idx: int, n: nat)
      requires pa.Length == 5 && W.Walk(t, pa[..], idx0, id, n0) && W.Remaining(t, heap, idFree, id, 0, 0)
      requires t.layers > 0 ==> n0 > 0
      modifies pa
      ensures W.Walk(t, pa[..], idx, id, n) && n <= n0 && (t.layers > 0 ==> n > 0)
      ensures n <= 1 || On(id, n - 1) !in t.at
    {
      hide W.Walk, W.Remaining, Inv, Placed;
      n, idx := n0, idx0;
      W.WalkFacts(t, pa[..], idx, id, n);
      var p := pa[idx];
      while n > 1 && p != NULL
        invariant W.Walk(t, pa[..], idx, id, n) && 0 <= idx <= 4 && idx + n == idx0 + n0 <= 4 && p == pa[idx] && n <= n0
        invariant t.layers > 0 ==> n > 0
        decreases n
      {
        W.WalkDown(t, pa[..], idx, id, n);
        W.WalkAt(t, pa[..], idx, id, n);
        W.PathAlive(t, heap, idFree, id, 0, 0, n - 1);
        n := n - 1;
        idx := idx + 1;
        pa[idx] := heap[p].ary[Slot(id, n)];
        p := pa[idx];
      }
      if n > 1 { W.NothingUpTo(t, pa[..], idx, id, n); }
    }

    /** Pops the levels whose digit changes on the way to `next`, freeing their layers. */
    method PopAndFree(pa: array<Ptr>, idx0: int, id: int, n0: nat, next: int, ghost t: Trie) returns (idx: int, n: nat)
      requires pa.Length == 5 && W.Walk(t, pa[..], idx0, id, n0) && W.Remaining(t, heap, idFree, id, 0, 0)
      requires (t.layers > 0 ==> n0 > 0) && (n0 <= 1 || On(id, n0 - 1) !in t.at)
      requires 0 <= id < next == Shl(Shr(id, n0) + 1, n0) && next <= IdrMax(t.layers) + 1
      modifies `heap, `hint
      ensures W.Remaining(t, heap, idFree, next, 0, 0)
      ensures n >= n0 && idx + n == idx0 + n0 && (next <= IdrMax(t.layers) ==> W.Walk(t, pa[..], idx, next, n))
      ensures hint == NULL || (hint == old(hint) && (old(hint) in old(heap) ==> hint in heap))
    {
      hide W.Walk, W.Remaining, W.FlsXor, Inv, Placed, Shl, Shr, IdrMax;
      n, idx := n0, idx0;
      W.WalkFacts(t, pa[..], idx, id, n);
      W.SamePops(t, heap, idFree, id, n);
      while 8 * n < W.FlsXor(next, id)
        invariant n >= n0 && idx + n == idx0 + n0
        invariant W.Remaining(t, heap, idFree, id, n0, n)
        invariant forall k :: n0 <= k < n ==> 8 * k < W.FlsXor(next, id)
        invariant hint == NULL || (hint == old(hint) && (old(hint) in old(heap) ==> hint in heap))
        decreases W.FlsXor(next, id) - 8 * n
      {
        if n > t.layers { W.LastPop(t.layers, id, next, n); }
        W.StackAt(t, pa[..], idx0, id, n0, idx);
        if t.layers > 0 { W.PopOne(t, heap, idFree, id, n0, n); } else { W.PopNone(t, heap, idFree, id, n0, n); }
        if pa[idx] != NULL {
          FreeLayer(pa[idx]);
        }
        n := n + 1;
        idx := idx - 1;
      }
      forall k | n0 <= k < n ensures Shr(id, k) != Shr(next, k) {
        assert 8 * k < W.FlsXor(next, id);
        W.FlsShr(next, id, k);
      }
      W.FlsShr(next, id, n);
      W.RemainingNext(t, heap, idFree, id, n0, next, n);
      if next <= IdrMax(t.layers) { W.WalkChanged(t, pa[..], idx0, id, n0, next, n); }
    }

    /** The walk over all leaves that frees each layer behind it; `first` is the old top. */
    method ReleaseWalk(first: Ptr, ghost t: Trie)
      requires Inv(t) && layers == t.layers <= 4 && first == t.top && heap == t.heap
        && W.Remaining(t, heap, idFree, 0, 0, 0)
      requires hint == NULL || hint in heap
      modifies `heap, `hint
      ensures W.Remaining(t, heap, idFree, IdrMax(layers) + 1, 0, 0)
      ensures hint == NULL || (hint == old(hint) && hint in heap)
    {
      hide Inv, Placed, Shl, Shr, IdrMax, W.Walk, W.Aligned, W.Remaining, W.FlsXor, W.OnBorder;
      Shallow(t);
      IdrMaxBound(layers);
      var n, id, idx := layers, 0, 0;
      var pa := new Ptr[5](_ => NULL);
      pa[0] := first;
      var max := IdrMax(layers);
      W.WalkStart(t, pa[..], 0);
      W.ZeroAligned(t);
      W.ZeroBorder();
      while 0 <= id <= max
        invariant n >= 0 && (hint == NULL || (hint == old(hint) && hint in heap))
        invariant id < 0 ==> max == MAX_IDR_BIT - 1
        invariant var u := if id < 0 then MAX_IDR_BIT else id;
                0 <= u <= max + 1 && W.Remaining(t, heap, idFree, u, 0, 0)
        invariant 0 <= id <= max ==>
            W.Walk(t, pa[..], idx, id, n) && W.Aligned(t, id) && W.OnBorder(id) && (layers > 0 ==> n > 0)
        decreases if id < 0 then 0 else MAX_IDR_BIT - id
      {
        idx, n := GoDownToLeaf(pa, idx, id, n, t);
        W.WalkFacts(t, pa[..], idx, id, n);
        W.LeafOrMissing(t, pa[..], idx, id, n);
        W.RoundUp(t, pa[..], idx, id, n);
        var btMask := id;
        id := Wrap(id + Shl(1, n));
        idx, n := PopAndFree(pa, idx, btMask, n, if id < 0 then id + 2 * MAX_IDR_BIT else id, t);
      }
    }

    /** Frees every layer of the tree; only the top of a four-layer tree is missed. */
    method RemoveAll()
      requires Valid()
      modifies `heap, `hint, `at, `top, `layers, `lost
      ensures Valid() && Contents() == map[] && layers == 0 && top == NULL && hint == NULL && at == map[]
        && idFree == old(idFree)
      ensures heap.Keys == Elems(idFree)
      ensures lost == if old(layers) == 4 then old(lost)[old(top) := old(heap)[old(top)]] else old(lost)
    {
      hide Inv, Placed, HintOk, Stock, IdrMax, W.Remaining, Bindings, Elems, Taken, Held;
      ghost var t := View();
      Shallow(t);
      StockAll(t, idFree);
      W.NoneReleased(t, idFree);
      HintLive(t, hint);
      var first := top;
      top := NULL;
      ReleaseWalk(first, t);
      NoHintLeft(t, old(hint), idFree);
      Released(t, heap, idFree);
      if layers == 4 {
        // the walk ends one level below the top: nothing leads to the top any more
        lost := lost[first := heap[first]];
        heap := heap - {first};
      }
      at := map[];
      layers := 0;
      EmptyTree(View(), idFree);
    }

    /** Releases the tree and the free list. */
    method Destroy()
      requires Valid()
      modifies `heap, `hint, `at, `top, `layers, `lost, `idFree
      ensures Valid() && Contents() == map[] && layers == 0 && heap == map[] && idFree == []
      ensures lost == if old(layers) == 4 then old(lost)[old(top) := old(heap)[old(top)]] else old(lost)
    {
      hide Inv, HintOk, Stock;
      RemoveAll();
      ghost var l := lost;
      while idFree != []
        invariant Valid() && Contents() == map[] && layers == 0 && at == map[] && top == NULL && hint == NULL
          && lost == l && heap.Keys == Elems(idFree)
        decreases |idFree|
      {
        var p := idFree[0];
        ghost var rest := idFree[1..];
        assert idFree == [p] + rest;
        FreeListPop(heap, at, p, rest);
        idFree := idFree[1..];
        heap := heap - {p};
        EmptyTree(View(), idFree);
      }
    }

    // ---------- what the chunked allocator does with the tree ----------

    /** Fills the free list up to twice the depth of the deepest tree. */
    method PreGet()
      requires Valid()
      modifies `heap, `idFree
      ensures Valid() && Same(old(View()), View())
      ensures |idFree| == if |old(idFree)| < MAX_IDR_FREE then MAX_IDR_FREE else |old(idFree)|
    {
      hide Inv, Placed, Same, HintOk, Stock;
      ghost var t := View();
      SameRefl(t);
      while |idFree| < MAX_IDR_FREE
        invariant Valid() && Same(t, View())
        invariant |old(idFree)| <= |idFree| && (|idFree| <= MAX_IDR_FREE || idFree == old(idFree))
        decreases MAX_IDR_FREE - |idFree|
      {
        ghost var u := View();
        AllLive(u);
        var p := LayerAlloc(false);
        Frame(u, View());
        SameHint(u, View(), hint);
        SameTrans(t, u, View());
        assert {} + {p} == {p};
        StockPush(heap, at, idFree, p);
        idFree := [p] + idFree;
      }
    }

    /** Throws one layer of the free list away. */
    method DropSpare()
      requires Valid()
      modifies `heap, `idFree
      ensures Valid() && Same(old(View()), View())
      ensures idFree == if old(idFree) == [] then [] else old(idFree)[1..]
    {
      hide Inv, Placed, Same, HintOk, Stock;
      ghost var t := View();
      SameRefl(t);
      if idFree != [] {
        var p := idFree[0];
        ghost var rest := idFree[1..];
        assert idFree == [p] + rest;
        StockPop(t, heap, p, rest);
        idFree := idFree[1..];
        heap := heap - {p};
        Frame(t, View());
        SameHint(t, View(), hint);
      }
    }

    /** Puts the chunk `c` into the empty slot that `pa` leads to. */
    method InstallChunk(id: int, c: Ptr, pa: array<Ptr>)
      requires Valid() && chunked && layers > 0 && 0 <= id <= IdrMax(layers) && Held(View(), id) == NULL && c != NULL
      requires pa.Length == 5 && PathTo(View(), pa[..], id, 0)
      modifies `heap
      ensures Valid() && Holds(old(View()), View(), id, c) && PathTo(View(), pa[..], id, 0)
    {
      hide Inv, Placed, Rooted, Linked, Marked, Counted, HintOk, Stock, Holds, Held, Taken;
      ghost var t := View();
      Live(t, On(id, 0));
      Install(t, id, c);
      var n := heap[pa[0]];
      StockBit(heap, at, idFree, On(id, 0), n.(ary := n.ary[id % 256 := c], count := n.count + 1));
      heap := heap[pa[0] := n.(ary := n.ary[id % 256 := c], count := n.count + 1)];
      assert View() == Installed(t, id, c);
      ChunkedHint(t, View(), hint);
    }

    /** Marks the slot of a chunk that has become full. */
    method SetFull(pa: array<Ptr>, id: int)
      requires Valid() && chunked && layers > 0 && 0 <= id && !Taken(View(), id) && Held(View(), id) != NULL
      requires pa.Length == 5 && PathTo(View(), pa[..], id, 0)
      modifies `heap
      ensures Valid() && Fills(old(View()), View(), id)
    {
      hide Inv, Placed, Rooted, Linked, Marked, Counted, HintOk, Stock, Held, Taken, Pending, Fills;
      ghost var t := View();
      Live(t, On(id, 0));
      FullBit(t, id);
      MarkFull(pa, id);
      FillsSame(t, WithBit(t, On(id, 0), Slot(id, 0)), View(), id);
      ChunkedHint(t, View(), hint);
    }

    /** Clears the bits on the path down to the slot of `id`; the leaf, or null when the path is broken. */
    method OpenSlotOf(id: int) returns (p: Ptr)
      requires Valid() && chunked && 0 <= id <= IdrMax(layers)
      modifies `heap
      ensures Valid() && Opens(old(View()), View(), id)
      ensures p == NULL ==> Held(View(), id) == NULL
      ensures p != NULL ==>
          On(id, 0) in at && p == at[On(id, 0)] && p in heap && Formed(heap[p])
          && heap[p].ary[id % 256] == Held(View(), id)
    {
      hide Inv, Placed, Rooted, Linked, Marked, Counted, HintOk, Stock, Held, Taken, Loose, PathCleared, Opens;
      ghost var t0 := View();
      var sh: int;
      p, sh := top, layers - 1;
      InvLoose(t0, id);
      ClearingStart(t0, id);
      while sh > 0 && p != NULL
        invariant Clearing(t0, View(), id, sh, p) && Stock(heap, at, idFree, {})
        decreases sh
      {
        ghost var u := View();
        ClearingFacts(t0, u, id, sh, p);
        ClearingStep(t0, u, id, sh, p);
        var n := Slot(id, sh);
        StockBit(heap, at, idFree, On(id, sh), ClearBit(heap[p], n));
        heap := heap[p := ClearBit(heap[p], n)];
        p := heap[p].ary[n];
        sh := sh - 1;
      }
      ghost var u := View();
      ClearingDone(t0, u, id, sh, p);
      if p == NULL {
        Unreached(t0, u, id, sh);
        OpensSelf(t0, id);
        return NULL;
      }
      var n := id % IDR_SIZE;
      ClearStep(t0, u, id, 0);
      StockBit(heap, at, idFree, On(id, 0), ClearBit(heap[p], n));
      heap := heap[p := ClearBit(heap[p], n)];
      OpenPath(t0, View(), id);
      ChunkedHint(t0, View(), hint);
      LeafFacts(View(), id);
    }

    /** Sets the leaf bit again so that the removal finds the slot, and removes it. */
    method RemoveChunk(p: Ptr, id: int)
      requires Valid() && chunked && 0 <= id <= IdrMax(layers) && Held(View(), id) != NULL && !Taken(View(), id)
      requires On(id, 0) in at && p == at[On(id, 0)] && p in heap && Formed(heap[p])
      modifies `heap, `hint, `at, `top, `layers
      ensures Valid() && Holds(old(View()), View(), id, NULL) && idFree == old(idFree)
    {
      hide Inv, Placed, Rooted, Linked, Marked, Counted, HintOk, Stock, Held, Taken, Loose, Holds, Fills, Unbinds;
      ghost var t := View();
      OpenedLoose(t, id);
      InRangeBound(t, id);
      StockBit(heap, at, idFree, On(id, 0), heap[p].(bitmap := heap[p].bitmap[id % IDR_SIZE := true]));
      heap := heap[p := heap[p].(bitmap := heap[p].bitmap[id % IDR_SIZE := true])];
      ghost var u := View();
      assert u == WithBit(t, On(id, 0), Slot(id, 0));
      ChunkedHint(t, u, hint);
      Remove(id);
      FillUnbind(t, u, View(), id);
    }
  }

  /** A tree of four layers, one id in it: releasing it loses the top layer. */
  method DestroyLosesRoot() returns (t: Idr, root: Ptr)
    ensures t.Valid() && t.Contents() == map[] && t.heap == map[] && root != NULL && root in t.lost
  {
    hide Inv, Placed, HintOk, Stock, IdrMax;
    t := new Idr(false);
    ghost var none := t.Contents();
    var id := t.Alloc(5, 0x100_0000, 0);
    assert 0x100_0000 !in none;
    FourLayers(t.View(), id);
    root := t.top;
    t.Destroy();
  }

  lemma FourLayers(t: Trie, id: int)
    requires Inv(t) && id >= 0x100_0000 && id in Bindings(t)
    ensures t.layers == 4 && t.top != NULL
  {
    assert Taken(t, id);
    TakenInRange(t, id);
    IdrMaxBound(t.layers);
    AtTop(t);
  }

  /** An id bound to NULL, in a tree said to be empty. */
  method EmptyWithAnId() returns (t: Idr, r: bool)
    ensures t.Valid() && !t.chunked && r && t.Contents() == map[0 := NULL]
  {
    t := new Idr(false);
    ghost var none := t.Contents();
    var id := t.Alloc(NULL, 0, 0);
    assert 0 !in none;
    assert id == 0;
    r := t.IsEmpty();
  }
}
